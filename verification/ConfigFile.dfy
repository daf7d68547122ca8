/** Reading and saving a version-2 configuration file (config/src/config.rs). */
module ConfigFile {
  import opened Wrappers
  import opened TomlMerge
  import opened TomlLaws

  /** The configuration types: their schema, and how what was read of it is completed. Missing
      fields are defaulted; a missing or ill-typed required field makes the file unreadable. */
  datatype Format = Format(schema: Schema, complete: Item -> Option<Item>)

  /** A configuration, written out, has schema fields only, keeps every field that was read, and
      reads back as itself. */
  ghost predicate Lawful(f: Format) {
    && f.schema.Struct?
    && forall i: Item, c: Item :: f.complete(i) == Some(c) ==>
         Conforms(c, f.schema) && Covers(c, i, f.schema) && f.complete(c) == Some(c)
  }

  ghost predicate IsConfig(f: Format, c: Item) {
    Conforms(c, f.schema) && f.complete(c) == Some(c)
  }

  function Decode(f: Format, file: Item): Option<Item> {
    f.complete(Project(file, f.schema))
  }

  /** The file after a configuration is saved over it. */
  function Saved(f: Format, file: Item, wanted: Item): Option<Item>
    requires IsTable(file) && IsTable(wanted)
  {
    var known := Decode(f, file);
    if known.Some? then Some(Merge(file, wanted, known)) else None
  }

  lemma {:induction false} CoversThroughProjection(known: Item, file: Item, schema: Schema)
    requires Covers(known, Project(file, schema), schema)
    ensures Covers(known, file, schema)
    decreases file
  {
    if schema.Struct? && file.Table? {
      var read := Project(file, schema);
      forall key | key in file.entries && key in schema.fields
        ensures key in known.entries && Covers(known.entries[key], file.entries[key], schema.fields[key])
      {
        assert key in read.entries && read.entries[key] == Project(file.entries[key], schema.fields[key]);
        CoversThroughProjection(known.entries[key], file.entries[key], schema.fields[key]);
      }
    }
  }

  /** What was saved is what the next load returns, whatever else the file holds. */
  lemma SavedReadsBack(f: Format, file: Item, wanted: Item)
    requires Lawful(f) && IsTable(file) && IsConfig(f, wanted) && Decode(f, file).Some?
    ensures IsTable(wanted) && Saved(f, file, wanted).Some? && IsTable(Saved(f, file, wanted).value)
    ensures Decode(f, Saved(f, file, wanted).value) == Some(wanted)
  {
    hide Merge, NothingStale, Covers, Project;
    var known := Decode(f, file).value;
    assert f.complete(Project(file, f.schema)) == Some(known);
    assert Conforms(known, f.schema);
    CoversThroughProjection(known, file, f.schema);
    CoveredIsNotStale(known, file, wanted, f.schema);
    MergeReadsBackIff(file, wanted, Some(known), f.schema);
  }

  // ---------- Keys the configuration types do not know ----------

  /** Standard tables all along `p`. */
  ghost predicate TablesAlong(item: Item, p: Path) {
    IsTable(item) && (p != [] ==> p[0] in item.entries && TablesAlong(item.entries[p[0]], p[1..]))
  }

  /** The schema has no field `key` in its structure at `p`. */
  ghost predicate Foreign(schema: Schema, p: Path, key: string) {
    schema.Struct? ==> if p == [] then key !in schema.fields
                       else p[0] in schema.fields ==> Foreign(schema.fields[p[0]], p[1..], key)
  }

  lemma {:induction false} ForeignNotKnown(c: Item, schema: Schema, p: Path, key: string)
    requires Conforms(c, schema) && Foreign(schema, p, key)
    ensures !HasKey(c, p, key) && !KnownKey(Some(c), p, key)
    decreases p
  {
    if p != [] {
      if c.Table? && p[0] in c.entries {
        ForeignNotKnown(c.entries[p[0]], schema.fields[p[0]], p[1..], key);
      }
      if SubTable(Some(c), p[0]) == None { NoTableKnowsNothing(p[1..], key); }
    }
  }

  lemma {:induction false} NoTableKnowsNothing(p: Path, key: string)
    ensures !KnownKey(None, p, key)
    decreases p
  {
    if p != [] { NoTableKnowsNothing(p[1..], key); }
  }

  lemma {:induction false} SharedTables(current: Item, wanted: Item, known: Option<Item>, p: Path)
    requires TablesAlong(current, p) && TablesAlong(wanted, p)
    ensures Shared(current, wanted, p) && TablesAlong(Merge(current, wanted, known), p)
    decreases p
  {
    if p != [] {
      MergeAt(current, wanted, known, p[0]);
      SharedTables(current.entries[p[0]], wanted.entries[p[0]], SubTable(known, p[0]), p[1..]);
    }
  }

  /** A user's own key in a table that stays a standard table keeps everything under it. */
  lemma ForeignSurvives(f: Format, file: Item, wanted: Item, p: Path, key: string, rest: Path)
    requires Lawful(f) && IsConfig(f, wanted) && Decode(f, file).Some?
    requires TablesAlong(file, p) && TablesAlong(wanted, p) && Foreign(f.schema, p, key)
    ensures var after := Saved(f, file, wanted);
      after.Some? && TablesAlong(after.value, p) && At(after.value, p + [key] + rest) == At(file, p + [key] + rest)
  {
    hide Merge, Project, Conforms, Covers;
    var known := Decode(f, file).value;
    assert f.complete(Project(file, f.schema)) == Some(known);
    ForeignNotKnown(known, f.schema, p, key);
    ForeignNotKnown(wanted, f.schema, p, key);
    SharedTables(file, wanted, Some(known), p);
    OldKeys(file, wanted, Some(known), p, key, rest);
  }

  // ---------- A table written inline ----------

  /** Tables along `p`, inline or not, where the schema has structures. */
  ghost predicate StructsAlong(item: Item, schema: Schema, p: Path) {
    && item.Table? && schema.Struct?
    && (p != [] ==> p[0] in item.entries && p[0] in schema.fields
                    && StructsAlong(item.entries[p[0]], schema.fields[p[0]], p[1..]))
  }

  /** An inline table is a value to the merge: saving even the configuration just read from the file
      keeps a user's own key, however deep, exactly when no table on the way to it is written inline. */
  lemma OwnKeySurvivesIff(f: Format, file: Item, p: Path, key: string)
    requires Lawful(f) && IsTable(file) && Decode(f, file).Some?
    requires StructsAlong(file, f.schema, p) && Foreign(f.schema, p, key) && HasKey(file, p, key)
    ensures var after := Saved(f, file, Decode(f, file).value);
      after.Some? && (At(after.value, p + [key]) == At(file, p + [key]) <==> TablesAlong(file, p))
  {
    hide Merge, Project;
    var known := Decode(f, file).value;
    assert f.complete(Project(file, f.schema)) == Some(known);
    CoversThroughProjection(known, file, f.schema);
    AtSnoc(file, p, key);
    if TablesAlong(file, p) {
      KnownTables(file, known, f.schema, p);
      ForeignSurvives(f, file, known, p, key, []);
      assert p + [key] + [] == p + [key];
    } else {
      InlineLosesKey(file, known, f.schema, p, key);
    }
  }

  lemma {:induction false} AtSnoc(item: Item, p: Path, key: string)
    ensures At(item, p + [key]).Some? <==> HasKey(item, p, key)
    decreases p
  {
    var q := p + [key];
    if p == [] {
      assert q[0] == key && q[1..] == [];
    } else {
      assert q[1..] == p[1..] + [key];
      if item.Table? && p[0] in item.entries { AtSnoc(item.entries[p[0]], p[1..], key); }
    }
  }

  lemma {:induction false} KnownTables(file: Item, known: Item, schema: Schema, p: Path)
    requires Covers(known, file, schema) && StructsAlong(file, schema, p)
    ensures TablesAlong(known, p)
    decreases p
  {
    if p != [] { KnownTables(file.entries[p[0]], known.entries[p[0]], schema.fields[p[0]], p[1..]); }
  }

  lemma {:induction false} InlineLosesKey(file: Item, known: Item, schema: Schema, p: Path, key: string)
    requires IsTable(file) && Covers(known, file, schema) && Conforms(known, schema)
    requires StructsAlong(file, schema, p) && Foreign(schema, p, key) && !TablesAlong(file, p)
    ensures IsTable(known) && At(Merge(file, known, Some(known)), p + [key]) == None
    decreases p
  {
    hide Merge;
    var q, sub, kept := p + [key], file.entries[p[0]], known.entries[p[0]];
    assert q[0] == p[0] && q[1..] == p[1..] + [key];
    assert IsTable(kept);
    MergeAt(file, known, Some(known), p[0]);
    if IsTable(sub) {
      InlineLosesKey(sub, kept, schema.fields[p[0]], p[1..], key);
    } else {
      ForeignNotKnown(kept, schema.fields[p[0]], p[1..], key);
      AtSnoc(kept, p[1..], key);
    }
  }
}
