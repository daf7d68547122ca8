/** What the merge of a configuration into a file guarantees about every key of the result. */
module TomlLaws {
  import opened Wrappers
  import opened TomlMerge

  // ---------- Key by key ----------

  function At(item: Item, p: Path): Option<Item> {
    if p == [] then Some(item)
    else if item.Table? && p[0] in item.entries then At(item.entries[p[0]], p[1..])
    else None
  }

  /** The tables along `p` are standard tables, in the file and in the new configuration. */
  ghost predicate Shared(current: Item, wanted: Item, p: Path) {
    && IsTable(current) && IsTable(wanted)
    && (p != [] ==> p[0] in current.entries && p[0] in wanted.entries
                    && Shared(current.entries[p[0]], wanted.entries[p[0]], p[1..]))
  }

  /** The old configuration has `key` in its standard table at `p`. */
  ghost predicate KnownKey(known: Option<Item>, p: Path, key: string)
    decreases p
  {
    if p == [] then known.Some? && known.value.Table? && key in known.value.entries
    else KnownKey(SubTable(known, p[0]), p[1..], key)
  }

  ghost predicate HasKey(item: Item, p: Path, key: string) {
    At(item, p).Some? && At(item, p).value.Table? && key in At(item, p).value.entries
  }

  /** In a table that is on both sides, an old key the new configuration does not have is gone with
      everything under it when the old configuration knew it, and is untouched otherwise. */
  lemma {:induction false} OldKeys(current: Item, wanted: Item, known: Option<Item>, p: Path, key: string, rest: Path)
    requires Shared(current, wanted, p) && !HasKey(wanted, p, key)
    ensures At(Merge(current, wanted, known), p + [key] + rest) ==
            if KnownKey(known, p, key) then None else At(current, p + [key] + rest)
    decreases p
  {
    hide Merge;
    var q := p + [key] + rest;
    MergeAt(current, wanted, known, q[0]);
    if p == [] {
      assert q[0] == key && q[1..] == rest;
    } else {
      assert q[1..] == p[1..] + [key] + rest;
      OldKeys(current.entries[p[0]], wanted.entries[p[0]], SubTable(known, p[0]), p[1..], key, rest);
    }
  }

  /** A key of the new configuration is taken over with everything under it, unless it names a
      standard table on both sides. */
  lemma {:induction false} NewKeys(current: Item, wanted: Item, known: Option<Item>, p: Path, key: string, rest: Path)
    requires Shared(current, wanted, p) && HasKey(wanted, p, key) && !Shared(current, wanted, p + [key])
    ensures At(Merge(current, wanted, known), p + [key] + rest) == At(wanted, p + [key] + rest)
    decreases p
  {
    hide Merge;
    var q := p + [key] + rest;
    MergeAt(current, wanted, known, q[0]);
    if p == [] {
      assert q[0] == key && q[1..] == rest && (p + [key])[0] == key && (p + [key])[1..] == [];
    } else {
      assert q[1..] == p[1..] + [key] + rest && (p + [key])[1..] == p[1..] + [key];
      NewKeys(current.entries[p[0]], wanted.entries[p[0]], SubTable(known, p[0]), p[1..], key, rest);
    }
  }

  // ---------- Against the schema ----------

  /** What the configuration types read from a file: the fields they know, in standard tables. */
  function Project(item: Item, schema: Schema): Item
    decreases item
  {
    match schema
    case Leaf => item
    case Struct(fields) =>
      if item.Value? then item
      else Table(false, map key | key in item.entries && key in fields :: Project(item.entries[key], fields[key]))
  }

  /** A written configuration: fields of the schema only, structures as standard tables. */
  predicate Conforms(item: Item, schema: Schema)
    decreases item
  {
    match schema
    case Leaf => item.Value?
    case Struct(fields) =>
      IsTable(item) && forall key | key in item.entries :: key in fields && Conforms(item.entries[key], fields[key])
  }

  /** Every field of the schema found in the file, table by table, is also in `known`. */
  ghost predicate Covers(known: Item, current: Item, schema: Schema)
    decreases current
  {
    schema.Struct? && current.Table? ==>
      && IsTable(known)
      && forall key | key in current.entries && key in schema.fields ::
           key in known.entries && Covers(known.entries[key], current.entries[key], schema.fields[key])
  }

  /** No field of the schema is left over in the file: in tables on both sides, what the new
      configuration does not have the old one had. */
  ghost predicate NothingStale(current: Item, wanted: Item, known: Option<Item>, schema: Schema)
    requires IsTable(current) && IsTable(wanted)
    decreases wanted
  {
    schema.Struct? ==>
      && (forall key | key in current.entries && key in schema.fields && key !in wanted.entries ::
          key in Dropped(wanted, known))
      && (forall key | key in wanted.entries && key in schema.fields && key in current.entries
            && IsTable(current.entries[key]) && IsTable(wanted.entries[key]) ::
            NothingStale(current.entries[key], wanted.entries[key], SubTable(known, key), schema.fields[key]))
  }

  lemma {:induction false} ProjectConforming(item: Item, schema: Schema)
    requires Conforms(item, schema)
    ensures Project(item, schema) == item
    decreases item
  {
    if schema.Struct? {
      forall key | key in item.entries ensures Project(item.entries[key], schema.fields[key]) == item.entries[key] {
        ProjectConforming(item.entries[key], schema.fields[key]);
      }
    }
  }

  /** Read through the schema, the merged file is exactly the new configuration, if and only if
      nothing stale is left. */
  lemma {:induction false} MergeReadsBackIff(current: Item, wanted: Item, known: Option<Item>, schema: Schema)
    requires IsTable(current) && schema.Struct? && Conforms(wanted, schema)
    ensures Project(Merge(current, wanted, known), schema) == wanted <==> NothingStale(current, wanted, known, schema)
    decreases wanted
  {
    hide Merge;
    var merged := Merge(current, wanted, known);
    var read := Project(merged, schema);
    forall key | key in wanted.entries
      ensures key in read.entries
      ensures read.entries[key] == wanted.entries[key] <==>
              (key in current.entries && IsTable(current.entries[key]) && IsTable(wanted.entries[key]) ==>
               NothingStale(current.entries[key], wanted.entries[key], SubTable(known, key), schema.fields[key]))
    {
      MergeAt(current, wanted, known, key);
      if key in current.entries && IsTable(current.entries[key]) && IsTable(wanted.entries[key]) {
        MergeReadsBackIff(current.entries[key], wanted.entries[key], SubTable(known, key), schema.fields[key]);
      } else {
        ProjectConforming(wanted.entries[key], schema.fields[key]);
      }
    }
    forall key | key !in wanted.entries
      ensures key in read.entries <==> key in current.entries && key in schema.fields && key !in Dropped(wanted, known)
    {
      MergeAt(current, wanted, known, key);
    }
    if NothingStale(current, wanted, known, schema) {
      assert read.entries == wanted.entries;
    }
  }

  lemma {:induction false} CoveredIsNotStale(known: Item, current: Item, wanted: Item, schema: Schema)
    requires IsTable(known) && IsTable(current) && IsTable(wanted) && Covers(known, current, schema)
    ensures NothingStale(current, wanted, Some(known), schema)
    decreases wanted
  {
    if schema.Struct? {
      forall key | key in wanted.entries && key in schema.fields && key in current.entries
                   && IsTable(current.entries[key]) && IsTable(wanted.entries[key])
        ensures NothingStale(current.entries[key], wanted.entries[key], SubTable(Some(known), key), schema.fields[key])
      {
        if schema.fields[key].Struct? {
          CoveredIsNotStale(known.entries[key], current.entries[key], wanted.entries[key], schema.fields[key]);
        }
      }
    }
  }

  // ---------- Merging again ----------

  /** The file already says what the new configuration says. */
  ghost predicate Settled(m: Item, wanted: Item, known: Option<Item>)
    requires IsTable(m) && IsTable(wanted)
    decreases wanted
  {
    && (forall key | key in Dropped(wanted, known) :: key !in m.entries)
    && (forall key | key in wanted.entries :: key in m.entries &&
          if IsTable(m.entries[key]) && IsTable(wanted.entries[key])
          then Settled(m.entries[key], wanted.entries[key], SubTable(known, key))
          else m.entries[key] == wanted.entries[key])
  }

  lemma {:induction false} FixpointIff(m: Item, wanted: Item, known: Option<Item>)
    requires IsTable(m) && IsTable(wanted)
    ensures Merge(m, wanted, known) == m <==> Settled(m, wanted, known)
    decreases wanted
  {
    hide Merge;
    var again := Merge(m, wanted, known);
    forall key
      ensures key in again.entries <==> key in wanted.entries || (key in m.entries && key !in Dropped(wanted, known))
      ensures key in again.entries && key !in wanted.entries ==> again.entries[key] == m.entries[key]
    {
      MergeAt(m, wanted, known, key);
    }
    forall key | key in wanted.entries && key in m.entries
      ensures again.entries[key] == m.entries[key] <==>
              if IsTable(m.entries[key]) && IsTable(wanted.entries[key])
              then Settled(m.entries[key], wanted.entries[key], SubTable(known, key))
              else m.entries[key] == wanted.entries[key]
    {
      MergeAt(m, wanted, known, key);
      if IsTable(m.entries[key]) && IsTable(wanted.entries[key]) {
        FixpointIff(m.entries[key], wanted.entries[key], SubTable(known, key));
      }
    }
    if Settled(m, wanted, known) {
      assert again.entries == m.entries;
    }
  }

  /** `next` drops no key, in any table, that `known` does not drop. */
  ghost predicate DropsNoMore(wanted: Item, next: Option<Item>, known: Option<Item>)
    decreases wanted
  {
    wanted.Table? ==>
      && Dropped(wanted, next) <= Dropped(wanted, known)
      && forall key | key in wanted.entries ::
          DropsNoMore(wanted.entries[key], SubTable(next, key), SubTable(known, key))
  }

  lemma {:induction false} MergeSettles(current: Item, wanted: Item, known: Option<Item>, next: Option<Item>)
    requires IsTable(current) && IsTable(wanted) && DropsNoMore(wanted, next, known)
    ensures Settled(Merge(current, wanted, known), wanted, next)
    decreases wanted
  {
    hide Merge;
    var m := Merge(current, wanted, known);
    forall key | key in Dropped(wanted, next) ensures key !in m.entries { MergeAt(current, wanted, known, key); }
    forall key | key in wanted.entries
      ensures key in m.entries && if IsTable(m.entries[key]) && IsTable(wanted.entries[key])
                                  then Settled(m.entries[key], wanted.entries[key], SubTable(next, key))
                                  else m.entries[key] == wanted.entries[key]
    {
      MergeAt(current, wanted, known, key);
      if IsTable(wanted.entries[key]) {
        if key in current.entries && IsTable(current.entries[key]) {
          MergeSettles(current.entries[key], wanted.entries[key], SubTable(known, key), SubTable(next, key));
        } else {
          SettledItself(wanted.entries[key], SubTable(next, key));
        }
      }
    }
  }

  lemma {:induction false} SettledItself(wanted: Item, known: Option<Item>)
    requires IsTable(wanted)
    ensures Settled(wanted, wanted, known)
    decreases wanted
  {
    forall key | key in wanted.entries && IsTable(wanted.entries[key])
      ensures Settled(wanted.entries[key], wanted.entries[key], SubTable(known, key))
    {
      SettledItself(wanted.entries[key], SubTable(known, key));
    }
  }

  lemma {:induction false} SameDropsNoMore(wanted: Item, known: Option<Item>)
    ensures DropsNoMore(wanted, known, known)
    decreases wanted
  {
    if wanted.Table? {
      forall key | key in wanted.entries
        ensures DropsNoMore(wanted.entries[key], SubTable(known, key), SubTable(known, key)) {
        SameDropsNoMore(wanted.entries[key], SubTable(known, key));
      }
    }
  }

  lemma {:induction false} OwnKeysDropNothing(wanted: Item, next: Option<Item>, known: Option<Item>)
    requires next.Some? ==> next.value == wanted
    ensures DropsNoMore(wanted, next, known)
    decreases wanted
  {
    if wanted.Table? {
      forall key | key in wanted.entries
        ensures DropsNoMore(wanted.entries[key], SubTable(next, key), SubTable(known, key))
      {
        OwnKeysDropNothing(wanted.entries[key], SubTable(next, key), SubTable(known, key));
      }
    }
  }

  /** Saving the same configuration again changes nothing, whether the keys counted as known are
      those of the file before the first save or those read back from the file it wrote. */
  lemma MergeIdempotent(current: Item, wanted: Item, known: Option<Item>)
    requires IsTable(current) && IsTable(wanted)
    ensures var m := Merge(current, wanted, known);
      Merge(m, wanted, known) == m && Merge(m, wanted, Some(wanted)) == m
  {
    var m := Merge(current, wanted, known);
    SameDropsNoMore(wanted, known);
    MergeSettles(current, wanted, known, known);
    FixpointIff(m, wanted, known);
    OwnKeysDropNothing(wanted, Some(wanted), known);
    MergeSettles(current, wanted, known, Some(wanted));
    FixpointIff(m, wanted, Some(wanted));
  }
}
