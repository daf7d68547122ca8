/** Inputs that meet every other hypothesis of a result about markers or configuration files and
    fail its condition. */
module FormatWitnesses {
  import opened Wrappers
  import opened Batches
  import opened TomlMerge
  import opened TomlLaws
  import opened ConfigFile

  // ---------- A scan that starts beyond the marker ----------

  /** Scanned up to height 100; the user scans from 200: height 150 stays below the new marker. */
  lemma LateScanLeavesGap(p: Progress)
    requires p == Progress(100, InitComplete, [(0, 100)])
    ensures Gapless(p, 0) && Possible(p, Scanning(200, 300, 1)) && !Gapless(After(p, Scanning(200, 300, 1)), 0)
  {
    BatchAt(200, 300, 0);
    var a := Scanning(200, 300, 1);
    forall h: nat ensures Covered(p, h) <==> h <= 100 {
      if h <= 100 { assert InBatch(p.committed, 0, h); }
    }
    assert !Covered(p, 150);
    AttemptKeepsGaplessIff(p, a, 0);
  }

  // ---------- An inline table ----------

  const BRIDGE: Schema := Struct(map["tor" := Struct(map["bridge" := Struct(map[])])])

  /** A format whose fields are all optional. */
  function OptionalFormat(schema: Schema): Format {
    Format(schema, (i: Item) => if Conforms(i, schema) then Some(i) else None)
  }

  lemma {:induction false} ConformingCovers(c: Item, schema: Schema)
    requires Conforms(c, schema)
    ensures Covers(c, c, schema)
    decreases c
  {
    if schema.Struct? {
      forall key | key in c.entries ensures Covers(c.entries[key], c.entries[key], schema.fields[key]) {
        ConformingCovers(c.entries[key], schema.fields[key]);
      }
    }
  }

  lemma OptionalIsLawful(schema: Schema)
    requires schema.Struct?
    ensures Lawful(OptionalFormat(schema))
  {
    forall i: Item | Conforms(i, schema) ensures Covers(i, i, schema) { ConformingCovers(i, schema); }
  }

  /** `bridge = { mine = "x" }` inside `[tor]`. */
  function InlineBridge(): Item {
    Table(false, map["tor" := Table(false, map["bridge" := Table(true, map["mine" := Value("x")])])])
  }

  /** Saving the configuration just read loses the user's key. */
  lemma InlineBridgeLosesKey()
    ensures var f, file := OptionalFormat(BRIDGE), InlineBridge();
      && Lawful(f) && IsTable(file) && Decode(f, file).Some?
      && At(file, ["tor", "bridge", "mine"]).Some?
      && Saved(f, file, Decode(f, file).value).Some?
      && At(Saved(f, file, Decode(f, file).value).value, ["tor", "bridge", "mine"])
         != At(file, ["tor", "bridge", "mine"])
  {
    var f, file, p := OptionalFormat(BRIDGE), InlineBridge(), ["tor", "bridge"];
    OptionalIsLawful(BRIDGE);
    BridgeReads();
    assert p[1..] == ["bridge"] && p[1..][1..] == [] && p + ["mine"] == ["tor", "bridge", "mine"];
    var tor := file.entries["tor"];
    assert StructsAlong(tor.entries["bridge"], BRIDGE.fields["tor"].fields["bridge"], []);
    assert StructsAlong(tor, BRIDGE.fields["tor"], ["bridge"]) && StructsAlong(file, BRIDGE, p);
    assert At(tor, ["bridge"]) == Some(tor.entries["bridge"]) && At(file, p) == At(tor, ["bridge"]);
    assert !TablesAlong(tor, ["bridge"]) && !TablesAlong(file, p);
    assert Foreign(BRIDGE.fields["tor"], ["bridge"], "mine") && Foreign(BRIDGE, p, "mine");
    hide Lawful, Project, Conforms;
    AtSnoc(file, p, "mine");
    OwnKeySurvivesIff(f, file, p, "mine");
  }

  lemma BridgeReads()
    ensures Decode(OptionalFormat(BRIDGE), InlineBridge()).Some?
  {
    var bridge := Table(true, map["mine" := Value("x")]);
    var tor := Table(false, map["bridge" := bridge]);
    assert Project(bridge, Struct(map[])) == Table(false, map[]);
    assert Project(tor, BRIDGE.fields["tor"]) == Table(false, map["bridge" := Table(false, map[])]);
    assert Project(InlineBridge(), BRIDGE)
        == Table(false, map["tor" := Table(false, map["bridge" := Table(false, map[])])]);
    assert Conforms(Table(false, map["bridge" := Table(false, map[])]), BRIDGE.fields["tor"]);
  }
}
