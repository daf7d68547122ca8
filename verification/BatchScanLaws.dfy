/** What one scan of part of the chain leaves intact for the other parts. */
module BatchScanLaws {
  import opened SlateTypes
  import opened DbSpec
  import opened DbLaws
  import opened ScanLaws

  /** No two of the outputs belong at one key and position. They may be of different states of the chain:
      the same output may be at several positions. */
  ghost predicate OnePerKey(all: seq<ChainOut>) {
    forall c, d :: c in all && d in all && KeyOfOut(c) == KeyOfOut(d) ==> c.commit == d.commit
  }

  /** A consistent database beside all outputs the wallet ever meets on chain, none of which would have to
      be restored over the record of another. */
  ghost predicate Healthy(kc: Keychain, db: Db, all: seq<ChainOut>) {
    WellKeyed(db) && UniqueCommits(kc, db) && LogIdsBelow(db) && OnePerKey(all) && NoClash(kc, db, all)
  }

  ghost predicate Part(cs: seq<ChainOut>, all: seq<ChainOut>) {
    UtxoSet(cs) && forall c :: c in cs ==> c in all
  }

  lemma PartScannable(kc: Keychain, db: Db, listing: seq<OutKey>, cs: seq<ChainOut>, all: seq<ChainOut>)
    requires Healthy(kc, db, all) && Part(cs, all) && Listing(db, listing)
    ensures Scannable(kc, db, listing, cs) && NoClash(kc, db, cs)
  {
  }

  /** Where every record of the database after the scan comes from. */
  lemma RecordOrigin(kc: Keychain, db: Db, listing: seq<OutKey>, cs: seq<ChainOut>, order: seq<KeyId>, k: OutKey)
    requires Scannable(kc, db, listing, cs) && NoClash(kc, db, cs)
    ensures var after := Scan(kc, db, listing, cs, false, order);
      && (k in db.outputs ==>
          k in after.outputs && CommitOfRecord(kc, after.outputs[k]) == CommitOfRecord(kc, db.outputs[k])
                              && KeyOf(after.outputs[k]) == KeyOf(db.outputs[k])
                              && (db.outputs[k].status != Spent ==> after.outputs[k] == db.outputs[k]))
      && (k in after.outputs && k !in db.outputs ==>
            exists m :: m in cs && !Known(kc, db, m) && KeyOfOut(m) == k
                        && CommitOfRecord(kc, after.outputs[k]) == m.commit && KeyOf(after.outputs[k]) == k)
  {
    hide Scan, MissingOuts, UtxoSet;
    var after, missing := Scan(kc, db, listing, cs, false, order), MissingOuts(kc, db, listing, cs);
    ScanOutputs(kc, db, listing, cs, order);
    if k in db.outputs {
      if RestoresKey(missing, k) { RestoredClashes(kc, db, listing, cs, k); }
    } else if k in after.outputs {
      MissingLaw(kc, db, listing, cs);
      var i :| 0 <= i < |missing| && KeyOfOut(missing[i]) == k;
      var m := missing[i];
      assert m in missing;
      FindIff(kc, db, listing, m);
      RestoredCommit(kc, db, after, m);
    }
  }

  lemma KeysStay(kc: Keychain, db: Db, listing: seq<OutKey>, cs: seq<ChainOut>, order: seq<KeyId>)
    requires Scannable(kc, db, listing, cs) && NoClash(kc, db, cs)
    ensures WellKeyed(Scan(kc, db, listing, cs, false, order))
    ensures LogIdsBelow(Scan(kc, db, listing, cs, false, order))
  {
    hide Scan, UtxoSet, NoClash, Known, CommitOfRecord;
    var after := Scan(kc, db, listing, cs, false, order);
    forall k | k in after.outputs ensures KeyOf(after.outputs[k]) == k {
      RecordOrigin(kc, db, listing, cs, order, k);
    }
    ScanOutputs(kc, db, listing, cs, order);
  }

  lemma CommitsStayUnique(kc: Keychain, db: Db, listing: seq<OutKey>, cs: seq<ChainOut>, order: seq<KeyId>)
    requires Scannable(kc, db, listing, cs) && NoClash(kc, db, cs)
    ensures UniqueCommits(kc, Scan(kc, db, listing, cs, false, order))
  {
    hide Scan, NoClash, CommitOfRecord, UtxoSet, WellKeyed, LogIdsBelow;
    var after := Scan(kc, db, listing, cs, false, order);
    forall j, k | j in after.outputs && k in after.outputs
        && CommitOfRecord(kc, after.outputs[j]) == CommitOfRecord(kc, after.outputs[k])
      ensures j == k
    {
      RecordOrigin(kc, db, listing, cs, order, j);
      RecordOrigin(kc, db, listing, cs, order, k);
      if j !in db.outputs && k !in db.outputs {
        var m :| m in cs && !Known(kc, db, m) && KeyOfOut(m) == j && CommitOfRecord(kc, after.outputs[j]) == m.commit;
        var n :| n in cs && !Known(kc, db, n) && KeyOfOut(n) == k && CommitOfRecord(kc, after.outputs[k]) == n.commit;
        SameCommit(cs, m, n);
      } else if j !in db.outputs {
        var m :| m in cs && !Known(kc, db, m) && KeyOfOut(m) == j && CommitOfRecord(kc, after.outputs[j]) == m.commit;
        NotItsCommit(kc, db, m, k);
      } else if k !in db.outputs {
        var n :| n in cs && !Known(kc, db, n) && KeyOfOut(n) == k && CommitOfRecord(kc, after.outputs[k]) == n.commit;
        NotItsCommit(kc, db, n, j);
      }
    }
  }

  lemma NotItsCommit(kc: Keychain, db: Db, c: ChainOut, k: OutKey)
    requires !Known(kc, db, c) && k in db.outputs
    ensures CommitOfRecord(kc, db.outputs[k]) != c.commit
  {
    assert !HoldsCommit(kc, db, k, c.commit);
  }

  lemma NoClashStays(kc: Keychain, db: Db, listing: seq<OutKey>, cs: seq<ChainOut>, order: seq<KeyId>,
                     all: seq<ChainOut>)
    requires Healthy(kc, db, all) && Part(cs, all) && Listing(db, listing)
    ensures NoClash(kc, Scan(kc, db, listing, cs, false, order), all)
  {
    hide Scan, CommitOfRecord, UtxoSet, WellKeyed, LogIdsBelow, UniqueCommits;
    var after := Scan(kc, db, listing, cs, false, order);
    forall c | c in all ensures Known(kc, after, c) || KeyOfOut(c) !in after.outputs {
      PartScannable(kc, db, listing, cs, all);
      var key := KeyOfOut(c);
      if Known(kc, db, c) {
        var k :| HoldsCommit(kc, db, k, c.commit);
        RecordOrigin(kc, db, listing, cs, order, k);
        assert HoldsCommit(kc, after, k, c.commit);
      } else if key in after.outputs {
        RecordOrigin(kc, db, listing, cs, order, key);
        var m :| m in cs && KeyOfOut(m) == key && CommitOfRecord(kc, after.outputs[key]) == m.commit;
        assert m in all && KeyOfOut(m) == KeyOfOut(c);
        assert HoldsCommit(kc, after, key, c.commit);
      }
    }
  }

  /** A scan of part of the chain keeps the database healthy beside the whole chain. */
  lemma ScanKeepsHealthy(kc: Keychain, db: Db, listing: seq<OutKey>, cs: seq<ChainOut>, order: seq<KeyId>,
                         all: seq<ChainOut>)
    requires Healthy(kc, db, all) && Part(cs, all) && Listing(db, listing)
    ensures Healthy(kc, Scan(kc, db, listing, cs, false, order), all)
  {
    PartScannable(kc, db, listing, cs, all);
    KeysStay(kc, db, listing, cs, order);
    CommitsStayUnique(kc, db, listing, cs, order);
    NoClashStays(kc, db, listing, cs, order, all);
  }

  /** What an earlier scan repaired, a scan of another part leaves repaired. */
  lemma RepairedStays(kc: Keychain, db: Db, listing: seq<OutKey>, cs: seq<ChainOut>, order: seq<KeyId>,
                      all: seq<ChainOut>, c: ChainOut)
    requires Healthy(kc, db, all) && Part(cs, all) && Listing(db, listing)
    requires OneLiveRecord(kc, db, c)
    ensures OneLiveRecord(kc, Scan(kc, db, listing, cs, false, order), c)
  {
    hide Scan, CommitOfRecord, UtxoSet, Healthy, Part;
    PartScannable(kc, db, listing, cs, all);
    ScanKeepsHealthy(kc, db, listing, cs, order, all);
    var after := Scan(kc, db, listing, cs, false, order);
    var k :| HoldsCommit(kc, db, k, c.commit) && db.outputs[k].status != Spent;
    RecordOrigin(kc, db, listing, cs, order, k);
    assert HoldsCommit(kc, after, k, c.commit);
    forall j | HoldsCommit(kc, after, j, c.commit) ensures j == k { OnlyOne(kc, after, all, j, k); }
  }

  lemma OnlyOne(kc: Keychain, db: Db, all: seq<ChainOut>, j: OutKey, k: OutKey)
    requires Healthy(kc, db, all) && j in db.outputs && HoldsCommit(kc, db, k, CommitOfRecord(kc, db.outputs[j]))
    ensures j == k
  {
  }

  /** Scanning a part repairs it. */
  lemma PartRepaired(kc: Keychain, db: Db, listing: seq<OutKey>, cs: seq<ChainOut>, order: seq<KeyId>,
                     all: seq<ChainOut>)
    requires Healthy(kc, db, all) && Part(cs, all) && Listing(db, listing)
    ensures forall c :: c in cs ==> OneLiveRecord(kc, Scan(kc, db, listing, cs, false, order), c)
  {
    hide Scan, Scannable, OneLiveRecord, NoClash, Healthy;
    PartScannable(kc, db, listing, cs, all);
    ScanRepairsIff(kc, db, listing, cs, order);
  }
}
