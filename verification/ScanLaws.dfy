/** What a scan achieves: the wallet's records against the outputs found on chain. */
module ScanLaws {
  import opened Wrappers
  import opened Sums
  import opened SlateTypes
  import opened DbSpec
  import opened DbLaws

  // ---------- Accounts and child indices ----------

  /** Raising touches accounts and child indices only, and a parent's index only ever upwards,
      past what was found under it. */
  lemma {:induction false} RaiseLaw(db: Db, known: set<KeyId>, index: nat, found: map<KeyId, nat>, order: seq<KeyId>)
    ensures var after := RaiseAll(db, known, index, found, order);
      && after == db.(accounts := after.accounts, childIndex := after.childIndex)
      && forall p :: Get(after.childIndex, p) ==
           if p in order && p in found && found[p] >= Get(db.childIndex, p) then found[p] + 1 else Get(db.childIndex, p)
    decreases |order|
  {
    if order != [] {
      hide RaiseOne;
      var p := order[0];
      RaiseStep(db, known, index, found, p);
      RaiseLaw(RaiseOne(db, known, index, found, p), known, if p in known then index else index + 1, found, order[1..]);
      assert forall q :: q in order <==> q == p || q in order[1..];
    }
  }

  lemma RaiseStep(db: Db, known: set<KeyId>, index: nat, found: map<KeyId, nat>, p: KeyId)
    ensures var after := RaiseOne(db, known, index, found, p);
      && after == db.(accounts := after.accounts, childIndex := after.childIndex)
      && forall q :: Get(after.childIndex, q) ==
           if q == p && p in found && found[p] >= Get(db.childIndex, p) then found[p] + 1 else Get(db.childIndex, q)
  {
  }

  lemma {:induction false} FoundLaw(cs: seq<ChainOut>)
    ensures forall c | c in cs ::
            ParentPath(c.keyId) in FoundParents(cs) && FoundParents(cs)[ParentPath(c.keyId)] >= c.nChild
  {
    if cs != [] {
      var n := |cs| - 1;
      FoundLaw(cs[..n]);
      assert cs == cs[..n] + [cs[n]];
    }
  }

  /** The number is the largest child number found under the parent. */
  ghost predicate Largest(cs: seq<ChainOut>, p: KeyId, n: nat) {
    && (exists c :: c in cs && ParentPath(c.keyId) == p && c.nChild == n)
    && (forall c :: c in cs && ParentPath(c.keyId) == p ==> c.nChild <= n)
  }

  ghost predicate FoundBy(found: map<KeyId, nat>, cs: seq<ChainOut>, p: KeyId) {
    if p in found then Largest(cs, p, found[p]) else forall c :: c in cs ==> ParentPath(c.keyId) != p
  }

  lemma FoundOneMore(found: map<KeyId, nat>, cs: seq<ChainOut>, c: ChainOut, p: KeyId)
    requires FoundBy(found, cs, p)
    ensures var q := ParentPath(c.keyId);
      FoundBy(if c.nChild >= Get(found, q) then found[q := c.nChild] else found, cs + [c], p)
  {
    assert forall d :: d in cs + [c] <==> d in cs || d == c;
    if ParentPath(c.keyId) == p { assert c in cs + [c]; }
  }

  /** A parent is found when something was found under it, with the largest child number there. */
  lemma FoundExactly(cs: seq<ChainOut>, p: KeyId)
    ensures p in FoundParents(cs) <==> exists c :: c in cs && ParentPath(c.keyId) == p
    ensures p in FoundParents(cs) ==> Largest(cs, p, FoundParents(cs)[p])
  {
    FoundIs(cs, p);
  }

  lemma {:induction false} FoundIs(cs: seq<ChainOut>, p: KeyId)
    ensures FoundBy(FoundParents(cs), cs, p)
  {
    if cs != [] {
      var n := |cs| - 1;
      FoundIs(cs[..n], p);
      assert cs == cs[..n] + [cs[n]];
      hide FoundBy, ParentPath, Get;
      FoundOneMore(FoundParents(cs[..n]), cs[..n], cs[n], p);
    }
  }

  // ---------- Repair ----------

  /** The output has exactly one record, and that record does not say spent. */
  ghost predicate OneLiveRecord(kc: Keychain, db: Db, c: ChainOut) {
    exists k :: HoldsCommit(kc, db, k, c.commit) && db.outputs[k].status != Spent
      && forall j :: HoldsCommit(kc, db, j, c.commit) ==> j == k
  }

  ghost predicate WronglySpent(kc: Keychain, db: Db, cs: seq<ChainOut>, k: OutKey) {
    k in db.outputs && db.outputs[k].status == Spent && exists c :: c in cs && HoldsCommit(kc, db, k, c.commit)
  }

  /** Every output on chain has exactly one record, none of them spent, and no record that was
      not wrongly marked spent has changed. */
  ghost predicate Repaired(kc: Keychain, before: Db, after: Db, cs: seq<ChainOut>) {
    && (forall c :: c in cs ==> OneLiveRecord(kc, after, c))
    && (forall k :: k in before.outputs && !WronglySpent(kc, before, cs, k) ==>
          k in after.outputs && after.outputs[k] == before.outputs[k])
  }

  /** No unknown output sits under a key that a record of another output already uses. */
  ghost predicate NoClash(kc: Keychain, db: Db, cs: seq<ChainOut>) {
    forall c :: c in cs && !Known(kc, db, c) ==> KeyOfOut(c) !in db.outputs
  }

  /** A consistent database and a listing of it, and one consistent answer of the node. */
  ghost predicate Scannable(kc: Keychain, db: Db, listing: seq<OutKey>, cs: seq<ChainOut>) {
    WellKeyed(db) && UniqueCommits(kc, db) && LogIdsBelow(db) && Listing(db, listing) && UtxoSet(cs)
  }

  /** The records after a non-destructive scan, key by key. */
  lemma ScanOutputs(kc: Keychain, db: Db, listing: seq<OutKey>, cs: seq<ChainOut>, order: seq<KeyId>)
    requires Scannable(kc, db, listing, cs)
    ensures var after, missing := Scan(kc, db, listing, cs, false, order), MissingOuts(kc, db, listing, cs);
      && (forall k :: k in after.outputs <==> k in db.outputs || RestoresKey(missing, k))
      && (forall k :: k in db.outputs && !RestoresKey(missing, k) ==>
            after.outputs[k] == if WronglySpent(kc, db, cs, k) then db.outputs[k].(status := Unspent)
                else db.outputs[k])
      && (forall c :: c in missing ==> RestoresKey(missing, KeyOfOut(c)) && RestoredBy(db, after, c))
      && LogIdsBelow(after)
      && TotalCredited(after.log) == TotalCredited(db.log) + SumBy(missing, ValueOf)
  {
    hide RestoreAll, UnspendAll, RestoredBy, TotalCredited, RestoresKey, FoundParents, WronglySpent, UtxoSet;
    var missing, spent := MissingOuts(kc, db, listing, cs), MatchedOuts(kc, db, listing, cs, Spent);
    var db1 := UnspendAll(db, spent);
    var db2 := RestoreAll(db1, missing);
    SpentOnes(kc, db, listing, cs);
    UnspendLaw(db, spent);
    UnspendKeepsLog(db, spent);
    TotalUpToType(db.log, db1.log);
    StillBelow(db, db1);
    MissingLaw(kc, db, listing, cs);
    MissingPositions(missing, cs);
    RestoreLaw(db1, missing);
    RestoreKeepsLog(db1, missing);
    RestoredEach(db1, missing);
    RaiseLaw(db2, db2.accounts.Values, |db2.accounts|, FoundParents(missing), order);
    var after := Scan(kc, db, listing, cs, false, order);
    assert after == db2.(accounts := after.accounts, childIndex := after.childIndex);
    forall c | c in missing ensures RestoresKey(missing, KeyOfOut(c)) && RestoredBy(db, after, c) {
      var i :| 0 <= i < |missing| && missing[i] == c;
      IsRestored(db, db1, db2, after, missing, i);
    }
    StillBelow(db2, after);
  }

  lemma StillBelow(a: Db, b: Db)
    requires LogIdsBelow(a) && a.log.Keys == b.log.Keys && a.logIds == b.logIds
    ensures LogIdsBelow(b)
  {
    assert forall k :: k in b.log ==> k in a.log;
  }

  lemma MissingPositions(missing: seq<ChainOut>, cs: seq<ChainOut>)
    requires UtxoSet(missing)
    ensures forall i, j :: 0 <= i < j < |missing| ==> missing[i].mmrIndex != missing[j].mmrIndex
  {
  }

  lemma IsRestored(db: Db, db1: Db, db2: Db, after: Db, missing: seq<ChainOut>, i: nat)
    requires i < |missing| && RestoredBy(db1, db2, missing[i])
    requires db.log.Keys == db1.log.Keys && after.outputs == db2.outputs && after.log == db2.log
    ensures RestoresKey(missing, KeyOfOut(missing[i])) && RestoredBy(db, after, missing[i])
  {
    assert EntryKey(after, missing[i]) == EntryKey(db2, missing[i]);
  }

  /** The records un-spent by a scan are the ones wrongly marked spent. */
  lemma SpentOnes(kc: Keychain, db: Db, listing: seq<OutKey>, cs: seq<ChainOut>)
    requires Scannable(kc, db, listing, cs)
    ensures var spent := MatchedOuts(kc, db, listing, cs, Spent);
      && Current(db, spent)
      && (forall k | k in db.outputs :: Touches(spent, k) <==> WronglySpent(kc, db, cs, k))
  {
    hide UtxoSet, MatchedOuts;
    var spent := MatchedOuts(kc, db, listing, cs, Spent);
    forall i | 0 <= i < |spent|
      ensures KeyOf(spent[i]) in db.outputs && db.outputs[KeyOf(spent[i])] == spent[i]
      ensures WronglySpent(kc, db, cs, KeyOf(spent[i]))
    {
      MatchedLaw(kc, db, listing, cs, Spent, spent[i]);
      var c :| c in cs && Find(kc, db, listing, c) == Some(KeyOf(spent[i]));
      FindSound(kc, db, listing, c);
    }
    forall k | k in db.outputs && WronglySpent(kc, db, cs, k) ensures Touches(spent, k) {
      var c :| c in cs && HoldsCommit(kc, db, k, c.commit);
      FindIff(kc, db, listing, c);
      MatchedComplete(kc, db, listing, cs, Spent, c);
      var i :| 0 <= i < |spent| && spent[i] == db.outputs[k];
      assert KeyOf(spent[i]) == k;
    }
  }

  lemma RestoredCommit(kc: Keychain, before: Db, after: Db, c: ChainOut)
    requires RestoredBy(before, after, c)
    ensures HoldsCommit(kc, after, KeyOfOut(c), c.commit) && after.outputs[KeyOfOut(c)].status == Unspent
  {
  }

  /** Which records hold a given commitment after the scan. */
  lemma ScanCommits(kc: Keychain, db: Db, listing: seq<OutKey>, cs: seq<ChainOut>, order: seq<KeyId>, k: OutKey)
    requires Scannable(kc, db, listing, cs)
    requires k in Scan(kc, db, listing, cs, false, order).outputs
    ensures var after, missing := Scan(kc, db, listing, cs, false, order), MissingOuts(kc, db, listing, cs);
      if RestoresKey(missing, k)
      then exists c :: c in missing && KeyOfOut(c) == k && CommitOfRecord(kc, after.outputs[k]) == c.commit
      else k in db.outputs && CommitOfRecord(kc, after.outputs[k]) == CommitOfRecord(kc, db.outputs[k])
  {
    hide Scan, Scannable, MissingOuts, RestoredBy;
    var after, missing := Scan(kc, db, listing, cs, false, order), MissingOuts(kc, db, listing, cs);
    ScanOutputs(kc, db, listing, cs, order);
    if RestoresKey(missing, k) {
      var i :| 0 <= i < |missing| && KeyOfOut(missing[i]) == k;
      assert missing[i] in missing;
      RestoredCommit(kc, db, after, missing[i]);
    }
  }

  /** An output that had a record keeps exactly that record, unless another output was restored
      over it. */
  lemma KnownAfterScan(kc: Keychain, db: Db, listing: seq<OutKey>, cs: seq<ChainOut>, order: seq<KeyId>, c: ChainOut,
                       k: OutKey)
    requires Scannable(kc, db, listing, cs) && c in cs && HoldsCommit(kc, db, k, c.commit)
    ensures OneLiveRecord(kc, Scan(kc, db, listing, cs, false, order), c)
       <==> !RestoresKey(MissingOuts(kc, db, listing, cs), k)
  {
    hide Scan, MissingOuts, UtxoSet;
    var after, missing := Scan(kc, db, listing, cs, false, order), MissingOuts(kc, db, listing, cs);
    ScanOutputs(kc, db, listing, cs, order);
    MissingLaw(kc, db, listing, cs);
    forall j | HoldsCommit(kc, after, j, c.commit) ensures j == k && !RestoresKey(missing, k) {
      ScanCommits(kc, db, listing, cs, order, j);
      assert HoldsCommit(kc, db, k, CommitOfRecord(kc, after.outputs[j]));
      KnownNotMissing(kc, db, listing, cs, k);
    }
    if !RestoresKey(missing, k) {
      assert WronglySpent(kc, db, cs, k) || db.outputs[k].status != Spent;
      assert HoldsCommit(kc, after, k, c.commit);
    }
  }

  lemma KnownNotMissing(kc: Keychain, db: Db, listing: seq<OutKey>, cs: seq<ChainOut>, k: OutKey)
    requires Listing(db, listing) && k in db.outputs
    ensures forall m | m in MissingOuts(kc, db, listing, cs) :: m.commit != CommitOfRecord(kc, db.outputs[k])
  {
    MissingLaw(kc, db, listing, cs);
    forall m | m in MissingOuts(kc, db, listing, cs) ensures m.commit != CommitOfRecord(kc, db.outputs[k]) {
      FindIff(kc, db, listing, m);
      assert !HoldsCommit(kc, db, k, m.commit);
    }
  }

  /** An output without a record has exactly the restored one afterwards. */
  lemma UnknownAfterScan(kc: Keychain, db: Db, listing: seq<OutKey>, cs: seq<ChainOut>, order: seq<KeyId>, c: ChainOut)
    requires Scannable(kc, db, listing, cs) && c in cs && !Known(kc, db, c)
    ensures OneLiveRecord(kc, Scan(kc, db, listing, cs, false, order), c)
    ensures RestoresKey(MissingOuts(kc, db, listing, cs), KeyOfOut(c))
  {
    hide Scan, MissingOuts, UtxoSet;
    var after, missing := Scan(kc, db, listing, cs, false, order), MissingOuts(kc, db, listing, cs);
    ScanOutputs(kc, db, listing, cs, order);
    MissingLaw(kc, db, listing, cs);
    FindIff(kc, db, listing, c);
    assert c in missing;
    RestoredCommit(kc, db, after, c);
    forall j | HoldsCommit(kc, after, j, c.commit) ensures j == KeyOfOut(c) {
      ScanCommits(kc, db, listing, cs, order, j);
      assert !HoldsCommit(kc, db, j, c.commit);
      if RestoresKey(missing, j) {
        var m :| m in missing && KeyOfOut(m) == j && CommitOfRecord(kc, after.outputs[j]) == m.commit;
        SameCommit(cs, m, c);
      }
    }
  }

  lemma SameCommit(cs: seq<ChainOut>, c: ChainOut, d: ChainOut)
    requires UtxoSet(cs) && c in cs && d in cs && c.commit == d.commit
    ensures c == d
  {
    var i :| 0 <= i < |cs| && cs[i] == c;
    var j :| 0 <= j < |cs| && cs[j] == d;
  }

  /** A non-destructive scan repairs the wallet exactly when no unknown output has to be stored
      under the key of a record of another output. */
  lemma ScanRepairsIff(kc: Keychain, db: Db, listing: seq<OutKey>, cs: seq<ChainOut>, order: seq<KeyId>)
    requires Scannable(kc, db, listing, cs)
    ensures Repaired(kc, db, Scan(kc, db, listing, cs, false, order), cs) <==> NoClash(kc, db, cs)
  {
    hide Scan, MissingOuts, OneLiveRecord, WronglySpent, RestoredBy, RestoresKey;
    var after, missing := Scan(kc, db, listing, cs, false, order), MissingOuts(kc, db, listing, cs);
    ScanOutputs(kc, db, listing, cs, order);
    MissingLaw(kc, db, listing, cs);
    forall k | k in db.outputs && RestoresKey(missing, k) ensures !NoClash(kc, db, cs) {
      RestoredClashes(kc, db, listing, cs, k);
    }
    forall c | c in cs ensures NoClash(kc, db, cs) ==> OneLiveRecord(kc, after, c) {
      if Known(kc, db, c) {
        var k :| HoldsCommit(kc, db, k, c.commit);
        KnownAfterScan(kc, db, listing, cs, order, c, k);
      } else {
        UnknownAfterScan(kc, db, listing, cs, order, c);
      }
    }
    if !NoClash(kc, db, cs) {
      var m :| m in cs && !Known(kc, db, m) && KeyOfOut(m) in db.outputs;
      ClashBreaks(kc, db, listing, cs, order, m);
    }
  }

  lemma RestoredClashes(kc: Keychain, db: Db, listing: seq<OutKey>, cs: seq<ChainOut>, k: OutKey)
    requires Scannable(kc, db, listing, cs) && k in db.outputs && RestoresKey(MissingOuts(kc, db, listing, cs), k)
    ensures !NoClash(kc, db, cs)
  {
    var missing := MissingOuts(kc, db, listing, cs);
    MissingLaw(kc, db, listing, cs);
    var i :| 0 <= i < |missing| && KeyOfOut(missing[i]) == k;
    assert missing[i] in missing;
    FindIff(kc, db, listing, missing[i]);
  }

  /** Restoring over a record loses it: either an unrelated record changes, or another output on
      chain is left without one. */
  lemma ClashBreaks(kc: Keychain, db: Db, listing: seq<OutKey>, cs: seq<ChainOut>, order: seq<KeyId>, m: ChainOut)
    requires Scannable(kc, db, listing, cs) && m in cs && !Known(kc, db, m) && KeyOfOut(m) in db.outputs
    ensures !Repaired(kc, db, Scan(kc, db, listing, cs, false, order), cs)
  {
    hide Scan, MissingOuts, OneLiveRecord, UtxoSet;
    var after, k := Scan(kc, db, listing, cs, false, order), KeyOfOut(m);
    UnknownAfterScan(kc, db, listing, cs, order, m);
    if WronglySpent(kc, db, cs, k) {
      var c :| c in cs && HoldsCommit(kc, db, k, c.commit);
      KnownAfterScan(kc, db, listing, cs, order, c, k);
    } else {
      ScanOutputs(kc, db, listing, cs, order);
      MissingLaw(kc, db, listing, cs);
      FindIff(kc, db, listing, m);
      RestoredCommit(kc, db, after, m);
      assert !HoldsCommit(kc, db, k, m.commit);
    }
  }

  // ---------- A second scan ----------

  lemma {:induction false} NothingMissing(kc: Keychain, db: Db, listing: seq<OutKey>, cs: seq<ChainOut>)
    requires forall c | c in cs :: Find(kc, db, listing, c).Some? && !HasStatus(kc, db, listing, c, Spent)
    ensures MissingOuts(kc, db, listing, cs) == [] && MatchedOuts(kc, db, listing, cs, Spent) == []
  {
    if cs != [] {
      var n := |cs| - 1;
      assert cs == cs[..n] + [cs[n]] && cs[n] in cs;
      forall c | c in cs[..n] ensures c in cs {}
      NothingMissing(kc, db, listing, cs[..n]);
    }
  }

  /** Once every output on chain has its live record, scanning again changes nothing: no output,
      no log entry, no counter, no account. */
  lemma RepairedIsFixpoint(kc: Keychain, db: Db, listing: seq<OutKey>, cs: seq<ChainOut>)
    requires Listing(db, listing) && forall c :: c in cs ==> OneLiveRecord(kc, db, c)
    ensures Scan(kc, db, listing, cs, false, []) == db
    ensures FoundParents(MissingOuts(kc, db, listing, cs)) == map[]
  {
    hide MissingOuts, MatchedOuts;
    forall c | c in cs ensures Find(kc, db, listing, c).Some? && !HasStatus(kc, db, listing, c, Spent) {
      assert OneLiveRecord(kc, db, c);
      FindIff(kc, db, listing, c);
      FindSound(kc, db, listing, c);
    }
    NothingMissing(kc, db, listing, cs);
  }

  /** Restoration conserves value: what the log gains in credit is what the restored outputs are
      worth, each under its own fresh confirmed entry. */
  lemma ScanConservesValue(kc: Keychain, db: Db, listing: seq<OutKey>, cs: seq<ChainOut>, order: seq<KeyId>)
    requires Scannable(kc, db, listing, cs)
    ensures var after, missing := Scan(kc, db, listing, cs, false, order), MissingOuts(kc, db, listing, cs);
      && TotalCredited(after.log) == TotalCredited(db.log) + SumBy(missing, ValueOf)
      && (forall c :: c in missing ==> RestoredBy(db, after, c))
      && (forall i, j :: 0 <= i < j < |missing| ==> EntryKey(after, missing[i]) != EntryKey(after, missing[j]))
  {
    hide RestoreAll, UnspendAll, RestoredBy, TotalCredited, FoundParents, UtxoSet;
    ScanOutputs(kc, db, listing, cs, order);
    var missing := MissingOuts(kc, db, listing, cs);
    var db1 := UnspendAll(db, MatchedOuts(kc, db, listing, cs, Spent));
    var db2 := RestoreAll(db1, missing);
    UnspendKeepsLog(db, MatchedOuts(kc, db, listing, cs, Spent));
    StillBelow(db, db1);
    MissingLaw(kc, db, listing, cs);
    MissingPositions(missing, cs);
    RestoredEach(db1, missing);
    RaiseLaw(db2, db2.accounts.Values, |db2.accounts|, FoundParents(missing), order);
    var after := Scan(kc, db, listing, cs, false, order);
    assert after.outputs == db2.outputs;
    forall i | 0 <= i < |missing| ensures EntryKey(after, missing[i]) == EntryKey(db2, missing[i]) {}
  }
}
