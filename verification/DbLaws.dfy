/** Closed forms of the folds in `DbSpec`: which records and log entries each of them touches. */
module DbLaws {
  import opened Wrappers
  import opened Sums
  import opened SlateTypes
  import opened DbSpec

  /** Every record lies under its own key. */
  ghost predicate WellKeyed(db: Db) {
    forall k :: k in db.outputs ==> KeyOf(db.outputs[k]) == k
  }

  ghost predicate UniqueCommits(kc: Keychain, db: Db) {
    forall j, k :: j in db.outputs && k in db.outputs ==>
      CommitOfRecord(kc, db.outputs[j]) == CommitOfRecord(kc, db.outputs[k]) ==> j == k
  }

  /** The listing names exactly the stored records. */
  ghost predicate Listing(db: Db, listing: seq<OutKey>) {
    forall k :: k in listing <==> k in db.outputs
  }

  /** Outputs of one UTXO set: commitments and positions are unique, and the child number is the
      last component of the key's path. */
  ghost predicate UtxoSet(cs: seq<ChainOut>) {
    && (forall i, j :: 0 <= i < j < |cs| ==> cs[i].commit != cs[j].commit && cs[i].mmrIndex != cs[j].mmrIndex)
    && (forall i :: 0 <= i < |cs| ==> cs[i].nChild == LastIndex(cs[i].keyId))
  }

  ghost predicate HoldsCommit(kc: Keychain, db: Db, k: OutKey, c: Commit) {
    k in db.outputs && CommitOfRecord(kc, db.outputs[k]) == c
  }

  ghost predicate Known(kc: Keychain, db: Db, c: ChainOut) {
    exists k :: HoldsCommit(kc, db, k, c.commit)
  }

  /** A record without a stored commitment stands for the one its key and value derive. */
  lemma HoldsCommitIff(kc: Keychain, db: Db, k: OutKey, c: Commit)
    ensures HoldsCommit(kc, db, k, c) <==>
      && k in db.outputs
      && var o := db.outputs[k];
        if o.commit.Some? then o.commit.value == c
        else c.value == o.value && c.blind == (kc.derive)(o.value, o.keyId)
  {
  }

  // ---------- Looking records up ----------

  lemma {:induction false} FindSound(kc: Keychain, db: Db, listing: seq<OutKey>, c: ChainOut)
    ensures match Find(kc, db, listing, c)
            case Some(k) => k in listing && HoldsCommit(kc, db, k, c.commit)
            case None => forall k | k in listing :: !HoldsCommit(kc, db, k, c.commit)
  {
    if listing != [] {
      FindSound(kc, db, listing[1..], c);
    }
  }

  lemma FindIff(kc: Keychain, db: Db, listing: seq<OutKey>, c: ChainOut)
    requires Listing(db, listing)
    ensures Find(kc, db, listing, c) == None <==> !Known(kc, db, c)
    ensures UniqueCommits(kc, db) ==> forall k :: HoldsCommit(kc, db, k, c.commit) ==>
            Find(kc, db, listing, c) == Some(k)
  {
    FindSound(kc, db, listing, c);
    forall k | HoldsCommit(kc, db, k, c.commit) ensures k in listing {}
  }

  lemma {:induction false} MissingLaw(kc: Keychain, db: Db, listing: seq<OutKey>, cs: seq<ChainOut>)
    ensures forall c :: c in MissingOuts(kc, db, listing, cs) <==> c in cs && Find(kc, db, listing, c) == None
    ensures UtxoSet(cs) ==> UtxoSet(MissingOuts(kc, db, listing, cs))
  {
    if cs != [] {
      var n := |cs| - 1;
      MissingLaw(kc, db, listing, cs[..n]);
      assert cs == cs[..n] + [cs[n]];
      var rest := MissingOuts(kc, db, listing, cs[..n]);
      if UtxoSet(cs) {
        assert UtxoSet(cs[..n]);
        forall i | 0 <= i < |rest| ensures rest[i].commit != cs[n].commit && rest[i].mmrIndex != cs[n].mmrIndex {
          assert rest[i] in cs[..n];
        }
      }
    }
  }

  lemma {:induction false} MatchedLaw(kc: Keychain, db: Db, listing: seq<OutKey>, cs: seq<ChainOut>,
                                      status: OutputStatus,
                                      o: OutputData)
    requires WellKeyed(db) && o in MatchedOuts(kc, db, listing, cs, status)
    ensures KeyOf(o) in db.outputs && db.outputs[KeyOf(o)] == o && o.status == status
    ensures exists c :: c in cs && Find(kc, db, listing, c) == Some(KeyOf(o))
  {
    var n := |cs| - 1;
    assert cs == cs[..n] + [cs[n]];
    if o in MatchedOuts(kc, db, listing, cs[..n], status) {
      MatchedLaw(kc, db, listing, cs[..n], status, o);
      var c :| c in cs[..n] && Find(kc, db, listing, c) == Some(KeyOf(o));
      assert c in cs;
    } else {
      assert Find(kc, db, listing, cs[n]) == Some(KeyOf(o));
    }
  }

  lemma {:induction false} MatchedComplete(kc: Keychain, db: Db, listing: seq<OutKey>, cs: seq<ChainOut>,
                                           status: OutputStatus, c: ChainOut)
    requires c in cs && HasStatus(kc, db, listing, c, status)
    ensures db.outputs[Find(kc, db, listing, c).value] in MatchedOuts(kc, db, listing, cs, status)
  {
    var n := |cs| - 1;
    assert cs == cs[..n] + [cs[n]];
    if c != cs[n] {
      MatchedComplete(kc, db, listing, cs[..n], status, c);
    }
  }

  // ---------- Un-spending ----------

  /** Same entries up to their type. */
  ghost predicate SameLogUpToType(a: map<LogKey, LogEntry>, b: map<LogKey, LogEntry>) {
    && a.Keys == b.Keys
    && forall k :: k in a ==> b[k] == a[k].(txType := b[k].txType)
  }

  ghost predicate SameCounters(a: Db, b: Db) {
    a.logIds == b.logIds && a.childIndex == b.childIndex && a.accounts == b.accounts && a.parent == b.parent
  }

  predicate Touches(os: seq<OutputData>, k: OutKey) {
    exists i | 0 <= i < |os| :: KeyOf(os[i]) == k
  }

  lemma CancelStep(db: Db, o: OutputData)
    ensures CancelLog(db, o).outputs == db.outputs
    ensures SameLogUpToType(db.log, CancelLog(db, o).log) && SameCounters(db, CancelLog(db, o))
  {
    var lk := LogKey(ParentPath(o.keyId), if o.txLogEntry.Some? then o.txLogEntry.value else 0);
    if o.txLogEntry.Some? && lk in db.log {
      Retyped(db.log, lk, Cancelled(db.log[lk].txType));
    }
  }

  lemma Retyped(log: map<LogKey, LogEntry>, lk: LogKey, t: TxType)
    requires lk in log
    ensures SameLogUpToType(log, log[lk := log[lk].(txType := t)])
  {
  }

  lemma UnspendStep(db: Db, o: OutputData)
    ensures Unspend(db, o).outputs == db.outputs[KeyOf(o) := o.(status := Unspent)]
    ensures SameLogUpToType(db.log, Unspend(db, o).log) && SameCounters(db, Unspend(db, o))
  {
    hide CancelLog, SameLogUpToType;
    CancelStep(db, o);
  }

  lemma {:induction false} UnspendKeepsLog(db: Db, os: seq<OutputData>)
    ensures SameLogUpToType(db.log, UnspendAll(db, os).log) && SameCounters(db, UnspendAll(db, os))
  {
    if os != [] {
      UnspendKeepsLog(db, os[..|os| - 1]);
      UnspendStep(UnspendAll(db, os[..|os| - 1]), os[|os| - 1]);
    }
  }

  lemma TouchesSnoc(os: seq<OutputData>, o: OutputData, k: OutKey)
    ensures Touches(os + [o], k) <==> Touches(os, k) || k == KeyOf(o)
  {
    var all := os + [o];
    if Touches(os, k) {
      var i :| 0 <= i < |os| && KeyOf(os[i]) == k;
      assert KeyOf(all[i]) == k;
    }
    if k == KeyOf(o) {
      assert KeyOf(all[|os|]) == k;
    }
  }

  /** The record under `k` afterwards. */
  function Unspent'(db: Db, os: seq<OutputData>, k: OutKey): OutputData
    requires k in db.outputs
  {
    if Touches(os, k) then db.outputs[k].(status := Unspent) else db.outputs[k]
  }

  /** The listed records are the stored ones. */
  ghost predicate Current(db: Db, os: seq<OutputData>) {
    forall i | 0 <= i < |os| :: KeyOf(os[i]) in db.outputs && db.outputs[KeyOf(os[i])] == os[i]
  }

  /** Exactly the listed records become unspent. */
  lemma {:induction false} UnspendLaw(db: Db, os: seq<OutputData>)
    requires Current(db, os)
    ensures UnspendAll(db, os).outputs.Keys == db.outputs.Keys
    ensures forall k :: k in db.outputs ==> UnspendAll(db, os).outputs[k] == Unspent'(db, os, k)
  {
    hide Touches, Unspend;
    if os == [] {
      forall k | k in db.outputs ensures !Touches(os, k) { NothingTouched(k); }
    } else {
      var n := |os| - 1;
      UnspendLaw(db, os[..n]);
      UnspendStep(UnspendAll(db, os[..n]), os[n]);
      assert os == os[..n] + [os[n]];
      forall k | k in db.outputs ensures UnspendAll(db, os).outputs[k] == Unspent'(db, os, k) {
        TouchesSnoc(os[..n], os[n], k);
      }
    }
  }

  lemma NothingTouched(k: OutKey)
    ensures !Touches([], k)
  {
  }

  // ---------- Restoring ----------

  ghost function TotalCredited(log: map<LogKey, LogEntry>): int {
    if log == map[] then 0 else
      var k :| k in log;
      log[k].credited + TotalCredited(log - {k})
  }

  lemma {:induction false} TotalRemove(log: map<LogKey, LogEntry>, k: LogKey)
    requires k in log
    ensures TotalCredited(log) == log[k].credited + TotalCredited(log - {k})
    decreases |log|
  {
    var j :| j in log && TotalCredited(log) == log[j].credited + TotalCredited(log - {j});
    if j != k {
      TotalRemove(log - {j}, k);
      TotalRemove(log - {k}, j);
      assert log - {j} - {k} == log - {k} - {j};
    }
  }

  lemma TotalInsert(log: map<LogKey, LogEntry>, k: LogKey, e: LogEntry)
    requires k !in log
    ensures TotalCredited(log[k := e]) == TotalCredited(log) + e.credited
  {
    TotalRemove(log[k := e], k);
    assert log[k := e] - {k} == log;
  }

  lemma {:induction false} TotalUpToType(a: map<LogKey, LogEntry>, b: map<LogKey, LogEntry>)
    requires SameLogUpToType(a, b)
    ensures TotalCredited(a) == TotalCredited(b)
    decreases |a|
  {
    if a != map[] {
      var k :| k in a;
      TotalRemove(a, k);
      TotalRemove(b, k);
      TotalUpToType(a - {k}, b - {k});
    } else {
      assert b == map[];
    }
  }

  /** The id counter of every parent exceeds every id its log uses. */
  ghost predicate LogIdsBelow(db: Db) {
    forall k :: k in db.log ==> k.id < Get(db.logIds, k.parent)
  }

  function ValueOf(c: ChainOut): int { c.value }

  /** `c` has been restored: an unspent record that points to a confirmed entry crediting
      exactly its value, an entry the log did not have before. */
  ghost predicate RestoredBy(before: Db, after: Db, c: ChainOut) {
    && KeyOfOut(c) in after.outputs
    && after.outputs[KeyOfOut(c)].txLogEntry.Some?
    && var id := after.outputs[KeyOfOut(c)].txLogEntry.value;
       && after.outputs[KeyOfOut(c)] == RestoredOutput(c, id)
       && EntryKey(after, c) !in before.log
       && EntryKey(after, c) in after.log && after.log[EntryKey(after, c)] == RestoredEntry(c, id)
  }

  /** The log key a restored record points to. */
  ghost function EntryKey(db: Db, c: ChainOut): LogKey {
    if KeyOfOut(c) in db.outputs && db.outputs[KeyOfOut(c)].txLogEntry.Some?
    then LogKey(ParentPath(c.keyId), db.outputs[KeyOfOut(c)].txLogEntry.value)
    else LogKey([], 0)
  }

  ghost predicate RestoresKey(cs: seq<ChainOut>, k: OutKey) {
    exists i | 0 <= i < |cs| :: KeyOfOut(cs[i]) == k
  }

  /** One more output restored: its record, its entry, and nothing else. */
  lemma RestoreOneLaw(db: Db, c: ChainOut)
    requires LogIdsBelow(db)
    ensures var after := RestoreOne(db, c);
      var id := Get(db.logIds, ParentPath(c.keyId));
      var lk := LogKey(ParentPath(c.keyId), id);
      && lk !in db.log
      && after == db.(outputs := db.outputs[KeyOfOut(c) := RestoredOutput(c, id)],
                      log := db.log[lk := RestoredEntry(c, id)],
                      logIds := db.logIds[ParentPath(c.keyId) := id + 1])
      && LogIdsBelow(after)
      && TotalCredited(after.log) == TotalCredited(db.log) + c.value
  {
    var id := Get(db.logIds, ParentPath(c.keyId));
    var lk := LogKey(ParentPath(c.keyId), id);
    assert lk !in db.log;
    TotalInsert(db.log, lk, RestoredEntry(c, id));
  }

  lemma RestoresSnoc(cs: seq<ChainOut>, c: ChainOut, k: OutKey)
    ensures RestoresKey(cs + [c], k) <==> RestoresKey(cs, k) || k == KeyOfOut(c)
  {
    var all := cs + [c];
    if RestoresKey(cs, k) {
      var i :| 0 <= i < |cs| && KeyOfOut(cs[i]) == k;
      assert KeyOfOut(all[i]) == k;
    }
    if k == KeyOfOut(c) {
      assert KeyOfOut(all[|cs|]) == k;
    }
  }

  /** Restoring keeps the log consistent, credits exactly the values restored, and touches no
      other counter. */
  lemma {:induction false} RestoreKeepsLog(db: Db, cs: seq<ChainOut>)
    requires LogIdsBelow(db)
    ensures var after := RestoreAll(db, cs);
      && (forall k :: k in db.log ==> k in after.log && after.log[k] == db.log[k])
      && after.childIndex == db.childIndex && after.accounts == db.accounts && after.parent == db.parent
      && LogIdsBelow(after)
      && TotalCredited(after.log) == TotalCredited(db.log) + SumBy(cs, ValueOf)
  {
    hide LogIdsBelow, RestoreOne, TotalCredited;
    if cs != [] {
      var n := |cs| - 1;
      RestoreKeepsLog(db, cs[..n]);
      RestoreOneLaw(RestoreAll(db, cs[..n]), cs[n]);
      assert cs == cs[..n] + [cs[n]];
      SumBySnoc(cs[..n], cs[n], ValueOf);
    }
  }

  /** Only the keys of the restored outputs are written. */
  lemma {:induction false} RestoreLaw(db: Db, cs: seq<ChainOut>)
    requires LogIdsBelow(db)
    ensures forall k :: k in RestoreAll(db, cs).outputs <==> k in db.outputs || RestoresKey(cs, k)
    ensures forall k :: k in db.outputs && !RestoresKey(cs, k) ==> RestoreAll(db, cs).outputs[k] == db.outputs[k]
  {
    hide LogIdsBelow, RestoreOne, TotalCredited, RestoresKey;
    if cs == [] {
      forall k ensures !RestoresKey(cs, k) { NothingRestored(k); }
    } else {
      var n := |cs| - 1;
      RestoreLaw(db, cs[..n]);
      RestoreKeepsLog(db, cs[..n]);
      RestoreOneLaw(RestoreAll(db, cs[..n]), cs[n]);
      assert cs == cs[..n] + [cs[n]];
      forall k ensures RestoresKey(cs, k) <==> RestoresKey(cs[..n], k) || k == KeyOfOut(cs[n]) {
        RestoresSnoc(cs[..n], cs[n], k);
      }
    }
  }

  lemma NothingRestored(k: OutKey)
    ensures !RestoresKey([], k)
  {
  }

  lemma RestoredStays(db: Db, mid: Db, c: ChainOut, d: ChainOut)
    requires LogIdsBelow(mid) && RestoredBy(db, mid, c) && c.mmrIndex != d.mmrIndex
    ensures RestoredBy(db, RestoreOne(mid, d), c)
    ensures EntryKey(RestoreOne(mid, d), c) == EntryKey(mid, c)
    ensures EntryKey(RestoreOne(mid, d), c) != EntryKey(RestoreOne(mid, d), d)
  {
    RestoreOneLaw(mid, d);
  }

  /** Each output restored gets its own record and its own fresh entry. */
  lemma {:induction false} RestoredEach(db: Db, cs: seq<ChainOut>)
    requires LogIdsBelow(db)
    requires forall i, j :: 0 <= i < j < |cs| ==> cs[i].mmrIndex != cs[j].mmrIndex
    ensures forall i | 0 <= i < |cs| :: RestoredBy(db, RestoreAll(db, cs), cs[i])
    ensures forall i, j | 0 <= i < j < |cs| ::
            EntryKey(RestoreAll(db, cs), cs[i]) != EntryKey(RestoreAll(db, cs), cs[j])
  {
    hide LogIdsBelow, RestoreOne, TotalCredited, RestoredBy, EntryKey;
    if cs != [] {
      var n := |cs| - 1;
      RestoredEach(db, cs[..n]);
      RestoreKeepsLog(db, cs[..n]);
      var before := RestoreAll(db, cs[..n]);
      forall i | 0 <= i < n
        ensures RestoredBy(db, RestoreAll(db, cs), cs[i])
                && EntryKey(RestoreAll(db, cs), cs[i]) == EntryKey(before, cs[i])
        ensures EntryKey(RestoreAll(db, cs), cs[i]) != EntryKey(RestoreAll(db, cs), cs[n])
      {
        assert cs[..n][i] == cs[i];
        RestoredStays(db, before, cs[i], cs[n]);
      }
      JustRestored(db, before, cs[n]);
      forall i, j | 0 <= i < j < |cs|
        ensures EntryKey(RestoreAll(db, cs), cs[i]) != EntryKey(RestoreAll(db, cs), cs[j]) {
        if j < n { assert cs[..n][i] == cs[i] && cs[..n][j] == cs[j]; }
      }
    }
  }

  lemma JustRestored(db: Db, mid: Db, c: ChainOut)
    requires LogIdsBelow(mid) && forall k :: k in db.log ==> k in mid.log
    ensures RestoredBy(db, RestoreOne(mid, c), c)
  {
    RestoreOneLaw(mid, c);
  }
}
