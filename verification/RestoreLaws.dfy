/** What a scan writes about the outputs it restores, which transactions it cancels, and what the records are
    worth afterwards. */
module RestoreLaws {
  import opened Wrappers
  import opened Sums
  import opened SlateTypes
  import opened DbSpec
  import opened DbLaws
  import opened ScanLaws
  import opened DestructiveScan
  import opened KeyFreshness

  // ---------- Cancelled transactions ----------

  /** The record names this entry of its parent's log. */
  predicate PointsTo(o: OutputData, lk: LogKey) {
    o.txLogEntry.Some? && lk == LogKey(ParentPath(o.keyId), o.txLogEntry.value)
  }

  /** Sent and received transactions become cancelled ones, and only if they are to be. */
  predicate CancelledIf(before: TxType, after: TxType, cancelled: bool) {
    after == if cancelled && before == TxSent then TxSentCancelled
             else if cancelled && before == TxReceived then TxReceivedCancelled
             else before
  }

  ghost predicate Cancels(os: seq<OutputData>, lk: LogKey) {
    exists i | 0 <= i < |os| :: PointsTo(os[i], lk)
  }

  lemma CancelsSnoc(os: seq<OutputData>, o: OutputData, lk: LogKey)
    ensures Cancels(os + [o], lk) <==> Cancels(os, lk) || PointsTo(o, lk)
  {
    var all := os + [o];
    if Cancels(os, lk) {
      var i :| 0 <= i < |os| && PointsTo(os[i], lk);
      assert PointsTo(all[i], lk);
    }
    if PointsTo(o, lk) { assert PointsTo(all[|os|], lk); }
  }

  /** An entry after some cancellations: the same but for its type. */
  ghost predicate EntryAfter(a: map<LogKey, LogEntry>, b: map<LogKey, LogEntry>, lk: LogKey, cancelled: bool) {
    lk in a ==> lk in b && b[lk] == a[lk].(txType := b[lk].txType) && CancelledIf(a[lk].txType, b[lk].txType, cancelled)
  }

  lemma CancelOne(db: Db, o: OutputData, lk: LogKey)
    ensures EntryAfter(db.log, CancelLog(db, o).log, lk, PointsTo(o, lk))
  {
  }

  lemma CancelTwice(a: map<LogKey, LogEntry>, b: map<LogKey, LogEntry>, c: map<LogKey, LogEntry>, lk: LogKey, p: bool,
                    q: bool)
    requires EntryAfter(a, b, lk, p) && EntryAfter(b, c, lk, q)
    ensures EntryAfter(a, c, lk, p || q)
  {
  }

  lemma {:induction false} UnspendEntry(db: Db, os: seq<OutputData>, lk: LogKey)
    ensures EntryAfter(db.log, UnspendAll(db, os).log, lk, Cancels(os, lk))
  {
    hide Cancels, EntryAfter, CancelLog;
    if os == [] {
      NothingCancelled(db.log, lk);
    } else {
      var n := |os| - 1;
      var mid := UnspendAll(db, os[..n]);
      UnspendEntry(db, os[..n], lk);
      CancelOne(mid, os[n], lk);
      assert os == os[..n] + [os[n]];
      CancelsSnoc(os[..n], os[n], lk);
      CancelTwice(db.log, mid.log, UnspendAll(db, os).log, lk, Cancels(os[..n], lk), PointsTo(os[n], lk));
    }
  }

  lemma {:induction false} DeleteEntry(db: Db, os: seq<OutputData>, lk: LogKey)
    ensures EntryAfter(db.log, DeleteAll(db, os).log, lk, Cancels(os, lk))
  {
    hide Cancels, EntryAfter, CancelLog;
    if os == [] {
      NothingCancelled(db.log, lk);
    } else {
      var n := |os| - 1;
      var mid := DeleteAll(db, os[..n]);
      DeleteEntry(db, os[..n], lk);
      CancelOne(mid, os[n], lk);
      assert os == os[..n] + [os[n]];
      CancelsSnoc(os[..n], os[n], lk);
      CancelTwice(db.log, mid.log, DeleteAll(db, os).log, lk, Cancels(os[..n], lk), PointsTo(os[n], lk));
    }
  }

  lemma NothingCancelled(log: map<LogKey, LogEntry>, lk: LogKey)
    ensures EntryAfter(log, log, lk, Cancels([], lk))
  {
  }

  lemma CancelsIff(db: Db, os: seq<OutputData>, lk: LogKey)
    requires Current(db, os)
    ensures Cancels(os, lk) <==> exists k :: k in db.outputs && Touches(os, k) && PointsTo(db.outputs[k], lk)
  {
    if Cancels(os, lk) {
      var i :| 0 <= i < |os| && PointsTo(os[i], lk);
      assert Touches(os, KeyOf(os[i]));
    }
    if k :| k in db.outputs && Touches(os, k) && PointsTo(db.outputs[k], lk) {
      var i :| 0 <= i < |os| && KeyOf(os[i]) == k;
      assert PointsTo(os[i], lk);
    }
  }

  lemma {:induction false} UnconfirmedCurrent(db: Db, listing: seq<OutKey>)
    requires WellKeyed(db)
    ensures Current(db, UnconfirmedOuts(db, listing))
  {
    if listing != [] { UnconfirmedCurrent(db, listing[..|listing| - 1]); }
  }

  /** A record given up by a scan that also unlocks and deletes: locked though its output is on chain, or
      unconfirmed. */
  ghost predicate Dropped(kc: Keychain, db: Db, cs: seq<ChainOut>, k: OutKey) {
    k in db.outputs
    && ((db.outputs[k].status == Locked && OnChain(kc, db, cs, k)) || db.outputs[k].status == Unconfirmed)
  }

  /** Some record whose transaction the scan cancels names this entry. */
  ghost predicate Condemned(kc: Keychain, db: Db, cs: seq<ChainOut>, delete: bool, lk: LogKey) {
    exists k :: k in db.outputs && PointsTo(db.outputs[k], lk)
                && (WronglySpent(kc, db, cs, k) || (delete && Dropped(kc, db, cs, k)))
  }

  ghost predicate CondemnedLate(kc: Keychain, db: Db, cs: seq<ChainOut>, lk: LogKey) {
    exists k :: k in db.outputs && PointsTo(db.outputs[k], lk) && Dropped(kc, db, cs, k)
  }

  lemma SpentCancels(kc: Keychain, db: Db, listing: seq<OutKey>, cs: seq<ChainOut>, lk: LogKey)
    requires Scannable(kc, db, listing, cs)
    ensures Cancels(MatchedOuts(kc, db, listing, cs, Spent), lk) <==> Condemned(kc, db, cs, false, lk)
  {
    hide UtxoSet, MatchedOuts, PointsTo, WronglySpent, Touches, Cancels, Scannable;
    SpentOnes(kc, db, listing, cs);
    CancelsIff(db, MatchedOuts(kc, db, listing, cs, Spent), lk);
  }

  lemma DroppedCancels(kc: Keychain, db: Db, listing: seq<OutKey>, cs: seq<ChainOut>, lk: LogKey)
    requires Scannable(kc, db, listing, cs)
    ensures Cancels(MatchedOuts(kc, db, listing, cs, Locked), lk) || Cancels(UnconfirmedOuts(db, listing), lk)
       <==> CondemnedLate(kc, db, cs, lk)
  {
    hide UtxoSet, MatchedOuts, UnconfirmedOuts, PointsTo, Touches, Cancels, OnChain;
    LockedOnes(kc, db, listing, cs);
    CancelsIff(db, MatchedOuts(kc, db, listing, cs, Locked), lk);
    UnconfirmedCurrent(db, listing);
    CancelsIff(db, UnconfirmedOuts(db, listing), lk);
    forall k ensures Touches(UnconfirmedOuts(db, listing), k) <==>
        k in db.outputs && db.outputs[k].status == Unconfirmed {
      UnconfirmedLaw(db, listing, k);
    }
  }

  /** The log before the scan's last part, which does not touch it. */
  lemma LateEntries(kc: Keychain, db: Db, listing: seq<OutKey>, cs: seq<ChainOut>, delete: bool, order: seq<KeyId>,
                    lk: LogKey)
    requires Scannable(kc, db, listing, cs)
    ensures var restored := BeforeRaise(kc, db, listing, cs, false);
      EntryAfter(restored.log, Scan(kc, db, listing, cs, delete, order).log, lk, delete
          && CondemnedLate(kc, db, cs, lk))
  {
    hide UnspendAll, DeleteAll, RestoreAll, RaiseAll, MatchedOuts, MissingOuts, UnconfirmedOuts, FoundParents,
         Scannable,
         CondemnedLate, EntryAfter, Cancels, Scan;
    var restored, mid := BeforeRaise(kc, db, listing, cs, false), BeforeRaise(kc, db, listing, cs, delete);
    ScanIsRaise(kc, db, listing, cs, delete, order);
    RaiseLaw(mid, mid.accounts.Values, |mid.accounts|, FoundParents(MissingOuts(kc, db, listing, cs)), order);
    if delete {
      var locked, gone := MatchedOuts(kc, db, listing, cs, Locked), UnconfirmedOuts(db, listing);
      UnspendEntry(restored, locked, lk);
      DeleteEntry(UnspendAll(restored, locked), gone, lk);
      CancelTwice(restored.log, UnspendAll(restored, locked).log, mid.log, lk, Cancels(locked, lk), Cancels(gone, lk));
      DroppedCancels(kc, db, listing, cs, lk);
    } else {
      SameEntry(restored.log, lk);
    }
  }

  lemma SameEntry(log: map<LogKey, LogEntry>, lk: LogKey)
    ensures EntryAfter(log, log, lk, false)
  {
  }

  /** Every entry the log had is still there and says the same, but that sent and received transactions
      are cancelled exactly when a record the scan un-spends, unlocks or deletes names them. */
  lemma ScanCancels(kc: Keychain, db: Db, listing: seq<OutKey>, cs: seq<ChainOut>, delete: bool, order: seq<KeyId>,
                    lk: LogKey)
    requires Scannable(kc, db, listing, cs) && lk in db.log
    ensures EntryAfter(db.log, Scan(kc, db, listing, cs, delete, order).log, lk, Condemned(kc, db, cs, delete, lk))
  {
    hide UnspendAll, RestoreAll, MatchedOuts, MissingOuts, CancelledIf, Scan, EntryAfter, PointsTo, WronglySpent,
         Dropped,
         Cancels;
    var spent := MatchedOuts(kc, db, listing, cs, Spent);
    var db1, restored := UnspendAll(db, spent), BeforeRaise(kc, db, listing, cs, false);
    var after := Scan(kc, db, listing, cs, delete, order);
    UnspendEntry(db, spent, lk);
    SpentCancels(kc, db, listing, cs, lk);
    UnspendKeepsLog(db, spent);
    StillBelow(db, db1);
    RestoreKeepsLog(db1, MissingOuts(kc, db, listing, cs));
    SameEntryThrough(db.log, db1.log, restored.log, lk, Cancels(spent, lk));
    LateEntries(kc, db, listing, cs, delete, order, lk);
    CancelTwice(db.log, restored.log, after.log, lk, Cancels(spent, lk), delete && CondemnedLate(kc, db, cs, lk));
  }

  lemma SameEntryThrough(a: map<LogKey, LogEntry>, b: map<LogKey, LogEntry>, c: map<LogKey, LogEntry>, lk: LogKey,
                         p: bool)
    requires EntryAfter(a, b, lk, p) && lk in a && lk in c && b.Keys == a.Keys && c[lk] == b[lk]
    ensures EntryAfter(a, c, lk, p)
  {
  }

  // ---------- Restored outputs ----------

  /** The record says of the output what the chain says. */
  predicate Describes(o: OutputData, c: ChainOut) {
    && o.keyId == c.keyId && o.rootKeyId == ParentPath(c.keyId) && o.nChild == c.nChild
    && o.commit == Some(c.commit) && o.mmrIndex == Some(c.mmrIndex) && o.value == c.value
    && o.height == c.height && o.lockHeight == c.lockHeight && o.isCoinbase == c.isCoinbase && o.status == Unspent
  }

  /** A confirmed transaction that brought exactly this output. */
  predicate Credits(e: LogEntry, c: ChainOut) {
    && e.parent == ParentPath(c.keyId) && e.confirmed && e.credited == c.value && e.debited == 0 && e.numOutputs == 1
  }

  lemma {:induction false} UnspendOthers(db: Db, os: seq<OutputData>, k: OutKey)
    requires !Touches(os, k)
    ensures k in UnspendAll(db, os).outputs <==> k in db.outputs
    ensures k in db.outputs ==> UnspendAll(db, os).outputs[k] == db.outputs[k]
  {
    hide Unspend, Touches;
    if os != [] {
      var n := |os| - 1;
      assert os == os[..n] + [os[n]];
      TouchesSnoc(os[..n], os[n], k);
      UnspendOthers(db, os[..n], k);
      UnspendStep(UnspendAll(db, os[..n]), os[n]);
    }
  }

  lemma NotTouched(kc: Keychain, db: Db, listing: seq<OutKey>, cs: seq<ChainOut>, k: OutKey)
    requires Scannable(kc, db, listing, cs) && !Dropped(kc, db, cs, k)
    ensures !Touches(MatchedOuts(kc, db, listing, cs, Locked), k) && !Touches(UnconfirmedOuts(db, listing), k)
  {
    hide MatchedOuts, UnconfirmedOuts, OnChain, UtxoSet;
    var locked := MatchedOuts(kc, db, listing, cs, Locked);
    LockedOnes(kc, db, listing, cs);
    UnconfirmedLaw(db, listing, k);
  }

  /** What a scan's last part does not drop stays as restoring left it. */
  lemma LateRecords(kc: Keychain, db: Db, listing: seq<OutKey>, cs: seq<ChainOut>, delete: bool, order: seq<KeyId>,
                    k: OutKey)
    requires Scannable(kc, db, listing, cs) && (delete ==> !Dropped(kc, db, cs, k))
    ensures var restored, after := BeforeRaise(kc, db, listing, cs, false), Scan(kc, db, listing, cs, delete, order);
      (k in after.outputs <==> k in restored.outputs)
      && (k in restored.outputs ==> after.outputs[k] == restored.outputs[k])
  {
    hide UnspendAll, DeleteAll, RestoreAll, RaiseAll, MatchedOuts, MissingOuts, UnconfirmedOuts, FoundParents,
         Scannable,
         Scan, Dropped, Touches;
    var restored, mid := BeforeRaise(kc, db, listing, cs, false), BeforeRaise(kc, db, listing, cs, delete);
    ScanIsRaise(kc, db, listing, cs, delete, order);
    RaiseLaw(mid, mid.accounts.Values, |mid.accounts|, FoundParents(MissingOuts(kc, db, listing, cs)), order);
    if delete {
      NotTouched(kc, db, listing, cs, k);
      UnspendOthers(restored, MatchedOuts(kc, db, listing, cs, Locked), k);
      DeleteLaw(UnspendAll(restored, MatchedOuts(kc, db, listing, cs, Locked)), UnconfirmedOuts(db, listing));
    }
  }

  /** An unknown output as restoring leaves it. */
  lemma JustAfterRestoring(kc: Keychain, db: Db, listing: seq<OutKey>, cs: seq<ChainOut>, c: ChainOut)
    requires Scannable(kc, db, listing, cs) && c in cs && !Known(kc, db, c)
    ensures var mid, k := BeforeRaise(kc, db, listing, cs, false), OutKey(c.keyId, Some(c.mmrIndex));
      && k in mid.outputs && Describes(mid.outputs[k], c) && mid.outputs[k].txLogEntry.Some?
      && var lk := LogKey(ParentPath(c.keyId), mid.outputs[k].txLogEntry.value);
        && lk !in db.log && lk in mid.log && Credits(mid.log[lk], c) && mid.log[lk].id == lk.id
        && mid.log[lk].txType == if c.isCoinbase then ConfirmedCoinbase else TxReceived
  {
    hide Scan, BeforeRaise, MissingOuts, Known, UtxoSet;
    ScanIsRaise(kc, db, listing, cs, false, []);
    ScanOutputs(kc, db, listing, cs, []);
    MissingLaw(kc, db, listing, cs);
    FindIff(kc, db, listing, c);
    assert RestoredBy(db, BeforeRaise(kc, db, listing, cs, false), c);
  }

  /** An output on chain without a record gets one that describes it, and a log entry of its own that credits
      it, in either mode. Only if the scan drops a record under the same key and position is the new one
      lost, and only if it drops one that names an entry not written yet is that entry cancelled. */
  lemma ScanRestores(kc: Keychain, db: Db, listing: seq<OutKey>, cs: seq<ChainOut>, delete: bool, order: seq<KeyId>,
                     c: ChainOut)
    requires Scannable(kc, db, listing, cs) && c in cs && !Known(kc, db, c)
    requires delete ==> !Dropped(kc, db, cs, OutKey(c.keyId, Some(c.mmrIndex)))
    ensures var after, k := Scan(kc, db, listing, cs, delete, order), OutKey(c.keyId, Some(c.mmrIndex));
      && k in after.outputs && Describes(after.outputs[k], c) && after.outputs[k].txLogEntry.Some?
      && var lk := LogKey(ParentPath(c.keyId), after.outputs[k].txLogEntry.value);
        && lk !in db.log && lk in after.log && Credits(after.log[lk], c) && after.log[lk].id == lk.id
        && CancelledIf(if c.isCoinbase then ConfirmedCoinbase else TxReceived, after.log[lk].txType,
                       delete && CondemnedLate(kc, db, cs, lk))
  {
    hide Scan, BeforeRaise, Scannable, Known, Dropped, CondemnedLate, Describes;
    var k := OutKey(c.keyId, Some(c.mmrIndex));
    JustAfterRestoring(kc, db, listing, cs, c);
    LateRecords(kc, db, listing, cs, delete, order, k);
    var mid := BeforeRaise(kc, db, listing, cs, false);
    LateEntries(kc, db, listing, cs, delete, order, LogKey(ParentPath(c.keyId), mid.outputs[k].txLogEntry.value));
  }

  /** Child indices go up exactly past what was unknown: to one more than the largest such child number under
      the parent, or not at all. */
  lemma ScanRaises(kc: Keychain, db: Db, listing: seq<OutKey>, cs: seq<ChainOut>, delete: bool, order: seq<KeyId>,
                   p: KeyId)
    requires WellKeyed(db) && LogIdsBelow(db) && Listing(db, listing)
    requires forall q :: q in order <==> q in FoundParents(MissingOuts(kc, db, listing, cs))
    ensures var before, after := Get(db.childIndex, p), Get(Scan(kc, db, listing, cs, delete, order).childIndex, p);
      && before <= after
      && (forall c :: c in cs && !Known(kc, db, c) && ParentPath(c.keyId) == p ==> c.nChild < after)
      && (after == before
          || exists c :: c in cs && !Known(kc, db, c) && ParentPath(c.keyId) == p && after == c.nChild + 1)
  {
    hide Scan, BeforeRaise, WellKeyed, LogIdsBelow, Known, MissingOuts, FoundParents, RestoresKey;
    var missing, mid := MissingOuts(kc, db, listing, cs), BeforeRaise(kc, db, listing, cs, delete);
    ScanIsRaise(kc, db, listing, cs, delete, order);
    BeforeRaiseKeeps(kc, db, listing, cs, delete);
    RaiseLaw(mid, mid.accounts.Values, |mid.accounts|, FoundParents(missing), order);
    FoundExactly(missing, p);
    MissingLaw(kc, db, listing, cs);
    forall c ensures c in missing <==> c in cs && !Known(kc, db, c) { FindIff(kc, db, listing, c); }
  }

  // ---------- What the records are worth ----------

  function ValueAt(db: Db): OutKey -> int {
    (k: OutKey) => if k in db.outputs then db.outputs[k].value else 0
  }

  ghost function Worth(db: Db): int { SumSet(db.outputs.Keys, ValueAt(db)) }

  ghost function UnknownOuts(kc: Keychain, db: Db, cs: seq<ChainOut>): set<ChainOut> {
    set c | c in cs && !Known(kc, db, c)
  }

  lemma {:induction false} SumSetSame<T>(s: set<T>, f: T -> int, g: T -> int)
    requires forall x :: x in s ==> f(x) == g(x)
    ensures SumSet(s, f) == SumSet(s, g)
  {
    if s != {} {
      var x :| x in s;
      SumSetRemove(s, x, f);
      SumSetRemove(s, x, g);
      SumSetSame(s - {x}, f, g);
    }
  }

  lemma {:induction false} SumSetUnion<T>(s: set<T>, t: set<T>, f: T -> int)
    requires s !! t
    ensures SumSet(s + t, f) == SumSet(s, f) + SumSet(t, f)
  {
    if t == {} {
      assert s + t == s;
    } else {
      var x :| x in t;
      SumSetUnion(s, t - {x}, f);
      assert s + t - {x} == s + (t - {x});
      SumSetRemove(s + t, x, f);
      SumSetRemove(t, x, f);
    }
  }

  /** The keys of unknown outputs, one for each. */
  lemma UnknownKeys(kc: Keychain, db: Db, listing: seq<OutKey>, cs: seq<ChainOut>, f: OutKey -> int)
    requires Scannable(kc, db, listing, cs)
    requires forall c :: c in cs && !Known(kc, db, c) ==> f(KeyOfOut(c)) == c.value
    ensures var keys := set c | c in UnknownOuts(kc, db, cs) :: KeyOfOut(c);
      SumSet(keys, f) == SumSet(UnknownOuts(kc, db, cs), ValueOf)
  {
    hide Known, SumSet;
    var missing := MissingOuts(kc, db, listing, cs);
    MissingLaw(kc, db, listing, cs);
    forall c ensures c in missing <==> c in UnknownOuts(kc, db, cs) {
      if c in cs { FindIff(kc, db, listing, c); }
    }
    hide MissingOuts, UnknownOuts;
    var self := (c: ChainOut) => c;
    var key := (c: ChainOut) => KeyOfOut(c);
    SumImage(missing, key, f, ValueOf);
    SumImage(missing, self, ValueOf, ValueOf);
    assert Image(missing, self) == UnknownOuts(kc, db, cs);
    assert Image(missing, key) == (set c | c in UnknownOuts(kc, db, cs) :: KeyOfOut(c));
  }

  /** Without clashes the records gain exactly the worth of the outputs that were unknown, and lose exactly
      that of the unconfirmed records deleted. */
  lemma ScanConservesWorth(kc: Keychain, db: Db, listing: seq<OutKey>, cs: seq<ChainOut>, delete: bool,
                           order: seq<KeyId>)
    requires Scannable(kc, db, listing, cs) && NoClash(kc, db, cs)
    ensures var gone := set k | k in db.outputs && delete && db.outputs[k].status == Unconfirmed;
      Worth(Scan(kc, db, listing, cs, delete, order)) + SumSet(gone, ValueAt(db))
      == Worth(db) + SumSet(UnknownOuts(kc, db, cs), ValueOf)
  {
    hide Scan, SumSet, Known, Scannable;
    var after := Scan(kc, db, listing, cs, delete, order);
    var gone := set k | k in db.outputs && delete && db.outputs[k].status == Unconfirmed;
    var kept, new_ := db.outputs.Keys - gone, set c | c in UnknownOuts(kc, db, cs) :: KeyOfOut(c);
    ScannedKeys(kc, db, listing, cs, delete, order);
    assert after.outputs.Keys == kept + new_;
    SumSetUnion(kept, new_, ValueAt(after));
    SumSetSame(kept, ValueAt(after), ValueAt(db));
    SumSetUnion(kept, gone, ValueAt(db));
    assert kept + gone == db.outputs.Keys;
    UnknownKeys(kc, db, listing, cs, ValueAt(after));
  }

  /** Key by key, in either mode. */
  lemma ScannedKeys(kc: Keychain, db: Db, listing: seq<OutKey>, cs: seq<ChainOut>, delete: bool, order: seq<KeyId>)
    requires Scannable(kc, db, listing, cs) && NoClash(kc, db, cs)
    ensures var after, unknown := Scan(kc, db, listing, cs, delete, order), UnknownOuts(kc, db, cs);
      && (forall k :: k in db.outputs ==> (k in after.outputs <==> !(delete && db.outputs[k].status == Unconfirmed)))
      && (forall k :: k in db.outputs && k in after.outputs ==> after.outputs[k].value == db.outputs[k].value)
      && (forall c :: c in unknown ==> KeyOfOut(c) !in db.outputs)
      && (forall c :: c in unknown ==> KeyOfOut(c) in after.outputs && after.outputs[KeyOfOut(c)].value == c.value)
      && (forall k :: k in after.outputs && k !in db.outputs ==> exists c :: c in unknown && KeyOfOut(c) == k)
  {
    hide Scan, Known, Scannable, NoClash;
    var after, unknown := Scan(kc, db, listing, cs, delete, order), UnknownOuts(kc, db, cs);
    forall k | k in db.outputs
      ensures k in after.outputs <==> !(delete && db.outputs[k].status == Unconfirmed)
      ensures k in after.outputs ==> after.outputs[k].value == db.outputs[k].value
    {
      if delete { DestructiveOutcome(kc, db, listing, cs, order, k); }
          else { KeptValue(kc, db, listing, cs, order, k); }
    }
    forall c | c in unknown
      ensures KeyOfOut(c) !in db.outputs
      ensures KeyOfOut(c) in after.outputs && after.outputs[KeyOfOut(c)].value == c.value
    {
      assert KeyOfOut(c) !in db.outputs by { assert NoClash(kc, db, cs); UnknownIsFree(kc, db, cs, c); }
      ScanRestores(kc, db, listing, cs, delete, order, c);
    }
    forall k | k in after.outputs && k !in db.outputs ensures exists c :: c in unknown && KeyOfOut(c) == k {
      LateRecords(kc, db, listing, cs, delete, order, k);
      NewRecord(kc, db, listing, cs, k);
    }
  }

  lemma UnknownIsFree(kc: Keychain, db: Db, cs: seq<ChainOut>, c: ChainOut)
    requires NoClash(kc, db, cs) && c in cs && !Known(kc, db, c)
    ensures KeyOfOut(c) !in db.outputs
  {
  }

  lemma KeptValue(kc: Keychain, db: Db, listing: seq<OutKey>, cs: seq<ChainOut>, order: seq<KeyId>, k: OutKey)
    requires Scannable(kc, db, listing, cs) && NoClash(kc, db, cs) && k in db.outputs
    ensures var after := Scan(kc, db, listing, cs, false, order);
      k in after.outputs && after.outputs[k].value == db.outputs[k].value
  {
    hide Scan, UtxoSet, Known, NoClash, MissingOuts;
    ScanOutputs(kc, db, listing, cs, order);
    NothingRestoredOver(kc, db, listing, cs);
  }

  lemma NewRecord(kc: Keychain, db: Db, listing: seq<OutKey>, cs: seq<ChainOut>, k: OutKey)
    requires Scannable(kc, db, listing, cs) && k in BeforeRaise(kc, db, listing, cs, false).outputs && k !in db.outputs
    ensures exists c :: c in UnknownOuts(kc, db, cs) && KeyOfOut(c) == k
  {
    hide Scan, BeforeRaise, MissingOuts, Known, UtxoSet;
    ScanIsRaise(kc, db, listing, cs, false, []);
    ScanOutputs(kc, db, listing, cs, []);
    MissingLaw(kc, db, listing, cs);
    var missing := MissingOuts(kc, db, listing, cs);
    var i :| 0 <= i < |missing| && KeyOfOut(missing[i]) == k;
    assert missing[i] in missing;
    FindIff(kc, db, listing, missing[i]);
  }
}
