/** Keys and log ids over whole runs of a wallet: no key is ever issued twice, none is the key of
    a stored output, and no new log entry overwrites an old one. */
module KeyFreshness {
  import opened Wrappers
  import opened Sums
  import opened SlateTypes
  import opened DbSpec
  import opened DbLaws
  import opened ScanLaws
  import opened DestructiveScan

  /** Child numbers are below their parent's index. */
  predicate Passed(db: Db, k: KeyId) {
    k != [] ==> LastIndex(k) < Get(db.childIndex, ParentPath(k))
  }

  /** A wallet together with every key it has issued so far. */
  datatype State = State(db: Db, issued: seq<KeyId>)

  /** No two labels name the same path. */
  ghost predicate PathsDistinct(accounts: map<string, KeyId>) {
    forall l, m :: l in accounts && m in accounts && l != m ==> accounts[l] != accounts[m]
  }

  ghost predicate Inv(s: State) {
    && WellKeyed(s.db)
    && PathsDistinct(s.db.accounts)
    && LogIdsBelow(s.db)
    && (forall k :: k in s.db.outputs ==> Passed(s.db, k.id))
    && (forall i :: 0 <= i < |s.issued| ==> s.issued[i] != [] && Passed(s.db, s.issued[i]))
    && (forall i, j :: 0 <= i < j < |s.issued| ==> s.issued[i] != s.issued[j])
  }

  const FRESH_DB := Db(map[], map[], map[], map[], map["default" := [0, 0]], [0, 0])

  // ---------- Steps ----------

  ghost predicate Switches(s: State, t: State) {
    exists p: KeyId :: t == Switched(s, p)
  }

  function Switched(s: State, p: KeyId): State { s.(db := s.db.(parent := p)) }

  ghost predicate AddsAccount(s: State, t: State) {
    exists name: string, highest: Option<KeyId> ::
      IsHighest(s.db.accounts.Values, highest) && NewAccount(s.db, name, highest) == Ok(t.db) && t.issued == s.issued
  }

  ghost predicate TakesChild(s: State, t: State) {
    t == State(NextChild(s.db).0, s.issued + [NextChild(s.db).1])
  }

  /** Writing a record of an issued key, or of a key that has a record already. */
  ghost predicate Records(s: State, t: State) {
    exists o: OutputData :: (o.keyId in s.issued || KeyOf(o) in s.db.outputs) && t == s.(db := Save(s.db, o))
  }

  ghost predicate Deletes(s: State, t: State) {
    exists o: OutputData :: t == s.(db := Delete(s.db, o))
  }

  /** A new log entry under the next id of its parent. */
  ghost predicate Logs(s: State, t: State) {
    exists parent: KeyId, e: LogEntry :: e.id == NextLogId(s.db, parent).1 && t == Logged(s, parent, e)
  }

  function Logged(s: State, parent: KeyId, e: LogEntry): State {
    s.(db := SaveLog(NextLogId(s.db, parent).0, parent, e))
  }

  /** Rewriting an entry the log has. */
  ghost predicate Relogs(s: State, t: State) {
    exists parent: KeyId, e: LogEntry :: LogKey(parent, e.id) in s.db.log && t == s.(db := SaveLog(s.db, parent, e))
  }

  /** A completed scan, which visits every parent it restored something under. */
  ghost predicate Scans(kc: Keychain, s: State, t: State) {
    exists listing: seq<OutKey>, cs: seq<ChainOut>, delete: bool, order: seq<KeyId> ::
      && UtxoSet(cs) && Listing(s.db, listing)
      && Complete(kc, s.db, listing, cs, order)
      && t == s.(db := Scan(kc, s.db, listing, cs, delete, order))
  }

  ghost predicate Complete(kc: Keychain, db: Db, listing: seq<OutKey>, cs: seq<ChainOut>, order: seq<KeyId>) {
    Distinct(order) && forall p :: p in FoundParents(MissingOuts(kc, db, listing, cs)) ==> p in order
  }

  ghost predicate Next(kc: Keychain, s: State, t: State) {
    || Switches(s, t) || AddsAccount(s, t) || TakesChild(s, t) || Records(s, t) || Deletes(s, t)
    || Logs(s, t) || Relogs(s, t) || Scans(kc, s, t)
  }

  // ---------- The invariant ----------

  lemma NextChildPasses(s: State)
    requires Inv(s)
    ensures Inv(State(NextChild(s.db).0, s.issued + [NextChild(s.db).1]))
  {
    var (db, key) := NextChild(s.db);
    NextChildFresh(s);
    assert ParentPath(key) == s.db.parent && LastIndex(key) == Get(s.db.childIndex, s.db.parent);
    assert forall p :: Get(s.db.childIndex, p) <= Get(db.childIndex, p);
    forall k: KeyId | Passed(s.db, k) ensures Passed(db, k) {}
  }

  /** The next key was never issued before and no stored output uses it. */
  lemma NextChildFresh(s: State)
    requires Inv(s)
    ensures var key := NextChild(s.db).1;
      && key !in s.issued
      && forall k :: k in s.db.outputs ==> k.id != key
  {
    var key := NextChild(s.db).1;
    assert ParentPath(key) == s.db.parent && LastIndex(key) == Get(s.db.childIndex, s.db.parent);
    assert !Passed(s.db, key);
  }

  /** Some calls for the next key, one after the other. */
  function Children(db: Db, n: nat): (Db, seq<KeyId>) {
    if n == 0 then (db, [])
    else
      var (mid, keys) := Children(db, n - 1);
      var (after, key) := NextChild(mid);
      (after, keys + [key])
  }

  /** They count on from the parent's index without a gap, and touch nothing else. */
  lemma {:induction false} ChildrenCount(db: Db, n: nat)
    ensures var (after, keys) := Children(db, n);
      var start := Get(db.childIndex, db.parent);
      && |keys| == n && (forall i :: 0 <= i < n ==> keys[i] == db.parent + [start + i])
      && after == db.(childIndex := after.childIndex)
      && (forall p :: Get(after.childIndex, p) == if p == db.parent then start + n else Get(db.childIndex, p))
  {
    if n > 0 { ChildrenCount(db, n - 1); }
  }

  /** Some calls for the next log id of one parent. */
  function LogIds(db: Db, parent: KeyId, n: nat): (Db, seq<nat>) {
    if n == 0 then (db, [])
    else
      var (mid, ids) := LogIds(db, parent, n - 1);
      var (after, id) := NextLogId(mid, parent);
      (after, ids + [id])
  }

  lemma {:induction false} LogIdsCount(db: Db, parent: KeyId, n: nat)
    ensures var (after, ids) := LogIds(db, parent, n);
      var start := Get(db.logIds, parent);
      && |ids| == n && (forall i :: 0 <= i < n ==> ids[i] == start + i)
      && after == db.(logIds := after.logIds)
      && (forall p :: Get(after.logIds, p) == if p == parent then start + n else Get(db.logIds, p))
  {
    if n > 0 { LogIdsCount(db, parent, n - 1); }
  }

  /** The next log id of a parent is in no entry of its log. */
  lemma NextLogIdFresh(s: State, parent: KeyId)
    requires Inv(s)
    ensures LogKey(parent, NextLogId(s.db, parent).1) !in s.db.log
  {
  }

  lemma LoggingKeeps(s: State, parent: KeyId, e: LogEntry)
    requires Inv(s) && e.id == NextLogId(s.db, parent).1
    ensures Inv(Logged(s, parent, e))
  {
    var db := SaveLog(NextLogId(s.db, parent).0, parent, e);
    forall k: KeyId | Passed(s.db, k) ensures Passed(db, k) {}
  }

  lemma SavingKeeps(s: State, o: OutputData)
    requires Inv(s) && (o.keyId in s.issued || KeyOf(o) in s.db.outputs)
    ensures Inv(s.(db := Save(s.db, o)))
  {
    var db := Save(s.db, o);
    forall k: KeyId | Passed(s.db, k) ensures Passed(db, k) {}
    assert Passed(s.db, o.keyId);
  }

  lemma DeletingKeeps(s: State, o: OutputData)
    requires Inv(s)
    ensures Inv(s.(db := Delete(s.db, o)))
  {
    hide CancelLog;
    CancelStep(s.db, o);
    var db := Delete(s.db, o);
    forall k: KeyId | Passed(s.db, k) ensures Passed(db, k) {}
    StillBelow(s.db, db);
  }

  // ---------- Scans ----------

  ghost predicate Stored(db: Db, os: seq<OutputData>) {
    forall i | 0 <= i < |os| :: KeyOf(os[i]) in db.outputs
  }

  lemma {:induction false} UnspendingKeeps(db: Db, os: seq<OutputData>)
    requires WellKeyed(db) && Stored(db, os)
    ensures WellKeyed(UnspendAll(db, os)) && UnspendAll(db, os).outputs.Keys == db.outputs.Keys
  {
    hide Unspend;
    if os != [] {
      UnspendingKeeps(db, os[..|os| - 1]);
      UnspendStep(UnspendAll(db, os[..|os| - 1]), os[|os| - 1]);
    }
  }

  lemma {:induction false} RestoringKeeps(db: Db, cs: seq<ChainOut>)
    requires WellKeyed(db) && LogIdsBelow(db)
    ensures WellKeyed(RestoreAll(db, cs))
  {
    hide RestoreOne, LogIdsBelow;
    if cs != [] {
      RestoringKeeps(db, cs[..|cs| - 1]);
      RestoreKeepsLog(db, cs[..|cs| - 1]);
      RestoreOneLaw(RestoreAll(db, cs[..|cs| - 1]), cs[|cs| - 1]);
    }
  }

  lemma {:induction false} DeletingAllKeeps(db: Db, os: seq<OutputData>)
    requires WellKeyed(db) && LogIdsBelow(db)
    ensures var after := DeleteAll(db, os);
      WellKeyed(after) && LogIdsBelow(after) && after.outputs.Keys <= db.outputs.Keys
      && after.childIndex == db.childIndex && after.accounts == db.accounts
  {
    if os != [] {
      DeletingAllKeeps(db, os[..|os| - 1]);
      var mid, o := DeleteAll(db, os[..|os| - 1]), os[|os| - 1];
      DeleteCounters(mid, o);
      DeleteStep(mid, o);
      StillBelow(mid, Delete(mid, o));
    }
  }

  lemma DeleteCounters(db: Db, o: OutputData)
    ensures SameCounters(db, Delete(db, o))
  {
    CancelStep(db, o);
  }

  /** The database just before accounts and indices are raised. */
  ghost function BeforeRaise(kc: Keychain, db: Db, listing: seq<OutKey>, cs: seq<ChainOut>, delete: bool): Db {
    var db1 := RestoreAll(UnspendAll(db, MatchedOuts(kc, db, listing, cs, Spent)), MissingOuts(kc, db, listing, cs));
    if delete
    then DeleteAll(UnspendAll(db1, MatchedOuts(kc, db, listing, cs, Locked)), UnconfirmedOuts(db, listing))
    else db1
  }

  lemma MatchedStored(kc: Keychain, db: Db, listing: seq<OutKey>, cs: seq<ChainOut>, status: OutputStatus)
    requires WellKeyed(db)
    ensures Stored(db, MatchedOuts(kc, db, listing, cs, status))
  {
    var os := MatchedOuts(kc, db, listing, cs, status);
    forall i | 0 <= i < |os| ensures KeyOf(os[i]) in db.outputs { MatchedLaw(kc, db, listing, cs, status, os[i]); }
  }

  lemma BeforeRaiseKeeps(kc: Keychain, db: Db, listing: seq<OutKey>, cs: seq<ChainOut>, delete: bool)
    requires WellKeyed(db) && LogIdsBelow(db)
    ensures var mid := BeforeRaise(kc, db, listing, cs, delete);
      && WellKeyed(mid) && LogIdsBelow(mid) && mid.childIndex == db.childIndex && mid.accounts == db.accounts
      && forall k :: k in mid.outputs ==> k in db.outputs || RestoresKey(MissingOuts(kc, db, listing, cs), k)
  {
    hide WellKeyed, LogIdsBelow, RestoresKey;
    var spent, locked := MatchedOuts(kc, db, listing, cs, Spent), MatchedOuts(kc, db, listing, cs, Locked);
    var missing := MissingOuts(kc, db, listing, cs);
    MatchedStored(kc, db, listing, cs, Spent);
    MatchedStored(kc, db, listing, cs, Locked);
    var db0 := UnspendAll(db, spent);
    UnspendingKeeps(db, spent);
    UnspendKeepsLog(db, spent);
    StillBelow(db, db0);
    RestoreLaw(db0, missing);
    RestoreKeepsLog(db0, missing);
    RestoringKeeps(db0, missing);
    var db1 := RestoreAll(db0, missing);
    assert Stored(db1, locked);
    UnspendingKeeps(db1, locked);
    UnspendKeepsLog(db1, locked);
    StillBelow(db1, UnspendAll(db1, locked));
    DeletingAllKeeps(UnspendAll(db1, locked), UnconfirmedOuts(db, listing));
  }

  lemma ScanningKeeps(kc: Keychain, s: State, listing: seq<OutKey>, cs: seq<ChainOut>, delete: bool, order: seq<KeyId>)
    requires Inv(s) && UtxoSet(cs) && Complete(kc, s.db, listing, cs, order)
    ensures Inv(s.(db := Scan(kc, s.db, listing, cs, delete, order)))
  {
    hide BeforeRaise, LogIdsBelow, WellKeyed, UtxoSet;
    var missing := MissingOuts(kc, s.db, listing, cs);
    var mid, found := BeforeRaise(kc, s.db, listing, cs, delete), FoundParents(missing);
    var after := Scan(kc, s.db, listing, cs, delete, order);
    ScanIsRaise(kc, s.db, listing, cs, delete, order);
    BeforeRaiseKeeps(kc, s.db, listing, cs, delete);
    RaiseLaw(mid, mid.accounts.Values, |mid.accounts|, found, order);
    FoundLaw(missing);
    forall k: KeyId | Passed(s.db, k) ensures Passed(after, k) {}
    forall k | k in after.outputs ensures Passed(after, k.id) {
      if k !in s.db.outputs { RestoredPasses(kc, s.db, listing, cs, order, after, k); }
    }
    StillBelow(mid, after);
    assert WellKeyed(after) by { SameRecords(mid, after); }
    RaisingKeepsPaths(mid, mid.accounts.Values, |mid.accounts|, found, order);
  }

  lemma {:induction false} RaisingKeepsPaths(db: Db, known: set<KeyId>, index: nat, found: map<KeyId, nat>,
                                             order: seq<KeyId>)
    requires PathsDistinct(db.accounts) && Distinct(order)
    requires forall p | p in order :: p in known || p !in db.accounts.Values
    ensures PathsDistinct(RaiseAll(db, known, index, found, order).accounts)
    decreases |order|
  {
    if order != [] {
      var p, rest := order[0], order[1..];
      var next := RaiseOne(db, known, index, found, p);
      RegisteringKeepsPaths(db.accounts, Label(index), p, known);
      forall q | q in rest ensures q != p { var i :| 0 <= i < |rest| && rest[i] == q; assert order[i + 1] == q; }
      forall i, j | 0 <= i < j < |rest| ensures rest[i] != rest[j] { assert order[i + 1] != order[j + 1]; }
      RaisingKeepsPaths(next, known, if p in known then index else index + 1, found, rest);
    }
  }

  lemma RegisteringKeepsPaths(accounts: map<string, KeyId>, name: string, p: KeyId, known: set<KeyId>)
    requires PathsDistinct(accounts) && (p in known || p !in accounts.Values)
    ensures p !in known ==> PathsDistinct(accounts[name := p])
    ensures forall q | q in accounts[name := p].Values :: q == p || q in accounts.Values
  {
    assert forall l | l in accounts :: accounts[l] in accounts.Values;
  }

  lemma ScanIsRaise(kc: Keychain, db: Db, listing: seq<OutKey>, cs: seq<ChainOut>, delete: bool, order: seq<KeyId>)
    ensures var mid := BeforeRaise(kc, db, listing, cs, delete);
      Scan(kc, db, listing, cs, delete, order)
      == RaiseAll(mid, mid.accounts.Values, |mid.accounts|, FoundParents(MissingOuts(kc, db, listing, cs)), order)
  {
  }

  lemma SameRecords(a: Db, b: Db)
    requires WellKeyed(a) && a.outputs == b.outputs
    ensures WellKeyed(b)
  {
  }

  lemma RestoredPasses(kc: Keychain, db: Db, listing: seq<OutKey>, cs: seq<ChainOut>, order: seq<KeyId>, after: Db,
                       k: OutKey)
    requires UtxoSet(cs) && Complete(kc, db, listing, cs, order)
    requires RestoresKey(MissingOuts(kc, db, listing, cs), k)
    requires var found := FoundParents(MissingOuts(kc, db, listing, cs));
      forall p :: p in order && p in found ==> Get(after.childIndex, p) > found[p]
    ensures Passed(after, k.id)
  {
    var missing := MissingOuts(kc, db, listing, cs);
    MissingLaw(kc, db, listing, cs);
    FoundLaw(missing);
    var i :| 0 <= i < |missing| && KeyOfOut(missing[i]) == k;
    assert missing[i] in missing && missing[i].nChild == LastIndex(missing[i].keyId);
  }

  lemma StepKeeps(kc: Keychain, s: State, t: State)
    requires Inv(s) && Next(kc, s, t)
    ensures Inv(t)
  {
    hide Inv, NewAccount, Save, Delete, SaveLog, NextLogId, NextChild, Scan, Complete;
    if Switches(s, t) {
      var p: KeyId :| t == Switched(s, p);
      SwitchingKeeps(s, p);
    } else if AddsAccount(s, t) {
      var name: string, highest: Option<KeyId> :|
        IsHighest(s.db.accounts.Values, highest) && NewAccount(s.db, name, highest) == Ok(t.db) && t.issued == s.issued;
      AddingKeeps(s, t, name, highest);
    } else if TakesChild(s, t) {
      NextChildPasses(s);
    } else if Records(s, t) {
      var o: OutputData :| (o.keyId in s.issued || KeyOf(o) in s.db.outputs) && t == s.(db := Save(s.db, o));
      SavingKeeps(s, o);
    } else if Deletes(s, t) {
      var o: OutputData :| t == s.(db := Delete(s.db, o));
      DeletingKeeps(s, o);
    } else if Logs(s, t) {
      var parent: KeyId, e: LogEntry :| e.id == NextLogId(s.db, parent).1 && t == Logged(s, parent, e);
      LoggingKeeps(s, parent, e);
    } else if Relogs(s, t) {
      var parent: KeyId, e: LogEntry :| LogKey(parent, e.id) in s.db.log && t == s.(db := SaveLog(s.db, parent, e));
      RelogKeeps(s, parent, e);
    } else {
      var listing: seq<OutKey>, cs: seq<ChainOut>, delete: bool, order: seq<KeyId> :|
        UtxoSet(cs) && Listing(s.db, listing) && Complete(kc, s.db, listing, cs, order)
        && t == s.(db := Scan(kc, s.db, listing, cs, delete, order));
      ScanningKeeps(kc, s, listing, cs, delete, order);
    }
  }

  lemma SwitchingKeeps(s: State, p: KeyId)
    requires Inv(s)
    ensures Inv(Switched(s, p))
  {
    var db := s.db.(parent := p);
    forall k: KeyId | Passed(s.db, k) ensures Passed(db, k) {}
  }

  lemma AddingKeeps(s: State, t: State, name: string, highest: Option<KeyId>)
    requires Inv(s) && IsHighest(s.db.accounts.Values, highest)
    requires NewAccount(s.db, name, highest) == Ok(t.db) && t.issued == s.issued
    ensures Inv(t)
  {
    forall k: KeyId | Passed(s.db, k) ensures Passed(t.db, k) {}
    assert forall l | l in s.db.accounts :: s.db.accounts[l] in s.db.accounts.Values;
  }

  lemma RelogKeeps(s: State, parent: KeyId, e: LogEntry)
    requires Inv(s) && LogKey(parent, e.id) in s.db.log
    ensures Inv(s.(db := SaveLog(s.db, parent, e)))
  {
    var db := SaveLog(s.db, parent, e);
    forall k: KeyId | Passed(s.db, k) ensures Passed(db, k) {}
    assert db.log.Keys == s.db.log.Keys;
    StillBelow(s.db, db);
  }

  // ---------- Runs ----------

  ghost predicate Run(kc: Keychain, run: seq<State>) {
    && run != [] && run[0] == State(FRESH_DB, [])
    && forall i :: 0 <= i < |run| - 1 ==> Next(kc, run[i], run[i + 1])
  }

  lemma {:induction false} RunKeeps(kc: Keychain, run: seq<State>, n: nat)
    requires Run(kc, run) && n < |run|
    ensures Inv(run[n])
  {
    hide Next;
    if n > 0 {
      RunKeeps(kc, run, n - 1);
      assert Next(kc, run[n - 1], run[n - 1 + 1]);
      StepKeeps(kc, run[n - 1], run[n]);
    }
  }

  /** Over any run that switches and creates accounts, stores and deletes records, logs, and
      scans in either mode: the keys issued are pairwise distinct, the next one is new and no
      stored output uses it, the next log id of any parent is free, and no path has two labels. */
  lemma NothingIsReused(kc: Keychain, run: seq<State>, n: nat, parent: KeyId)
    requires Run(kc, run) && n < |run|
    ensures forall i, j :: 0 <= i < j < |run[n].issued| ==> run[n].issued[i] != run[n].issued[j]
    ensures NextChild(run[n].db).1 !in run[n].issued
    ensures forall k :: k in run[n].db.outputs ==> k.id != NextChild(run[n].db).1
    ensures LogKey(parent, NextLogId(run[n].db, parent).1) !in run[n].db.log
    ensures PathsDistinct(run[n].db.accounts)
  {
    RunKeeps(kc, run, n);
    NextChildFresh(run[n]);
    NextLogIdFresh(run[n], parent);
  }

  // ---------- A scan cut short ----------

  /** Restored outputs are committed before child indices are raised. If a scan stops in between,
      after any number of restored outputs, stored keys stay below their parent's index exactly
      when none of the outputs restored reaches it. */
  lemma InterruptedScanSafeIff(kc: Keychain, db: Db, listing: seq<OutKey>, cs: seq<ChainOut>, n: nat)
    requires Inv(State(db, [])) && UtxoSet(cs) && n <= |MissingOuts(kc, db, listing, cs)|
    ensures var missing := MissingOuts(kc, db, listing, cs)[..n];
      var cut := RestoreAll(UnspendAll(db, MatchedOuts(kc, db, listing, cs, Spent)), missing);
      (forall k :: k in cut.outputs ==> Passed(cut, k.id)) <==> (forall c :: c in missing ==> Passed(db, c.keyId))
  {
    hide MatchedOuts, MissingOuts, WellKeyed, LogIdsBelow, UtxoSet, Stored, RestoresKey, Passed;
    var spent := MatchedOuts(kc, db, listing, cs, Spent);
    var missing := MissingOuts(kc, db, listing, cs)[..n];
    var db0 := UnspendAll(db, spent);
    MatchedStored(kc, db, listing, cs, Spent);
    UnspendingKeeps(db, spent);
    UnspendKeepsLog(db, spent);
    StillBelow(db, db0);
    RestoreLaw(db0, missing);
    RestoreKeepsLog(db0, missing);
    var cut := RestoreAll(db0, missing);
    forall k: KeyId ensures Passed(cut, k) <==> Passed(db, k) { SameIndices(db, cut, k); }
    forall k ensures RestoresKey(missing, k) ==> exists c :: c in missing && KeyOfOut(c) == k
      { RestoredIn(missing, k); }
    forall c | c in missing ensures RestoresKey(missing, KeyOfOut(c)) { InRestored(missing, c); }
  }

  lemma SameIndices(a: Db, b: Db, k: KeyId)
    requires a.childIndex == b.childIndex
    ensures Passed(a, k) <==> Passed(b, k)
  {
  }

  lemma RestoredIn(cs: seq<ChainOut>, k: OutKey)
    ensures RestoresKey(cs, k) ==> exists c :: c in cs && KeyOfOut(c) == k
  {
    if RestoresKey(cs, k) {
      var i :| 0 <= i < |cs| && KeyOfOut(cs[i]) == k;
      assert cs[i] in cs;
    }
  }

  lemma InRestored(cs: seq<ChainOut>, c: ChainOut)
    requires c in cs
    ensures RestoresKey(cs, KeyOfOut(c))
  {
    var i :| 0 <= i < |cs| && cs[i] == c;
    assert KeyOfOut(cs[i]) == KeyOfOut(c);
  }

  /** And scanning again does not help: the restored outputs are no longer missing, so a later
      scan of the same chain leaves the database, its child indices included, as it is. */
  lemma InterruptedScanNotHealed(kc: Keychain, db: Db, listing: seq<OutKey>, cs: seq<ChainOut>, again: seq<OutKey>)
    requires Scannable(kc, db, listing, cs) && NoClash(kc, db, cs)
    requires Listing(BeforeRaise(kc, db, listing, cs, false), again)
    ensures var cut := BeforeRaise(kc, db, listing, cs, false); Scan(kc, cut, again, cs, false, []) == cut
  {
    hide Scannable, NoClash, BeforeRaise, Scan;
    ScanIsRaise(kc, db, listing, cs, false, []);
    ScanRepairsIff(kc, db, listing, cs, []);
    RepairedIsFixpoint(kc, BeforeRaise(kc, db, listing, cs, false), again, cs);
  }
}
