/** The wallet database as it is used: counters, records and log written by methods, and the scan
    that repairs them. */
module WalletDb {
  import opened Wrappers
  import opened Bounds
  import opened SlateTypes
  import opened DbSpec
  import opened DbLaws
  import Spec = DbSpec

  const MISSING_OUTPUTS_BATCH_SIZE := 1000

  /** One more element read by a fold that takes the last element apart. */
  lemma Snoc<T>(s: seq<T>, i: nat)
    requires i < |s|
    ensures s[..i + 1][..|s[..i + 1]| - 1] == s[..i] && s[..i + 1][|s[..i + 1]| - 1] == s[i] && s[..i + 1] != []
  {
  }

  lemma RestoreSnoc(db: Db, cs: seq<ChainOut>, i: nat)
    requires i < |cs|
    ensures RestoreAll(db, cs[..i + 1]) == RestoreOne(RestoreAll(db, cs[..i]), cs[i])
    ensures var p, before := ParentPath(cs[i].keyId), FoundParents(cs[..i]);
      FoundParents(cs[..i + 1]) == if cs[i].nChild >= Get(before, p) then before[p := cs[i].nChild] else before
  {
    Snoc(cs, i);
    hide RestoreOne;
  }

  class WalletBackend {
    var outputs: map<OutKey, OutputData>
    var log: map<LogKey, LogEntry>
    var logIds: map<KeyId, nat>
    var childIndex: map<KeyId, nat>
    var accounts: map<string, KeyId>
    var parent: KeyId

    function V(): Db
      reads this
    {
      Db(outputs, log, logIds, childIndex, accounts, parent)
    }

    /** A new wallet: only the default account, at path 0/0. */
    constructor ()
      ensures V() == Db(map[], map[], map[], map[], map["default" := [0, 0]], [0, 0])
    {
      outputs, log, logIds, childIndex := map[], map[], map[], map[];
      accounts, parent := map["default" := [0, 0]], [0, 0];
    }

    method NextChild() returns (key: KeyId)
      modifies this`childIndex
      ensures (V(), key) == Spec.NextChild(old(V()))
    {
      var index := if parent in childIndex then childIndex[parent] else 0;
      key := parent + [index];
      childIndex := childIndex[parent := index + 1];
    }

    method NextTxLogId(p: KeyId) returns (id: nat)
      modifies this`logIds
      ensures (V(), id) == NextLogId(old(V()), p)
    {
      id := if p in logIds then logIds[p] else 0;
      logIds := logIds[p := id + 1];
    }

    method SaveTxLogEntry(p: KeyId, e: LogEntry)
      modifies this`log
      ensures V() == SaveLog(old(V()), p, e)
    {
      log := log[LogKey(p, e.id) := e];
    }

    method Save(o: OutputData)
      modifies this`outputs
      ensures V() == Spec.Save(old(V()), o)
    {
      outputs := outputs[KeyOf(o) := o];
    }

    method NewAcctPath(name: string) returns (r: Result<KeyId, Error>, ghost highest: Option<KeyId>)
      modifies this`accounts
      ensures match NewAccount(old(V()), name, highest)
              case Err(e) => r == Err(e) && V() == old(V())
              case Ok(db) => r.Ok? && V() == db && accounts[name] == r.value
      ensures r.Ok? ==> IsHighest(old(accounts).Values, highest)
      ensures r.Ok? <==> name !in old(accounts)
      ensures r.Ok? ==> r.value != [] && forall p | p in old(accounts).Values && p != [] :: p[0] < r.value[0]
      ensures r.Ok? ==> || (r.value == [0, 0] && forall p | p in old(accounts).Values :: p == [])
                        || (exists p | p in old(accounts).Values && p != [] ::
                              r.value[0] == p[0] + 1 && r.value[1..] == p[1..])
    {
      highest := None;
      if name in accounts { return Err(Backend), None; }
      var best: Option<KeyId> := None;
      var rest := accounts.Values;
      while rest != {}
        invariant rest <= accounts.Values
        invariant best.Some? ==> best.value in accounts.Values && best.value != []
        invariant best == None ==> forall q | q in accounts.Values :: q in rest || q == []
        invariant best.Some? ==> forall q | q in accounts.Values :: q in rest || q == [] || q[0] <= best.value[0]
        decreases rest
      {
        var p :| p in rest;
        rest := rest - {p};
        if p != [] && (best == None || p[0] >= best.value[0]) {
          best := Some(p);
        }
      }
      highest := best;
      var path := if best.Some? then best.value[0 := best.value[0] + 1] else [0, 0];
      accounts := accounts[name := path];
      r := Ok(path);
    }

    method CancelTxLogEntry(o: OutputData)
      modifies this`log
      ensures V() == CancelLog(old(V()), o)
    {
      if o.txLogEntry.Some? {
        var k := LogKey(ParentPath(o.keyId), o.txLogEntry.value);
        if k in log {
          log := log[k := log[k].(txType := Cancelled(log[k].txType))];
        }
      }
    }

    /** Marks each of the given records unspent and cancels its transaction. */
    method UnspendOutputs(os: seq<OutputData>)
      modifies this
      ensures V() == UnspendAll(old(V()), os)
    {
      for i := 0 to |os|
        invariant V() == UnspendAll(old(V()), os[..i])
      {
        Snoc(os, i);
        CancelTxLogEntry(os[i]);
        Save(os[i].(status := Unspent));
      }
      assert os[..|os|] == os;
    }

    method RestoreOutput(c: ChainOut)
      modifies this
      ensures V() == RestoreOne(old(V()), c)
    {
      var p := ParentPath(c.keyId);
      var id := NextTxLogId(p);
      SaveTxLogEntry(p, RestoredEntry(c, id));
      Save(RestoredOutput(c, id));
    }

    /** One chunk, in one database batch. `db` is the database before the first chunk. */
    method RestoreChunk(ghost db: Db, cs: seq<ChainOut>, start: nat, end: nat, found: map<KeyId, nat>)
      returns (next: map<KeyId, nat>)
      requires start <= end <= |cs| && V() == RestoreAll(db, cs[..start]) && found == FoundParents(cs[..start])
      modifies this
      ensures V() == RestoreAll(db, cs[..end]) && next == FoundParents(cs[..end])
    {
      next := found;
      hide RestoreOne, RestoreAll, FoundParents;
      for i := start to end
        invariant V() == RestoreAll(db, cs[..i])
        invariant next == FoundParents(cs[..i])
      {
        RestoreSnoc(db, cs, i);
        RestoreOutput(cs[i]);
        var p := ParentPath(cs[i].keyId);
        if cs[i].nChild >= Get(next, p) {
          next := next[p := cs[i].nChild];
        }
      }
    }

    /** Restores the missing outputs in chunks, recording the largest child number per parent. */
    method RestoreMissingOutputs(cs: seq<ChainOut>) returns (found: map<KeyId, nat>)
      modifies this
      ensures V() == RestoreAll(old(V()), cs)
      ensures found == FoundParents(cs)
    {
      found := map[];
      var start := 0;
      while start < |cs|
        invariant start <= |cs|
        invariant V() == RestoreAll(old(V()), cs[..start])
        invariant found == FoundParents(cs[..start])
      {
        var end := Min(start + MISSING_OUTPUTS_BATCH_SIZE, |cs|);
        found := RestoreChunk(old(V()), cs, start, end, found);
        start := end;
      }
      assert cs[..|cs|] == cs;
    }

    method DeleteOutputs(os: seq<OutputData>)
      modifies this
      ensures V() == DeleteAll(old(V()), os)
    {
      for i := 0 to |os|
        invariant V() == DeleteAll(old(V()), os[..i])
      {
        Snoc(os, i);
        CancelTxLogEntry(os[i]);
        outputs := outputs - {KeyOf(os[i])};
      }
      assert os[..|os|] == os;
    }

    method RetrieveOutputs() returns (listing: seq<OutKey>)
      ensures Listing(V(), listing)
    {
      listing := [];
      var rest := outputs.Keys;
      while rest != {}
        invariant rest <= outputs.Keys
        invariant forall k :: k in listing <==> k in outputs.Keys - rest
        decreases rest
      {
        var k :| k in rest;
        listing, rest := listing + [k], rest - {k};
      }
    }

    method FindRecord(kc: Keychain, listing: seq<OutKey>, c: ChainOut) returns (k: Option<OutKey>)
      ensures k == Find(kc, V(), listing, c)
    {
      for i := 0 to |listing|
        invariant Find(kc, V(), listing, c) == Find(kc, V(), listing[i..], c)
      {
        if listing[i] in outputs && CommitOfRecord(kc, outputs[listing[i]]) == c.commit {
          return Some(listing[i]);
        }
        assert listing[i..][1..] == listing[i + 1..];
      }
      k := None;
    }

    /** Compares the chain's outputs with the records. */
    method Classify(kc: Keychain, listing: seq<OutKey>, cs: seq<ChainOut>)
      returns (missing: seq<ChainOut>, spent: seq<OutputData>, locked: seq<OutputData>)
      ensures missing == MissingOuts(kc, V(), listing, cs)
      ensures spent == MatchedOuts(kc, V(), listing, cs, Spent) && locked == MatchedOuts(kc, V(), listing, cs, Locked)
    {
      missing, spent, locked := [], [], [];
      for i := 0 to |cs|
        invariant missing == MissingOuts(kc, V(), listing, cs[..i])
        invariant spent == MatchedOuts(kc, V(), listing, cs[..i], Spent)
        invariant locked == MatchedOuts(kc, V(), listing, cs[..i], Locked)
      {
        Snoc(cs, i);
        FindSound(kc, V(), listing, cs[i]);
        var k := FindRecord(kc, listing, cs[i]);
        match k {
          case None => missing := missing + [cs[i]];
          case Some(key) =>
            var o := outputs[key];
            if o.status == Spent { spent := spent + [o]; }
            if o.status == Locked { locked := locked + [o]; }
        }
      }
      assert cs[..|cs|] == cs;
    }

    method Unconfirmed(listing: seq<OutKey>) returns (os: seq<OutputData>)
      ensures os == UnconfirmedOuts(V(), listing)
    {
      os := [];
      for i := 0 to |listing|
        invariant os == UnconfirmedOuts(V(), listing[..i])
      {
        Snoc(listing, i);
        if listing[i] in outputs && outputs[listing[i]].status == OutputStatus.Unconfirmed {
          os := os + [outputs[listing[i]]];
        }
      }
      assert listing[..|listing|] == listing;
    }

    /** Some order of the found parents. */
    static method Visits(found: map<KeyId, nat>) returns (visits: seq<KeyId>)
      ensures forall p :: p in visits <==> p in found
    {
      visits := [];
      var rest := found.Keys;
      while rest != {}
        invariant rest <= found.Keys
        invariant forall p :: p in visits <==> p in found.Keys - rest
        decreases rest
      {
        var p :| p in rest;
        visits, rest := visits + [p], rest - {p};
      }
    }

    /** One found parent: registered under the next label if no account has it, its index raised. */
    method RestorePath(found: map<KeyId, nat>, known: set<KeyId>, index: nat, p: KeyId) returns (next: nat)
      modifies this
      ensures V() == RaiseOne(old(V()), known, index, found, p)
      ensures next == if p in known then index else index + 1
    {
      next := index;
      if p !in known {
        accounts := accounts[Label(index) := p];
        next := index + 1;
      }
      if p in found && found[p] >= Get(childIndex, p) {
        childIndex := childIndex[p := found[p] + 1];
      }
    }

    /** Registers paths and raises child indices, visiting the found parents in any order. */
    method RestorePaths(found: map<KeyId, nat>) returns (ghost order: seq<KeyId>)
      modifies this
      ensures forall p :: p in order <==> p in found
      ensures V() == RaiseAll(old(V()), old(accounts).Values, |old(accounts)|, found, order)
    {
      var visits := Visits(found);
      var known := accounts.Values;
      var index: nat := |accounts|;
      hide RaiseOne;
      for i := 0 to |visits|
        invariant RaiseAll(old(V()), known, |old(accounts)|, found, visits)
               == RaiseAll(V(), known, index, found, visits[i..])
      {
        assert visits[i..][0] == visits[i] && visits[i..][1..] == visits[i + 1..];
        index := RestorePath(found, known, index, visits[i]);
      }
      order := visits;
    }

    /** libwallet/src/internal/scan.rs, `scan`, once the chain's outputs have been collected. */
    method Scan(kc: Keychain, cs: seq<ChainOut>, delete: bool)
      returns (ghost listing: seq<OutKey>, ghost order: seq<KeyId>)
      modifies this
      ensures Listing(old(V()), listing)
      ensures forall p :: p in order <==> p in FoundParents(MissingOuts(kc, old(V()), listing, cs))
      ensures V() == Spec.Scan(kc, old(V()), listing, cs, delete, order)
    {
      var records := RetrieveOutputs();
      listing := records;
      var missing, spent, locked := Classify(kc, records, cs);
      var unconfirmed := Unconfirmed(records);
      UnspendOutputs(spent);
      var found := RestoreMissingOutputs(missing);
      if delete {
        UnspendOutputs(locked);
        DeleteOutputs(unconfirmed);
      }
      order := RestorePaths(found);
    }
  }
}
