/** The update of a wallet's state batch by batch: page, scan, save the marker
    (libwallet/src/api_impl/owner.rs, `update_wallet_state`). */
module WalletUpdate {
  import opened Wrappers
  import opened SlateTypes
  import opened DbSpec
  import opened DbLaws
  import opened ScanLaws
  import opened BatchScanLaws
  import opened ChainScan
  import opened Batches
  import opened Bounds
  import opened WalletDb

  /** The node's range of positions for a range of heights. */
  type Indices = (nat, nat) -> (nat, nat)

  ghost predicate Locates(indices: Indices, chain: seq<ChainEntry>) {
    forall lo: nat, hi: nat :: forall i | 0 <= i < |chain| ::
      indices(lo, hi).0 <= chain[i].mmrIndex <= indices(lo, hi).1 <==> lo <= chain[i].height <= hi
  }

  /** One UTXO set as the node has it. */
  ghost predicate Consistent(chain: seq<ChainEntry>) {
    Ordered(chain) && UtxoSet(Identify(chain))
  }

  lemma {:induction false} IdentifyPays(chain: seq<ChainEntry>, c: ChainOut)
    ensures c in Identify(chain) <==> Pays(chain, c)
  {
    if chain != [] {
      IdentifyPays(chain[1..], c);
      PaysHead(chain, c);
    }
  }

  /** What paging through a batch collects is exactly the wallet's outputs at its heights. */
  lemma BatchIsPart(indices: Indices, chain: seq<ChainEntry>, lo: nat, hi: nat)
    requires Consistent(chain) && Locates(indices, chain)
    ensures var cs := Identify(Between(chain, indices(lo, hi).0, indices(lo, hi).1));
      && UtxoSet(cs) && (forall c :: c in cs ==> c in Identify(chain))
      && forall c :: c in Identify(chain) && lo <= c.height <= hi ==> c in cs
  {
    var all, cs := Identify(chain), Identify(Between(chain, indices(lo, hi).0, indices(lo, hi).1));
    CollectedExactly(chain, indices(lo, hi).0, indices(lo, hi).1);
    hide Between, Identify;
    forall c ensures c in all <==> Pays(chain, c) { IdentifyPays(chain, c); }
    forall c | Pays(chain, c) && lo <= c.height <= hi ensures c in cs {
      var i :| 0 <= i < |chain| && chain[i].owner == Some(c);
      assert chain[i].height == c.height;
    }
    SubsetIsUtxoSet(cs, all);
  }

  lemma SubsetIsUtxoSet(cs: seq<ChainOut>, all: seq<ChainOut>)
    requires UtxoSet(all) && forall c :: c in cs ==> c in all
    requires forall i, j :: 0 <= i < j < |cs| ==> cs[i].mmrIndex < cs[j].mmrIndex
    ensures UtxoSet(cs)
  {
    forall i, j | 0 <= i < j < |cs| ensures cs[i].commit != cs[j].commit {
      assert cs[i] in all && cs[j] in all;
      if cs[i].commit == cs[j].commit { SameCommit(all, cs[i], cs[j]); }
    }
    forall i | 0 <= i < |cs| ensures cs[i].nChild == LastIndex(cs[i].keyId) {
      assert cs[i] in all;
      var j :| 0 <= j < |all| && all[j] == cs[i];
    }
  }

  /** Every output of the wallet on chain at these heights has exactly one record, not spent. */
  ghost predicate RepairedAt(kc: Keychain, db: Db, chain: seq<ChainEntry>, lo: int, hi: int) {
    forall c :: c in Identify(chain) && lo <= c.height <= hi ==> OneLiveRecord(kc, db, c)
  }

  /** The wallet's outputs on this chain are among those it ever meets. */
  ghost predicate Within(chain: seq<ChainEntry>, all: seq<ChainOut>) {
    forall c :: c in Identify(chain) ==> c in all
  }

  lemma BatchRepairs(kc: Keychain, db: Db, listing: seq<OutKey>, indices: Indices, chain: seq<ChainEntry>,
                     all: seq<ChainOut>, order: seq<KeyId>, first: nat, lo: nat, hi: nat)
    requires Consistent(chain) && Locates(indices, chain) && Listing(db, listing)
    requires Healthy(kc, db, all) && Within(chain, all) && RepairedAt(kc, db, chain, first, lo - 1)
    ensures var after := Scan(kc, db, listing, Identify(Between(chain, indices(lo, hi).0, indices(lo, hi).1)), false,
            order);
      Healthy(kc, after, all) && RepairedAt(kc, after, chain, first, hi)
  {
    hide Scan, Healthy, OneLiveRecord, Between, Identify, Consistent, Locates, Listing, UtxoSet;
    var cs := Identify(Between(chain, indices(lo, hi).0, indices(lo, hi).1));
    BatchIsPart(indices, chain, lo, hi);
    ScanKeepsHealthy(kc, db, listing, cs, order, all);
    PartRepaired(kc, db, listing, cs, order, all);
    forall c | c in Identify(chain) && first <= c.height <= hi
      ensures OneLiveRecord(kc, Scan(kc, db, listing, cs, false, order), c) {
      if c.height < lo { RepairedStays(kc, db, listing, cs, order, all, c); }
    }
  }

  // ---------- One update after the other ----------

  /** One update: the node as it answers by then, the chain it has, its tip, and how many batches can be
      committed before the update is interrupted. */
  datatype UpdateCall = UpdateCall(node: Node, indices: Indices, chain: seq<ChainEntry>, tip: nat, limit: nat)

  ghost predicate Answered(u: UpdateCall, all: seq<ChainOut>) {
    Consistent(u.chain) && Serves(u.node, u.chain) && Locates(u.indices, u.chain) && Within(u.chain, all)
  }

  function Done(p: Progress, tip: nat, limit: nat): nat {
    Min(limit, |Batches.Batches(StartHeight(p, tip), tip)|)
  }

  function AfterUpdate(p: Progress, u: UpdateCall): Progress {
    Update(p, u.tip, Done(p, u.tip, u.limit))
  }

  function AfterUpdates(p: Progress, us: seq<UpdateCall>): Progress
    decreases |us|
  {
    if us == [] then p else AfterUpdates(AfterUpdate(p, us[0]), us[1..])
  }

  /** The chain an update leaves as the last one scanned. */
  function Scanned(p: Progress, seen: seq<ChainEntry>, u: UpdateCall): seq<ChainEntry> {
    if Done(p, u.tip, u.limit) > 0 then u.chain else seen
  }

  function LastScanned(p: Progress, seen: seq<ChainEntry>, us: seq<UpdateCall>): seq<ChainEntry>
    decreases |us|
  {
    if us == [] then seen else LastScanned(AfterUpdate(p, us[0]), Scanned(p, seen, us[0]), us[1..])
  }

  /** What the wallet has on a chain below the start of an update it had on the chain scanned before. */
  ghost predicate Agrees(p: Progress, first: nat, seen: seq<ChainEntry>, u: UpdateCall) {
    forall c :: c in Identify(u.chain) && first <= c.height < StartHeight(p, u.tip) ==>
      c in Identify(seen) && c.height <= p.marker
  }

  /** No reorganisation reaches below the start of the next update that scans anything. */
  ghost predicate Shallow(p: Progress, first: nat, seen: seq<ChainEntry>, us: seq<UpdateCall>)
    decreases |us|
  {
    us != [] ==>
      && (Done(p, us[0].tip, us[0].limit) > 0 ==> Agrees(p, first, seen, us[0]))
      && Shallow(AfterUpdate(p, us[0]), first, Scanned(p, seen, us[0]), us[1..])
  }

  lemma AgreementCarries(kc: Keychain, db: Db, p: Progress, first: nat, seen: seq<ChainEntry>, u: UpdateCall)
    requires RepairedAt(kc, db, seen, first, p.marker) && Agrees(p, first, seen, u)
    ensures RepairedAt(kc, db, u.chain, first, StartHeight(p, u.tip) - 1)
  {
  }

  lemma NothingCommitted(p: Progress, u: UpdateCall)
    requires Done(p, u.tip, u.limit) == 0
    ensures AfterUpdate(p, u) == p
  {
    assert Batches.Batches(StartHeight(p, u.tip), u.tip)[..0] == [];
  }

  lemma NothingYet(kc: Keychain, db: Db, chain: seq<ChainEntry>, start: nat)
    ensures RepairedAt(kc, db, chain, start, start - 1)
  {
  }

  class Updater {
    const wallet: WalletBackend
    var marker: nat
    var status: InitStatus
    ghost var committed: seq<(nat, nat)>

    constructor (wallet: WalletBackend, status: InitStatus)
      ensures this.wallet == wallet && Progressed() == Progress(0, status, [])
    {
      this.wallet := wallet;
      this.marker, this.status, this.committed := 0, status, [];
    }

    ghost function Progressed(): Progress
      reads this
    {
      Progress(marker, status, committed)
    }

    /** One batch: collect, scan, then save the marker. */
    method CommitBatch(kc: Keychain, node: Node, indices: Indices, ghost chain: seq<ChainEntry>,
                       ghost all: seq<ChainOut>, ghost first: nat, lo: nat, hi: nat)
      requires Consistent(chain) && Serves(node, chain) && Locates(indices, chain) && Within(chain, all)
      requires Healthy(kc, wallet.V(), all) && RepairedAt(kc, wallet.V(), chain, first, lo - 1)
      modifies this, wallet
      ensures Progressed() == Progress(hi, InitComplete, old(committed) + [(lo, hi)])
      ensures Healthy(kc, wallet.V(), all) && RepairedAt(kc, wallet.V(), chain, first, hi)
    {
      hide Healthy, RepairedAt, Serves, Locates, Within, Spec.Scan, Identify, Between;
      var range := indices(lo, hi);
      var cs, last := CollectChainOutputs(node, chain, range.0, range.1);
      ghost var before := wallet.V();
      ghost var listing, order := wallet.Scan(kc, cs, false);
      BatchRepairs(kc, before, listing, indices, chain, all, order, first, lo, hi);
      marker, status := hi, InitComplete;
      committed := committed + [(lo, hi)];
    }

    /** Runs the batches of one update against one state of the chain, until the tip is reached or
        `limit` batches have been committed. If heights from `first` to the start were repaired before,
        every output of the wallet from `first` up to the saved marker then has exactly one record, not
        spent. */
    method UpdateWalletState(kc: Keychain, node: Node, indices: Indices, ghost chain: seq<ChainEntry>,
                             ghost all: seq<ChainOut>, ghost first: nat, tip: nat, limit: nat)
      returns (done: nat)
      requires Consistent(chain) && Serves(node, chain) && Locates(indices, chain) && Within(chain, all)
      requires Healthy(kc, wallet.V(), all)
      requires RepairedAt(kc, wallet.V(), chain, first, StartHeight(Progressed(), tip) - 1)
      modifies this, wallet
      ensures done == Done(old(Progressed()), tip, limit)
      ensures Progressed() == Update(old(Progressed()), tip, done)
      ensures Healthy(kc, wallet.V(), all)
      ensures if done > 0 then RepairedAt(kc, wallet.V(), chain, first, marker) else wallet.V() == old(wallet.V())
    {
      hide Healthy, RepairedAt, Serves, Locates, Identify, Consistent, Within;
      var start := SaturatingSub(if status == InitNoScanning then tip else marker, REORG_RESCAN_WINDOW);
      var h := start;
      done := 0;
      ghost var bs := Batches.Batches(start, tip);
      while h < tip + 1 && done < limit
        invariant h == start + done * BATCH_STEP && done <= limit && done <= |bs|
        invariant Progressed() == Committed(old(Progressed()), bs[..done], InitComplete)
        invariant Healthy(kc, wallet.V(), all)
        invariant RepairedAt(kc, wallet.V(), chain, first, if done > 0 then marker else start - 1)
        invariant if done > 0 then marker == bs[done - 1].1 else wallet.V() == old(wallet.V())
        decreases limit - done
      {
        BatchAt(start, tip, done);
        if done > 0 { BatchAt(start, tip, done - 1); }
        CommitBatch(kc, node, indices, chain, all, first, h, Min(tip, h + (BATCH_STEP - 1)));
        assert bs[..done + 1][..|bs[..done + 1]| - 1] == bs[..done];
        h := h + BATCH_STEP;
        done := done + 1;
      }
      BatchAt(start, tip, done);
    }

    /** The updater's loop: one update after the other, each with the chain as it is by then. Whatever the
        tips and the interruptions, as long as no reorganisation reaches deeper than an update goes back,
        every output of the wallet on the chain last scanned, from `first` up to the saved marker, has
        exactly one record, not spent. */
    method RunUpdates(kc: Keychain, updates: seq<UpdateCall>, ghost all: seq<ChainOut>, ghost first: nat,
                      ghost seen: seq<ChainEntry>)
      requires forall u :: u in updates ==> Answered(u, all)
      requires Healthy(kc, wallet.V(), all) && RepairedAt(kc, wallet.V(), seen, first, marker)
      requires Shallow(Progressed(), first, seen, updates)
      modifies this, wallet
      ensures Progressed() == AfterUpdates(old(Progressed()), updates)
      ensures Healthy(kc, wallet.V(), all)
      ensures RepairedAt(kc, wallet.V(), LastScanned(old(Progressed()), seen, updates), first, marker)
    {
      hide Healthy, RepairedAt, Agrees, Consistent, Serves, Locates, Within, Update, Done, StartHeight;
      ghost var last := seen;
      var i := 0;
      assert updates[i..] == updates;
      while i < |updates|
        invariant 0 <= i <= |updates|
        invariant Healthy(kc, wallet.V(), all) && RepairedAt(kc, wallet.V(), last, first, marker)
        invariant Shallow(Progressed(), first, last, updates[i..])
        invariant AfterUpdates(Progressed(), updates[i..]) == AfterUpdates(old(Progressed()), updates)
        invariant LastScanned(Progressed(), last, updates[i..]) == LastScanned(old(Progressed()), seen, updates)
      {
        var u := updates[i];
        assert u in updates && updates[i..][0] == u && updates[i..][1..] == updates[i + 1..];
        ghost var p := Progressed();
        ghost var from := if Done(p, u.tip, u.limit) > 0 then first else StartHeight(p, u.tip);
        if Done(p, u.tip, u.limit) > 0 {
          AgreementCarries(kc, wallet.V(), p, first, last, u);
        } else {
          NothingYet(kc, wallet.V(), u.chain, from);
          NothingCommitted(p, u);
        }
        var done := UpdateWalletState(kc, u.node, u.indices, u.chain, all, from, u.tip, u.limit);
        last := Scanned(p, last, u);
        i := i + 1;
      }
    }
  }
}
