/** Collecting this wallet's outputs from the node, page by page (libwallet/src/internal/scan.rs). */
module ChainScan {
  import opened Wrappers
  import opened SlateTypes
  import opened DbSpec
  import opened Sums

  const PAGE_SIZE: nat := 1000

  /** An unspent output of the chain. `owner` is what rewinding its range proof yields: the wallet's
      own output, or nothing. */
  datatype ChainEntry = ChainEntry(mmrIndex: nat, height: nat, owner: Option<ChainOut>)

  datatype Page = Page(highest: nat, last: nat, outputs: seq<ChainEntry>)

  /** The node's answer to a first index, a last index and a maximal number of outputs. */
  type Node = (nat, nat, nat) -> Page

  /** Positions increase along the chain, heights do not decrease, and what is found in an entry is
      at that entry's place. */
  ghost predicate Ordered(chain: seq<ChainEntry>) {
    && (forall i, j :: 0 <= i < j < |chain| ==>
        chain[i].mmrIndex < chain[j].mmrIndex && chain[i].height <= chain[j].height)
    && (forall i :: 0 <= i < |chain| && chain[i].owner.Some? ==>
          chain[i].owner.value.mmrIndex == chain[i].mmrIndex && chain[i].owner.value.height == chain[i].height)
  }

  /** The entries at positions `lo` to `hi`. */
  function Between(chain: seq<ChainEntry>, lo: int, hi: int): seq<ChainEntry> {
    if chain == [] then []
    else if lo <= chain[0].mmrIndex <= hi then [chain[0]] + Between(chain[1..], lo, hi)
    else Between(chain[1..], lo, hi)
  }

  /** The wallet's outputs among some entries, in their order. */
  function Identify(entries: seq<ChainEntry>): seq<ChainOut> {
    if entries == [] then []
    else if entries[0].owner.Some? then [entries[0].owner.value] + Identify(entries[1..])
    else Identify(entries[1..])
  }

  /** The node serves a fixed chain: a page holds all there is from its first index up to its last
      one, an unfinished page moves on, and a finished one leaves nothing behind. */
  ghost predicate Serves(node: Node, chain: seq<ChainEntry>) {
    forall start: nat, end: nat ::
      var page := node(start, end, PAGE_SIZE);
      && page.highest <= end
      && page.outputs == Between(chain, start, if page.last < end then page.last else end)
      && (page.last < page.highest ==> start <= page.last)
      && (page.highest <= page.last ==> Between(chain, page.last + 1, end) == [])
  }

  // ---------- Filters ----------

  lemma {:induction false} BetweenSplits(chain: seq<ChainEntry>, lo: int, mid: int, hi: int)
    requires Ordered(chain) && lo <= mid + 1 && mid <= hi
    ensures Between(chain, lo, mid) + Between(chain, mid + 1, hi) == Between(chain, lo, hi)
  {
    if chain != [] {
      var e, rest := chain[0], chain[1..];
      assert Ordered(rest);
      BetweenSplits(rest, lo, mid, hi);
      var low, high := Between(rest, lo, mid), Between(rest, mid + 1, hi);
      if e.mmrIndex > mid {
        BeyondIsEmpty(chain, lo, mid);
        assert low == Between(chain, lo, mid) == [];
        assert [] + high == high;
      } else if lo <= e.mmrIndex {
        Assoc([e], low, high);
      }
    }
  }

  lemma {:induction false} BeyondIsEmpty(chain: seq<ChainEntry>, lo: int, mid: int)
    requires Ordered(chain) && chain != [] && chain[0].mmrIndex > mid
    ensures Between(chain, lo, mid) == []
  {
    if |chain| > 1 { BeyondIsEmpty(chain[1..], lo, mid); }
  }

  lemma {:induction false} EmptyRange(chain: seq<ChainEntry>, lo: int, hi: int)
    requires hi < lo
    ensures Between(chain, lo, hi) == []
  {
    if chain != [] { EmptyRange(chain[1..], lo, hi); }
  }

  lemma {:induction false} IdentifyAppends(a: seq<ChainEntry>, b: seq<ChainEntry>)
    ensures Identify(a + b) == Identify(a) + Identify(b)
  {
    if a == [] {
      assert a + b == b;
    } else {
      assert (a + b)[0] == a[0] && (a + b)[1..] == a[1..] + b;
      IdentifyAppends(a[1..], b);
      if a[0].owner.Some? { Assoc([a[0].owner.value], Identify(a[1..]), Identify(b)); }
    }
  }

  // ---------- The loop over pages ----------

  /** The collected outputs are those of one unpaged pass over the chain. */
  method CollectChainOutputs(node: Node, ghost chain: seq<ChainEntry>, batchStart: nat, batchEnd: nat)
    returns (outs: seq<ChainOut>, last: nat)
    requires Ordered(chain) && Serves(node, chain)
    ensures outs == Identify(Between(chain, batchStart, batchEnd))
  {
    var start := batchStart;
    outs := [];
    EmptyRange(chain, batchStart, batchStart - 1);
    while true
      invariant batchStart <= start && (start > batchStart ==> start <= batchEnd)
      invariant outs == Identify(Between(chain, batchStart, start - 1))
      decreases batchEnd + 1 - start
    {
      var page := node(start, batchEnd, PAGE_SIZE);
      PageExtends(node, chain, batchStart, start, batchEnd);
      outs := outs + Identify(page.outputs);
      if page.highest <= page.last {
        return outs, page.last;
      }
      start := page.last + 1;
    }
  }

  /** The last position a page settles: all there is up to it has been seen. */
  function Settled(page: Page, end: nat): nat {
    if page.highest <= page.last then end else page.last
  }

  lemma PageExtends(node: Node, chain: seq<ChainEntry>, batchStart: nat, start: nat, end: nat)
    requires Ordered(chain) && Serves(node, chain) && batchStart <= start && (start > batchStart ==> start <= end)
    ensures var page := node(start, end, PAGE_SIZE);
      Identify(Between(chain, batchStart, start - 1)) + Identify(page.outputs) ==
      Identify(Between(chain, batchStart, Settled(page, end)))
  {
    var page := node(start, end, PAGE_SIZE);
    IdentifyAppends(Between(chain, batchStart, start - 1), page.outputs);
    PageHolds(node, chain, start, end);
    if start <= end {
      BetweenSplits(chain, batchStart, start - 1, Settled(page, end));
    } else {
      hide Ordered, Serves, Between, Identify;
      EmptyRange(chain, batchStart, start - 1);
      EmptyRange(chain, batchStart, end);
    }
  }

  /** A page holds exactly what lies from its first index to the position it settles. */
  lemma PageHolds(node: Node, chain: seq<ChainEntry>, start: nat, end: nat)
    requires Ordered(chain) && Serves(node, chain)
    ensures var page := node(start, end, PAGE_SIZE);
      page.outputs == Between(chain, start, Settled(page, end)) && Settled(page, end) <= end
      && (start <= end ==> start <= Settled(page, end))
  {
    var page := node(start, end, PAGE_SIZE);
    assert page.outputs == Between(chain, start, if page.last < end then page.last else end);
    assert page.highest <= end;
    assert page.highest <= page.last ==> Between(chain, page.last + 1, end) == [];
    if page.highest <= page.last {
      hide Ordered, Serves, Between;
      if start > end {
        EmptyRange(chain, start, if page.last < end then page.last else end);
        EmptyRange(chain, start, end);
      } else if page.last < end {
        FinishedPage(chain, start, page.last, end);
      }
    }
  }

  lemma FinishedPage(chain: seq<ChainEntry>, start: nat, last: nat, end: nat)
    requires Ordered(chain) && start <= end && last < end && Between(chain, last + 1, end) == []
    ensures Between(chain, start, last) == Between(chain, start, end)
  {
    hide Ordered, Between;
    if start <= last + 1 {
      BetweenSplits(chain, start, last, end);
    } else {
      EmptyRange(chain, start, last);
      BetweenSplits(chain, last + 1, start - 1, end);
    }
  }

  // ---------- What is collected ----------

  /** In chain order, without repetition, and complete. */
  lemma {:induction false} CollectedExactly(chain: seq<ChainEntry>, lo: int, hi: int)
    requires Ordered(chain)
    ensures var outs := Identify(Between(chain, lo, hi));
      && (forall i, j :: 0 <= i < j < |outs| ==> outs[i].mmrIndex < outs[j].mmrIndex)
      && (forall c :: c in outs <==> lo <= c.mmrIndex <= hi && Pays(chain, c))
  {
    if chain != [] {
      var rest := chain[1..];
      CollectedExactly(rest, lo, hi);
      CollectsHead(chain, lo, hi);
      hide Between, Identify;
      var outs, tail := Identify(Between(chain, lo, hi)), Identify(Between(rest, lo, hi));
      forall c ensures Pays(chain, c) <==> Pays(rest, c) || chain[0].owner == Some(c) {
        PaysHead(chain, c);
      }
      forall c | c in tail ensures c.mmrIndex > chain[0].mmrIndex {
        LaterPays(chain, c);
      }
    }
  }

  /** Some entry of the chain is the wallet's output `c`. */
  ghost predicate Pays(chain: seq<ChainEntry>, c: ChainOut) {
    exists i :: 0 <= i < |chain| && chain[i].owner == Some(c)
  }

  lemma CollectsHead(chain: seq<ChainEntry>, lo: int, hi: int)
    requires chain != []
    ensures Identify(Between(chain, lo, hi)) ==
            if lo <= chain[0].mmrIndex <= hi && chain[0].owner.Some?
            then [chain[0].owner.value] + Identify(Between(chain[1..], lo, hi))
            else Identify(Between(chain[1..], lo, hi))
  {
    if lo <= chain[0].mmrIndex <= hi {
      var rest := Between(chain[1..], lo, hi);
      assert ([chain[0]] + rest)[0] == chain[0] && ([chain[0]] + rest)[1..] == rest;
    }
  }

  lemma PaysHead(chain: seq<ChainEntry>, c: ChainOut)
    requires chain != []
    ensures Pays(chain, c) <==> Pays(chain[1..], c) || chain[0].owner == Some(c)
  {
    if Pays(chain[1..], c) {
      var i :| 0 <= i < |chain[1..]| && chain[1..][i].owner == Some(c);
      assert chain[i + 1].owner == Some(c);
    }
  }

  lemma LaterPays(chain: seq<ChainEntry>, c: ChainOut)
    requires Ordered(chain) && chain != [] && Pays(chain[1..], c)
    ensures c.mmrIndex > chain[0].mmrIndex
  {
    var i :| 0 <= i < |chain[1..]| && chain[1..][i].owner == Some(c);
    assert chain[i + 1].owner == Some(c);
  }
}
