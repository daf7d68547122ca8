/** Spreading the change of a transaction over several outputs
    (libwallet/src/internal/selection.rs, `inputs_and_change`). */
module ChangeSplit {
  import opened Wrappers
  import opened Sums
  import opened Digits
  import opened SlateTypes
  import opened ExchangeSpec
  import opened StandardRuns

  function Amount(x: nat): int { x }

  /** The amounts of `n` change outputs; `None` where the code divides by zero. */
  function Split(change: nat, n: nat): Option<seq<nat>> {
    if change == 0 then Some([])
    else if n == 0 || change / n == 0 then None
    else
      var part := change / n;
      Some(seq(n, i => if i == n - 1 then part + change % part else part))
  }

  /** The change amounts: `n - 1` equal ones and a last one with the remainder. `None` where the code
      divides by zero. */
  method SplitChange(change: nat, n: nat) returns (r: Option<seq<nat>>)
    ensures r.None? <==> change > 0 && (n == 0 || change < n)
    ensures change == 0 ==> r == Some([])
    ensures r == Split(change, n)
    ensures change > 0 && r.Some? ==>
              && n > 0 && change / n > 0 && |r.value| == n
              && (forall i :: 0 <= i < n - 1 ==> r.value[i] == change / n)
              && r.value[n - 1] == change / n + change % (change / n)
  {
    if change == 0 { return Some([]); }
    if n == 0 { return None; }
    var part := change / n;
    QuotientIsZeroIff(change, n);
    if part == 0 { return None; }
    var remainder := change % part;
    var amounts: seq<nat> := [];
    for x := 0 to n
      invariant |amounts| == x
      invariant forall i :: 0 <= i < x ==> amounts[i] == if i == n - 1 then part + remainder else part
    {
      amounts := amounts + [if x == n - 1 then part + remainder else part];
    }
    assert amounts == Split(change, n).value;
    r := Some(amounts);
  }

  lemma QuotientIsZeroIff(x: nat, n: nat)
    requires n > 0
    ensures x / n == 0 <==> x < n
  {
    if x < n { DivUnique(0, x, n); }
  }

  lemma {:induction false} EqualAmounts(s: seq<nat>, part: nat)
    requires forall i :: 0 <= i < |s| ==> s[i] == part
    ensures SumBy(s, Amount) == part * |s|
  {
    if s != [] {
      EqualAmounts(s[1..], part);
      assert part * |s| == part + part * (|s| - 1);
    }
  }

  /** The remainder is taken by the amount of one part, not by the number of parts, so the outputs add
      up to the change exactly when what does not divide evenly is smaller than one part. */
  lemma SplitAddsUpIff(change: nat, n: nat, amounts: seq<nat>)
    requires n > 0 && change / n > 0 && |amounts| == n
    requires forall i :: 0 <= i < n - 1 ==> amounts[i] == change / n
    requires amounts[n - 1] == change / n + change % (change / n)
    ensures SumBy(amounts, Amount) == change <==> change % n < change / n
  {
    var part, left := change / n, change % n;
    var init := amounts[..n - 1];
    EqualAmounts(init, part);
    assert amounts == init + [amounts[n - 1]];
    SumBySnoc(init, amounts[n - 1], Amount);
    Commutes(part, n, left, change);
    SumOfParts(part, n);
    if left < part { DivUnique(n, left, part); }
  }

  lemma Commutes(part: nat, n: nat, left: nat, change: nat)
    requires n > 0 && part == change / n && left == change % n
    ensures change == n * part + left
  {
  }

  lemma SumOfParts(part: nat, n: nat)
    requires n > 0
    ensures part * (n - 1) + part == n * part
  {
  }

  /** Ten over four outputs: two are lost. */
  lemma SplitLoses()
    ensures Split(10, 4).Some? && SumBy(Split(10, 4).value, Amount) == 8
  {
    var amounts := Split(10, 4).value;
    assert amounts == [2, 2, 2, 2];
    EqualAmounts(amounts, 2);
  }

  lemma {:induction false} SameAmounts(es: seq<Elem>, amounts: seq<nat>)
    requires |es| == |amounts| && forall i :: 0 <= i < |es| ==> es[i].amount == amounts[i]
    ensures SumBy(es, AmountOf) == SumBy(amounts, Amount)
  {
    if es != [] {
      SameAmounts(es[1..], amounts[1..]);
    }
  }

  /** A selection whose change is split this way meets the contract the exchange relies on exactly under
      the same condition. */
  lemma SpendsIff(sel: Selection, amount: nat, change: nat, n: nat)
    requires SumBy(sel.inputs, AmountOf) == amount + change + sel.fee
    requires Split(change, n).Some? && |sel.change| == |Split(change, n).value|
    requires forall i :: 0 <= i < |sel.change| ==> sel.change[i].amount == Split(change, n).value[i]
    ensures Spends(sel, amount) <==> change == 0 || change % n < change / n
  {
    SameAmounts(sel.change, Split(change, n).value);
    if change > 0 { SplitAddsUpIff(change, n, Split(change, n).value); }
  }
}
