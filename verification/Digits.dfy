/** Numbers written with a fixed number of digits in some base, most significant digit first. */
module Digits {
  function Pow(b: nat, n: nat): (p: nat)
    requires b > 0
    ensures p > 0
    decreases n
  {
    if n == 0 then 1 else b * Pow(b, n - 1)
  }

  function ToDigits(x: nat, b: nat, len: nat): (ds: seq<nat>)
    requires b > 0
    ensures |ds| == len
    decreases len
  {
    if len == 0 then [] else ToDigits(x / b, b, len - 1) + [x % b]
  }

  function FromDigits(ds: seq<nat>, b: nat): nat
    decreases |ds|
  {
    if ds == [] then 0 else FromDigits(ds[..|ds| - 1], b) * b + ds[|ds| - 1]
  }

  predicate InBase(ds: seq<nat>, b: nat) {
    forall i :: 0 <= i < |ds| ==> ds[i] < b
  }

  // ---------- Division ----------

  lemma Monotone(m: int, n: int, b: nat)
    requires m <= n
    ensures m * b <= n * b
  {
  }

  /** A non-zero multiple of `b` is at least `b` away from zero. */
  lemma FarFromZero(k: int, b: nat)
    requires k != 0
    ensures k * b >= b || k * b + b <= 0
  {
    if k > 0 { Monotone(1, k, b); } else { Monotone(k, -1, b); }
  }

  lemma DivUnique(q: nat, r: nat, b: nat)
    requires r < b
    ensures (q * b + r) / b == q && (q * b + r) % b == r
  {
    var n := q * b + r;
    var k := n / b - q;
    assert n == (n / b) * b + n % b;
    assert k * b == (n / b) * b - q * b;
    if k != 0 { FarFromZero(k, b); }
  }

  lemma QuotientBelow(x: nat, b: nat, p: nat)
    requires b > 0 && x < b * p
    ensures x / b < p
  {
    assert x == (x / b) * b + x % b;
    if p <= x / b { Monotone(p, x / b, b); }
  }

  lemma Widen(x: nat, d: nat, b: nat, p: nat)
    requires d < b && x < p
    ensures x * b + d < b * p
  {
    Monotone(x + 1, p, b);
    assert (x + 1) * b == x * b + b;
  }

  // ---------- Round trips ----------

  lemma {:induction false} DigitsInBase(x: nat, b: nat, len: nat)
    requires b > 0
    ensures InBase(ToDigits(x, b, len), b)
    decreases len
  {
    if len > 0 { DigitsInBase(x / b, b, len - 1); }
  }

  lemma FromSnoc(ds: seq<nat>, d: nat, b: nat)
    ensures FromDigits(ds + [d], b) == FromDigits(ds, b) * b + d
  {
    var all := ds + [d];
    assert all[..|all| - 1] == ds && all[|all| - 1] == d;
  }

  /** The first digit counts most. */
  lemma {:induction false} LeadingDigit(d: nat, ds: seq<nat>, b: nat)
    requires b > 0
    ensures FromDigits([d] + ds, b) == d * Pow(b, |ds|) + FromDigits(ds, b)
    decreases |ds|
  {
    var all := [d] + ds;
    if ds == [] {
      assert all[..0] == [] && all == [d];
      assert FromDigits(all, b) == FromDigits(all[..0], b) * b + d;
    } else {
      var init, last := ds[..|ds| - 1], ds[|ds| - 1];
      assert all[..|all| - 1] == [d] + init;
      LeadingDigit(d, init, b);
      assert (d * Pow(b, |init|) + FromDigits(init, b)) * b == d * (b * Pow(b, |init|)) + FromDigits(init, b) * b;
    }
  }

  lemma DivMod(x: nat, b: nat)
    requires b > 0
    ensures (x / b) * b + x % b == x
  {
  }

  lemma {:induction false} DigitsReadBack(x: nat, b: nat, len: nat)
    requires b > 0 && x < Pow(b, len)
    ensures FromDigits(ToDigits(x, b, len), b) == x
    decreases len
  {
    if len > 0 {
      QuotientBelow(x, b, Pow(b, len - 1));
      DigitsReadBack(x / b, b, len - 1);
      hide Pow, FromDigits;
      FromSnoc(ToDigits(x / b, b, len - 1), x % b, b);
      DivMod(x, b);
    }
  }

  lemma {:induction false} DigitsRewritten(ds: seq<nat>, b: nat)
    requires b > 0 && InBase(ds, b)
    ensures FromDigits(ds, b) < Pow(b, |ds|)
    ensures ToDigits(FromDigits(ds, b), b, |ds|) == ds
    decreases |ds|
  {
    if ds != [] {
      var init, d := ds[..|ds| - 1], ds[|ds| - 1];
      DigitsRewritten(init, b);
      var x := FromDigits(init, b);
      DivUnique(x, d, b);
      Widen(x, d, b, Pow(b, |init|));
      assert ds == init + [d];
    }
  }
}
