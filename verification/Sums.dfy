/** Sums over sequences and finite sets. */
module Sums {
  lemma Assoc<T>(a: seq<T>, b: seq<T>, c: seq<T>)
    ensures a + b + c == a + (b + c)
  {
  }

  function SumBy<T>(s: seq<T>, f: T -> int): int {
    if s == [] then 0 else f(s[0]) + SumBy(s[1..], f)
  }

  lemma {:induction false} SumByAppend<T>(s: seq<T>, t: seq<T>, f: T -> int)
    ensures SumBy(s + t, f) == SumBy(s, f) + SumBy(t, f)
  {
    if s == [] {
      assert s + t == t;
    } else {
      assert (s + t)[1..] == s[1..] + t;
      SumByAppend(s[1..], t, f);
    }
  }

  lemma SumBySnoc<T>(s: seq<T>, x: T, f: T -> int)
    ensures SumBy(s + [x], f) == SumBy(s, f) + f(x)
  {
    SumByAppend(s, [x], f);
  }

  /** The sum of `f` over a finite set, independent of the order of enumeration. */
  ghost function SumSet<T>(s: set<T>, f: T -> int): int {
    if s == {} then 0 else
      var x :| x in s;
      f(x) + SumSet(s - {x}, f)
  }

  lemma {:induction false} SumSetRemove<T>(s: set<T>, x: T, f: T -> int)
    requires x in s
    ensures SumSet(s, f) == f(x) + SumSet(s - {x}, f)
  {
    var y :| y in s && SumSet(s, f) == f(y) + SumSet(s - {y}, f);
    if y != x {
      SumSetRemove(s - {y}, x, f);
      SumSetRemove(s - {x}, y, f);
      assert s - {y} - {x} == s - {x} - {y};
    }
  }

  lemma SumSetAdd<T>(s: set<T>, x: T, f: T -> int)
    requires x !in s
    ensures SumSet(s + {x}, f) == SumSet(s, f) + f(x)
  {
    SumSetRemove(s + {x}, x, f);
    assert s + {x} - {x} == s;
  }

  ghost predicate Distinct<T>(s: seq<T>) {
    forall i, j :: 0 <= i < j < |s| ==> s[i] != s[j]
  }

  ghost function Image<S, T>(s: seq<S>, f: S -> T): set<T> {
    set x | x in s :: f(x)
  }

  lemma ImageStep<S, T>(s: seq<S>, f: S -> T)
    requires s != []
    ensures Image(s, f) == Image(s[1..], f) + {f(s[0])}
  {
    assert s == [s[0]] + s[1..];
  }

  /** Summing over the set of images of a list, when no two images coincide, is summing over
      the list; and the set has as many elements as the list. */
  lemma {:induction false} SumImage<S, T>(s: seq<S>, f: S -> T, g: T -> int, h: S -> int)
    requires forall i, j :: 0 <= i < j < |s| ==> f(s[i]) != f(s[j])
    requires forall x :: x in s ==> g(f(x)) == h(x)
    ensures SumSet(Image(s, f), g) == SumBy(s, h)
    ensures |Image(s, f)| == |s|
  {
    if s != [] {
      var rest, y := s[1..], f(s[0]);
      SumImage(rest, f, g, h);
      assert y !in Image(rest, f);
      ImageStep(s, f);
      SumSetAdd(Image(rest, f), y, g);
      assert s[0] in s && g(y) == h(s[0]);
    }
  }
}
