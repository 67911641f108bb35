/** Finite sums of real-valued functions of an index, used by the game mathematics. */
module Sums {

  function Sum(n: nat, f: int -> real): real {
    if n == 0 then 0.0 else Sum(n - 1, f) + f(n - 1)
  }

  lemma {:induction false} SumExt(n: nat, f: int -> real, g: int -> real)
    requires forall i :: 0 <= i < n ==> f(i) == g(i)
    ensures Sum(n, f) == Sum(n, g)
  {
    if n > 0 { SumExt(n - 1, f, g); }
  }

  lemma {:induction false} SumNonNegative(n: nat, f: int -> real)
    requires forall i :: 0 <= i < n ==> f(i) >= 0.0
    ensures Sum(n, f) >= 0.0
  {
    if n > 0 { SumNonNegative(n - 1, f); }
  }

  function Constant(k: real): int -> real { i => k }

  lemma {:induction false} SumConstant(n: nat, k: real)
    ensures Sum(n, Constant(k)) == n as real * k
  {
    if n > 0 {
      SumConstant(n - 1, k);
      assert n as real * k == (n - 1) as real * k + k;
    }
  }

  /** x taken w times. */
  function Repeat(w: nat, x: real): real { if w == 0 then 0.0 else Repeat(w - 1, x) + x }

  lemma {:induction false} RepeatAdds(v: nat, w: nat, x: real)
    ensures Repeat(v + w, x) == Repeat(v, x) + Repeat(w, x)
  {
    if w > 0 { RepeatAdds(v, w - 1, x); }
  }

  lemma {:induction false} RepeatOfZero(w: nat)
    ensures Repeat(w, 0.0) == 0.0
  {
    if w > 0 { RepeatOfZero(w - 1); }
  }

  lemma {:induction false} RepeatIsProduct(w: nat, x: real)
    ensures Repeat(w, x) == w as real * x
  {
    if w > 0 {
      RepeatIsProduct(w - 1, x);
      assert w as real == (w - 1) as real + 1.0;
      assert ((w - 1) as real + 1.0) * x == (w - 1) as real * x + x;
    }
  }

  lemma {:induction false} SumTail(lo: nat, hi: nat, f: int -> real, c: real)
    requires lo <= hi && forall i :: lo <= i < hi ==> f(i) == c
    ensures Sum(hi, f) == Sum(lo, f) + Repeat(hi - lo, c)
    decreases hi
  {
    if lo < hi { SumTail(lo, hi - 1, f, c); }
  }

  type Triple = (int, int, int) -> real

  function Third(f: Triple, i: int, j: int): int -> real { k => f(i, j, k) }

  function SumLast(n: nat, f: Triple, i: int, j: int): real { Sum(n, Third(f, i, j)) }

  function Second(n: nat, f: Triple, i: int): int -> real { j => SumLast(n, f, i, j) }

  function SumLastTwo(n: nat, f: Triple, i: int): real { Sum(n, Second(n, f, i)) }

  function First(n: nat, f: Triple): int -> real { i => SumLastTwo(n, f, i) }

  /** The sum over all triples of draws below n. */
  function Sum3(n: nat, f: Triple): real { Sum(n, First(n, f)) }

  lemma Sum3Ext(n: nat, f: Triple, g: Triple)
    requires forall i, j, k :: 0 <= i < n && 0 <= j < n && 0 <= k < n ==> f(i, j, k) == g(i, j, k)
    ensures Sum3(n, f) == Sum3(n, g)
  {
    forall i | 0 <= i < n ensures SumLastTwo(n, f, i) == SumLastTwo(n, g, i) {
      forall j | 0 <= j < n ensures SumLast(n, f, i, j) == SumLast(n, g, i, j) {
        SumExt(n, Third(f, i, j), Third(g, i, j));
      }
      SumExt(n, Second(n, f, i), Second(n, g, i));
    }
    SumExt(n, First(n, f), First(n, g));
  }

  /** A product over a sum whose parts are known. */
  lemma Distribute(c: real, whole: real, u: real, v: real, cu: real, cv: real)
    requires whole == u + v && c * u == cu && c * v == cv
    ensures c * whole == cu + cv
  {
  }

  lemma {:induction false} SumLinear(n: nat, a: real, f: int -> real, b: real, g: int -> real, h: int -> real)
    requires forall i :: 0 <= i < n ==> h(i) == a * f(i) + b * g(i)
    ensures Sum(n, h) == a * Sum(n, f) + b * Sum(n, g)
  {
    if n > 0 {
      SumLinear(n - 1, a, f, b, g, h);
      LinearStep(a, Sum(n, f), Sum(n - 1, f), f(n - 1), b, Sum(n, g), Sum(n - 1, g), g(n - 1), Sum(n - 1, h), h(n - 1));
    }
  }

  lemma LinearStep(a: real, f: real, f0: real, f1: real, b: real, g: real, g0: real, g1: real, h0: real, h1: real)
    requires f == f0 + f1 && g == g0 + g1 && h0 == a * f0 + b * g0 && h1 == a * f1 + b * g1
    ensures h0 + h1 == a * f + b * g
  {
    Distribute(a, f, f0, f1, a * f0, a * f1);
    Distribute(b, g, g0, g1, b * g0, b * g1);
  }

  ghost predicate Combines(n: nat, a: real, f: Triple, b: real, g: Triple, h: Triple) {
    forall i, j, k :: 0 <= i < n && 0 <= j < n && 0 <= k < n ==> h(i, j, k) == a * f(i, j, k) + b * g(i, j, k)
  }

  lemma SumLastLinear(n: nat, a: real, f: Triple, b: real, g: Triple, h: Triple, i: int, j: int)
    requires Combines(n, a, f, b, g, h) && 0 <= i < n && 0 <= j < n
    ensures SumLast(n, h, i, j) == a * SumLast(n, f, i, j) + b * SumLast(n, g, i, j)
  {
    SumLinear(n, a, Third(f, i, j), b, Third(g, i, j), Third(h, i, j));
  }

  lemma SumLastTwoLinear(n: nat, a: real, f: Triple, b: real, g: Triple, h: Triple, i: int)
    requires Combines(n, a, f, b, g, h) && 0 <= i < n
    ensures SumLastTwo(n, h, i) == a * SumLastTwo(n, f, i) + b * SumLastTwo(n, g, i)
  {
    forall j | 0 <= j < n ensures Second(n, h, i)(j) == a * Second(n, f, i)(j) + b * Second(n, g, i)(j) {
      SumLastLinear(n, a, f, b, g, h, i, j);
    }
    SumLinear(n, a, Second(n, f, i), b, Second(n, g, i), Second(n, h, i));
  }

  lemma Sum3Linear(n: nat, a: real, f: Triple, b: real, g: Triple, h: Triple)
    requires Combines(n, a, f, b, g, h)
    ensures Sum3(n, h) == a * Sum3(n, f) + b * Sum3(n, g)
  {
    forall i | 0 <= i < n ensures First(n, h)(i) == a * First(n, f)(i) + b * First(n, g)(i) {
      SumLastTwoLinear(n, a, f, b, g, h, i);
    }
    SumLinear(n, a, First(n, f), b, First(n, g), First(n, h));
  }

  function Everywhere(c: real): Triple { (i, j, k) => c }

  /** How many triples of draws below n there are. */
  function Rolls(n: nat): real { Sum3(n, Everywhere(1.0)) }

  lemma RollsIsCube(n: nat)
    ensures Rolls(n) == n as real * (n as real * n as real)
  {
    var f := Everywhere(1.0);
    var w := n as real;
    forall i | 0 <= i < n ensures SumLastTwo(n, f, i) == w * w {
      forall j | 0 <= j < n ensures SumLast(n, f, i, j) == w {
        SumConstant(n, 1.0);
        SumExt(n, Third(f, i, j), Constant(1.0));
      }
      SumConstant(n, w);
      SumExt(n, Second(n, f, i), Constant(w));
    }
    SumConstant(n, w * w);
    SumExt(n, First(n, f), Constant(w * w));
  }

  lemma Sum3Constant(n: nat, c: real)
    ensures Sum3(n, Everywhere(c)) == c * Rolls(n)
  {
    assert Combines(n, c, Everywhere(1.0), 0.0, Everywhere(1.0), Everywhere(c));
    Sum3Linear(n, c, Everywhere(1.0), 0.0, Everywhere(1.0), Everywhere(c));
  }

  lemma Sum3NonNegative(n: nat, f: Triple)
    requires forall i, j, k :: 0 <= i < n && 0 <= j < n && 0 <= k < n ==> f(i, j, k) >= 0.0
    ensures Sum3(n, f) >= 0.0
  {
    forall i | 0 <= i < n ensures SumLastTwo(n, f, i) >= 0.0 {
      forall j | 0 <= j < n ensures SumLast(n, f, i, j) >= 0.0 {
        SumNonNegative(n, Third(f, i, j));
      }
      SumNonNegative(n, Second(n, f, i));
    }
    SumNonNegative(n, First(n, f));
  }
}
