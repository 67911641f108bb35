/** Sums over indexed trials: adding up what each trial's three rolls are worth is adding up all
    triples, each as often as it is rolled. */
module Tallies {
  import opened Sums

  datatype Rolls3 = NoRolls | ThreeRolls(i: nat, j: nat, k: nat)

  type Trial = nat -> Rolls3

  /** What a trial is worth, and nothing when it failed to roll. */
  function Worth(g: Triple, r: Rolls3): real { if r.ThreeRolls? then g(r.i, r.j, r.k) else 0.0 }

  function PerTrial(roll: Trial, g: Triple): int -> real { t => if t >= 0 then Worth(g, roll(t)) else 0.0 }

  /** The first m trials that roll (i, j, k). */
  ghost function Hits(roll: Trial, m: nat, i: nat, j: nat, k: nat): set<nat> {
    set t: nat | t < m && roll(t) == ThreeRolls(i, j, k)
  }

  ghost function Tally(roll: Trial, m: nat, g: Triple): Triple {
    (i, j, k) => if i >= 0 && j >= 0 && k >= 0 then |Hits(roll, m, i, j, k)| as real * g(i, j, k) else 0.0
  }

  /** A function that is x at one triple and zero elsewhere. */
  function Point(r: Rolls3, x: real): Triple { (i, j, k) => if r.ThreeRolls? && i == r.i && j == r.j && k == r.k then x else 0.0 }

  lemma {:induction false} SumPoint(n: nat, f: int -> real, a: nat, x: real)
    requires forall i :: 0 <= i < n ==> f(i) == if i == a then x else 0.0
    ensures Sum(n, f) == if a < n then x else 0.0
  {
    if n > 0 { SumPoint(n - 1, f, a, x); }
  }

  predicate InRange(r: Rolls3, n: nat) { r.ThreeRolls? ==> r.i < n && r.j < n && r.k < n }

  lemma Sum3Point(n: nat, r: Rolls3, x: real)
    requires InRange(r, n)
    ensures Sum3(n, Point(r, x)) == if r.ThreeRolls? then x else 0.0
  {
    var f := Point(r, x);
    if r.NoRolls? {
      Sum3Ext(n, f, Everywhere(0.0));
      Sum3Constant(n, 0.0);
    } else {
      forall i | 0 <= i < n ensures SumLastTwo(n, f, i) == if i == r.i then x else 0.0 {
        forall j | 0 <= j < n ensures SumLast(n, f, i, j) == if i == r.i && j == r.j then x else 0.0 {
          SumPoint(n, Third(f, i, j), r.k, if i == r.i && j == r.j then x else 0.0);
        }
        SumPoint(n, Second(n, f, i), r.j, if i == r.i then x else 0.0);
      }
      SumPoint(n, First(n, f), r.i, x);
    }
  }

  lemma HitsNext(roll: Trial, m: nat, i: nat, j: nat, k: nat)
    ensures |Hits(roll, m + 1, i, j, k)| == |Hits(roll, m, i, j, k)| + if roll(m) == ThreeRolls(i, j, k) then 1 else 0
  {
    var before, after := Hits(roll, m, i, j, k), Hits(roll, m + 1, i, j, k);
    assert after == before + if roll(m) == ThreeRolls(i, j, k) then {m} else {};
    assert m !in before;
  }

  lemma OneMore(count: nat, x: real)
    ensures (count + 1) as real * x == count as real * x + x
  {
    assert (count + 1) as real == count as real + 1.0;
  }

  lemma TimesOne(x: real, y: real)
    ensures 1.0 * x + 1.0 * y == x + y
  {
  }

  /** The next trial adds its worth to its own triple's tally. */
  lemma TallyNext(roll: Trial, n: nat, m: nat, g: Triple)
    ensures Combines(n, 1.0, Tally(roll, m, g), 1.0, Point(roll(m), Worth(g, roll(m))), Tally(roll, m + 1, g))
  {
    var before, point, after := Tally(roll, m, g), Point(roll(m), Worth(g, roll(m))), Tally(roll, m + 1, g);
    forall i, j, k | 0 <= i < n && 0 <= j < n && 0 <= k < n ensures after(i, j, k) == 1.0 * before(i, j, k) + 1.0 * point(i, j, k) {
      HitsNext(roll, m, i, j, k);
      OneMore(|Hits(roll, m, i, j, k)|, g(i, j, k));
      TimesOne(before(i, j, k), point(i, j, k));
    }
  }

  lemma TallyStarts(roll: Trial, n: nat, g: Triple)
    ensures Sum3(n, Tally(roll, 0, g)) == 0.0
  {
    var none := Tally(roll, 0, g);
    forall i, j, k | 0 <= i < n && 0 <= j < n && 0 <= k < n ensures none(i, j, k) == Everywhere(0.0)(i, j, k) {
      assert Hits(roll, 0, i, j, k) == {};
    }
    Sum3Ext(n, none, Everywhere(0.0));
    Sum3Constant(n, 0.0);
  }

  lemma {:induction false} SumByRolls(roll: Trial, n: nat, m: nat, g: Triple)
    requires forall t: nat :: t < m ==> InRange(roll(t), n)
    ensures Sum(m, PerTrial(roll, g)) == Sum3(n, Tally(roll, m, g))
  {
    if m == 0 {
      TallyStarts(roll, n, g);
    } else {
      var t, before := m - 1, Tally(roll, m - 1, g);
      var point := Point(roll(t), Worth(g, roll(t)));
      SumByRolls(roll, n, t, g);
      TallyNext(roll, n, t, g);
      Sum3Linear(n, 1.0, before, 1.0, point, Tally(roll, m, g));
      Sum3Point(n, roll(t), Worth(g, roll(t)));
      TimesOne(Sum3(n, before), Sum3(n, point));
    }
  }

  lemma SumScaled(n: nat, c: real, g: Triple, h: Triple)
    requires forall i, j, k :: 0 <= i < n && 0 <= j < n && 0 <= k < n ==> h(i, j, k) == c * g(i, j, k)
    ensures Sum3(n, h) == c * Sum3(n, g)
  {
    forall i, j, k | 0 <= i < n && 0 <= j < n && 0 <= k < n ensures h(i, j, k) == c * g(i, j, k) + 0.0 * g(i, j, k) {
    }
    Sum3Linear(n, c, g, 0.0, g, h);
  }

  /** All rolls of the first m trials are below n, and every triple below n is rolled `each` times. */
  ghost predicate EvenlyRolled(roll: Trial, n: nat, m: nat, each: nat) {
    && (forall t: nat :: t < m ==> InRange(roll(t), n))
    && (forall i: nat, j: nat, k: nat :: i < n && j < n && k < n ==> |Hits(roll, m, i, j, k)| == each)
  }

  predicate TimesOver(sum: real, each: nat, whole: real) { sum == each as real * whole }

  /** When every triple is rolled equally often, the sum over all trials is the sum over all triples,
      that often. */
  lemma EvenTrials(roll: Trial, n: nat, m: nat, each: nat, g: Triple)
    requires EvenlyRolled(roll, n, m, each)
    ensures TimesOver(Sum(m, PerTrial(roll, g)), each, Sum3(n, g))
  {
    SumByRolls(roll, n, m, g);
    SumScaled(n, each as real, g, Tally(roll, m, g));
  }

  lemma {:induction false} NoSmallerImage(s: set<nat>, f: nat -> nat, image: set<nat>)
    requires forall a :: a in s ==> f(a) in image
    requires forall a, b :: a in s && b in s && f(a) == f(b) ==> a == b
    ensures |s| <= |image|
    decreases |s|
  {
    if s != {} {
      var a :| a in s;
      NoSmallerImage(s - {a}, f, image - {f(a)});
    }
  }
}
