/** The published return and variance are those of the real evaluator, for every valid table. */
module GameMath {
  import opened Rng
  import opened Sums
  import opened Game

  /** What a symbol of probability p pays per unit staked: three of a kind at p^3, a leading pair
      at p^2 (1 - p). */
  function Share(p: real, three: real, two: real): real { p * p * p * three + p * p * (1.0 - p) * two }

  function ShareOf(total: real, three: Symbol -> real, two: Symbol -> real): Symbol -> real
    requires total != 0.0
  {
    (s: Symbol) => Share(s.weight as real / total, three(s), two(s))
  }

  function Over(ss: seq<Symbol>, f: Symbol -> real): real { if ss == [] then 0.0 else f(ss[0]) + Over(ss[1..], f) }

  /** Expected payout per unit staked, as the table derives it. */
  function ClosedMean(ss: seq<Symbol>, total: real, three: Symbol -> real, two: Symbol -> real): real
    requires total != 0.0
  {
    Over(ss, ShareOf(total, three, two))
  }

  const PAY_THREE: Symbol -> real := (s: Symbol) => s.payThree
  const PAY_TWO: Symbol -> real := (s: Symbol) => s.payTwo
  const PAY_THREE_SQUARED: Symbol -> real := (s: Symbol) => s.payThree * s.payThree
  const PAY_TWO_SQUARED: Symbol -> real := (s: Symbol) => s.payTwo * s.payTwo

  function RTP(p: Paytable): real {
    if Weight(p.symbols) == 0 then 0.0 else ClosedMean(p.symbols, Weight(p.symbols) as real, PAY_THREE, PAY_TWO)
  }

  function SecondMoment(p: Paytable): real {
    if Weight(p.symbols) == 0 then 0.0 else ClosedMean(p.symbols, Weight(p.symbols) as real, PAY_THREE_SQUARED, PAY_TWO_SQUARED)
  }

  function VarianceOf(second: real, mean: real): real { second - mean * mean }

  function Variance(p: Paytable): real { if Weight(p.symbols) == 0 then 0.0 else VarianceOf(SecondMoment(p), RTP(p)) }

  lemma MeanStep(ss: seq<Symbol>, i: nat, total: real, three: Symbol -> real, two: Symbol -> real)
    requires total != 0.0 && i < |ss|
    ensures ClosedMean(ss[i..], total, three, two) ==
      Share(ss[i].weight as real / total, three(ss[i]), two(ss[i])) + ClosedMean(ss[i + 1..], total, three, two)
  {
    assert ss[i..][0] == ss[i] && ss[i..][1..] == ss[i + 1..];
  }

  method TheoreticalRTP(p: Paytable) returns (rtp: real)
    ensures rtp == RTP(p)
  {
    var weight := TotalWeight(p);
    if weight == 0 {
      return 0.0;
    }
    var total := weight as real;
    rtp := 0.0;
    var i := 0;
    while i < |p.symbols|
      invariant 0 <= i <= |p.symbols|
      invariant rtp + ClosedMean(p.symbols[i..], total, PAY_THREE, PAY_TWO) == RTP(p)
    {
      var s := p.symbols[i];
      var prob := s.weight as real / total;
      var three := prob * prob * prob * s.payThree;
      var two := prob * prob * (1.0 - prob) * s.payTwo;
      MeanStep(p.symbols, i, total, PAY_THREE, PAY_TWO);
      assert Share(prob, PAY_THREE(s), PAY_TWO(s)) == three + two;
      rtp := rtp + three + two;
      i := i + 1;
    }
  }

  method TheoreticalVariance(p: Paytable) returns (variance: real)
    ensures variance == Variance(p)
  {
    var weight := TotalWeight(p);
    if weight == 0 {
      return 0.0;
    }
    var total := weight as real;
    var second := 0.0;
    var i := 0;
    while i < |p.symbols|
      invariant 0 <= i <= |p.symbols|
      invariant second + ClosedMean(p.symbols[i..], total, PAY_THREE_SQUARED, PAY_TWO_SQUARED) == SecondMoment(p)
    {
      var s := p.symbols[i];
      var prob := s.weight as real / total;
      var three := prob * prob * prob * (s.payThree * s.payThree);
      var two := prob * prob * (1.0 - prob) * (s.payTwo * s.payTwo);
      MeanStep(p.symbols, i, total, PAY_THREE_SQUARED, PAY_TWO_SQUARED);
      ShareSquared(s, prob, three, two);
      second := second + three + two;
      i := i + 1;
    }
    var mean := TheoreticalRTP(p);
    return VarianceOf(second, mean);
  }

  lemma ShareSquared(s: Symbol, prob: real, three: real, two: real)
    requires three == prob * prob * prob * (s.payThree * s.payThree) && two == prob * prob * (1.0 - prob) * (s.payTwo * s.payTwo)
    ensures Share(prob, PAY_THREE_SQUARED(s), PAY_TWO_SQUARED(s)) == three + two
  {
  }

  // --------------------------------------------------------------------------
  // The strip gives each symbol exactly its weight
  // --------------------------------------------------------------------------

  predicate PositiveWeights(ss: seq<Symbol>) { forall i :: 0 <= i < |ss| ==> ss[i].weight > 0 }

  lemma {:induction false} WeightPositive(ss: seq<Symbol>)
    requires PositiveWeights(ss)
    ensures Weight(ss) >= 0 && (ss != [] ==> Weight(ss) > 0)
  {
    if ss != [] { WeightPositive(ss[1..]); }
  }

  lemma {:induction false} WalkInRange(ss: seq<Symbol>, roll: int)
    requires PositiveWeights(ss) && roll >= 0
    ensures roll < Weight(ss) <==> Walk(ss, roll) < |ss|
  {
    if ss != [] {
      WeightPositive(ss[1..]);
      if roll >= ss[0].weight { WalkInRange(ss[1..], roll - ss[0].weight); }
    }
  }

  /** Weighted sum over the strip's symbols. */
  function Weighted(ss: seq<Symbol>, g: int -> real): real
    requires PositiveWeights(ss)
  {
    if ss == [] then 0.0
    else Weighted(ss[..|ss| - 1], g) + Repeat(ss[|ss| - 1].weight, g(|ss| - 1))
  }

  lemma {:induction false} WeightSnoc(ss: seq<Symbol>)
    requires ss != []
    ensures Weight(ss) == Weight(ss[..|ss| - 1]) + ss[|ss| - 1].weight
  {
    if |ss| > 1 {
      WeightSnoc(ss[1..]);
      assert ss[1..][..|ss| - 2] == ss[..|ss| - 1][1..];
    }
  }

  lemma {:induction false} WalkSnoc(ss: seq<Symbol>, roll: int)
    requires ss != [] && PositiveWeights(ss)
    ensures roll < Weight(ss[..|ss| - 1]) ==> Walk(ss, roll) == Walk(ss[..|ss| - 1], roll)
    ensures Weight(ss[..|ss| - 1]) <= roll < Weight(ss) ==> Walk(ss, roll) == |ss| - 1
  {
    if |ss| > 1 {
      WalkSnoc(ss[1..], roll - ss[0].weight);
      assert ss[1..][..|ss| - 2] == ss[..|ss| - 1][1..];
      WeightPositive(ss[..|ss| - 1][1..]);
    }
  }

  function OnStrip(ss: seq<Symbol>, g: int -> real): int -> real { i => g(Walk(ss, i)) }

  /** Over all rolls the strip visits each symbol exactly as often as its weight says. */
  lemma {:induction false} StripVisits(ss: seq<Symbol>, g: int -> real)
    requires PositiveWeights(ss)
    ensures Weight(ss) >= 0
    ensures Sum(Weight(ss), OnStrip(ss, g)) == Weighted(ss, g)
    decreases |ss|
  {
    WeightPositive(ss);
    if ss != [] {
      var n := |ss| - 1;
      var init := ss[..n];
      StripVisits(init, g);
      WeightSnoc(ss);
      var f := OnStrip(ss, g);
      forall i | 0 <= i < Weight(ss) ensures f(i) == if i < Weight(init) then OnStrip(init, g)(i) else g(n) {
        WalkSnoc(ss, i);
      }
      SumExt(Weight(init), f, OnStrip(init, g));
      SumTail(Weight(init), Weight(ss), f, g(n));
    }
  }

  /** A function that is x at one position and y elsewhere. */
  ghost predicate Spike(n: nat, b: nat, x: real, y: real, g: int -> real) {
    forall c :: 0 <= c < n ==> g(c) == if c == b then x else y
  }

  lemma {:induction false} WeightCovers(ss: seq<Symbol>, b: nat)
    requires PositiveWeights(ss) && b < |ss|
    ensures 0 < ss[b].weight <= Weight(ss)
  {
    WeightPositive(ss[1..]);
    if b > 0 { WeightCovers(ss[1..], b - 1); }
  }

  /** Weight b's share of x plus everything else's share of y. */
  function SpikeValue(ss: seq<Symbol>, b: nat, x: real, y: real): real
    requires PositiveWeights(ss) && b < |ss|
  {
    WeightCovers(ss, b);
    Repeat(ss[b].weight, x) + Repeat(Weight(ss) - ss[b].weight, y)
  }

  lemma SpikeSnoc(ss: seq<Symbol>, b: nat, x: real, y: real)
    requires PositiveWeights(ss) && b < |ss|
    ensures var init, w := ss[..|ss| - 1], ss[|ss| - 1].weight;
      && Weight(init) >= 0
      && (b < |init| ==> SpikeValue(ss, b, x, y) == SpikeValue(init, b, x, y) + Repeat(w, y))
      && (b == |init| ==> SpikeValue(ss, b, x, y) == Repeat(Weight(init), y) + Repeat(w, x))
  {
    var init, w := ss[..|ss| - 1], ss[|ss| - 1].weight;
    WeightSnoc(ss);
    WeightPositive(init);
    if b < |init| {
      WeightCovers(init, b);
      RepeatAdds(Weight(init) - init[b].weight, w, y);
    }
  }

  lemma {:induction false} WeightedFlat(ss: seq<Symbol>, b: nat, x: real, y: real, g: int -> real)
    requires PositiveWeights(ss) && Spike(|ss|, b, x, y, g) && b >= |ss|
    ensures Weight(ss) >= 0 && Weighted(ss, g) == Repeat(Weight(ss), y)
    decreases |ss|
  {
    WeightPositive(ss);
    if ss != [] {
      var init := ss[..|ss| - 1];
      WeightedFlat(init, b, x, y, g);
      WeightSnoc(ss);
      RepeatAdds(Weight(init), ss[|ss| - 1].weight, y);
    }
  }

  lemma {:induction false} WeightedSpike(ss: seq<Symbol>, b: nat, x: real, y: real, g: int -> real)
    requires PositiveWeights(ss) && Spike(|ss|, b, x, y, g) && b < |ss|
    ensures Weighted(ss, g) == SpikeValue(ss, b, x, y)
    decreases |ss|
  {
    var init := ss[..|ss| - 1];
    SpikeSnoc(ss, b, x, y);
    if b == |init| { WeightedFlat(init, b, x, y, g); } else { WeightedSpike(init, b, x, y, g); }
  }

  // --------------------------------------------------------------------------
  // Summing a line payout over all W^3 rolls
  // --------------------------------------------------------------------------

  type Payout = Symbol -> real

  /** What three strip positions pay. */
  function Pay(ss: seq<Symbol>, three: Payout, two: Payout, a: int, b: int, c: int): real {
    if !(0 <= a < |ss|) || a != b then 0.0 else if b == c then three(ss[a]) else two(ss[a])
  }

  function RollPay(ss: seq<Symbol>, three: Payout, two: Payout): Triple {
    (i, j, k) => Pay(ss, three, two, Walk(ss, i), Walk(ss, j), Walk(ss, k))
  }

  function WeightedShare(w: real, total: real, three: real, two: real): real { w * (w * (w * three + (total - w) * two)) }

  function WeightedShareOf(total: real, three: Payout, two: Payout): Payout {
    (s: Symbol) => WeightedShare(s.weight as real, total, three(s), two(s))
  }

  /** The closed form over weights: sum of w^3 three + w^2 (W - w) two. */
  function Closed(ss: seq<Symbol>, total: real, three: Payout, two: Payout): real {
    Over(ss, WeightedShareOf(total, three, two))
  }

  lemma {:induction false} OverSnoc(ss: seq<Symbol>, last: Symbol, f: Payout)
    ensures Over(ss + [last], f) == Over(ss, f) + f(last)
  {
    if ss != [] {
      assert (ss + [last])[1..] == ss[1..] + [last];
      OverSnoc(ss[1..], last, f);
    } else {
      assert [last][1..] == [] && [] + [last] == [last];
    }
  }

  lemma {:induction false} OverScales(ss: seq<Symbol>, c: real, f: Payout, g: Payout)
    requires forall s :: c * f(s) == g(s)
    ensures c * Over(ss, f) == Over(ss, g)
  {
    if ss != [] {
      OverScales(ss[1..], c, f, g);
      Distribute(c, Over(ss, f), f(ss[0]), Over(ss[1..], f), g(ss[0]), Over(ss[1..], g));
    }
  }

  function LastReel(ss: seq<Symbol>, three: Payout, two: Payout, a: int, b: int): real
    requires PositiveWeights(ss) && 0 <= a < |ss|
  {
    if a == b then SpikeValue(ss, a, three(ss[a]), two(ss[a])) else 0.0
  }

  function PayAt(ss: seq<Symbol>, three: Payout, two: Payout, a: int, b: int): int -> real {
    c => Pay(ss, three, two, a, b, c)
  }

  lemma WeightedPay(ss: seq<Symbol>, three: Payout, two: Payout, a: nat, b: nat)
    requires PositiveWeights(ss) && a < |ss|
    ensures Weighted(ss, PayAt(ss, three, two, a, b)) == LastReel(ss, three, two, a, b)
  {
    var g := PayAt(ss, three, two, a, b);
    if a == b {
      assert Spike(|ss|, a, three(ss[a]), two(ss[a]), g);
      WeightedSpike(ss, a, three(ss[a]), two(ss[a]), g);
    } else {
      assert Spike(|ss|, |ss|, 0.0, 0.0, g);
      WeightedFlat(ss, |ss|, 0.0, 0.0, g);
      RepeatOfZero(Weight(ss));
    }
  }

  lemma SumLastReel(ss: seq<Symbol>, three: Payout, two: Payout, i: nat, j: nat)
    requires PositiveWeights(ss) && i < Weight(ss)
    ensures Walk(ss, i) < |ss|
    ensures SumLast(Weight(ss), RollPay(ss, three, two), i, j)
      == Weighted(ss, PayAt(ss, three, two, Walk(ss, i), Walk(ss, j)))
  {
    WalkInRange(ss, i);
    var f := RollPay(ss, three, two);
    var g := PayAt(ss, three, two, Walk(ss, i), Walk(ss, j));
    StripVisits(ss, g);
    forall k | 0 <= k < Weight(ss) ensures f(i, j, k) == OnStrip(ss, g)(k) { }
    SumExt(Weight(ss), Third(f, i, j), OnStrip(ss, g));
  }

  function LastReels(ss: seq<Symbol>, three: Payout, two: Payout, a: int): int -> real
    requires PositiveWeights(ss) && 0 <= a < |ss|
  {
    b => LastReel(ss, three, two, a, b)
  }

  /** What the first reel's symbol contributes: its weight squared over the pair payouts. */
  function FirstReel(ss: seq<Symbol>, three: Payout, two: Payout): int -> real
    requires PositiveWeights(ss)
  {
    a => if 0 <= a < |ss| then Repeat(ss[a].weight, LastReel(ss, three, two, a, a)) else 0.0
  }

  lemma LastReelsAreSpike(ss: seq<Symbol>, three: Payout, two: Payout, a: nat)
    requires PositiveWeights(ss) && a < |ss|
    ensures Spike(|ss|, a, LastReel(ss, three, two, a, a), 0.0, LastReels(ss, three, two, a))
  {
  }

  lemma WeightedLastReels(ss: seq<Symbol>, three: Payout, two: Payout, a: nat)
    requires PositiveWeights(ss) && a < |ss|
    ensures Weighted(ss, LastReels(ss, three, two, a)) == FirstReel(ss, three, two)(a)
  {
    LastReelsAreSpike(ss, three, two, a);
    WeightedSpike(ss, a, LastReel(ss, three, two, a, a), 0.0, LastReels(ss, three, two, a));
    WeightCovers(ss, a);
    RepeatOfZero(Weight(ss) - ss[a].weight);
  }

  lemma SumLastTwoReels(ss: seq<Symbol>, three: Payout, two: Payout, i: nat)
    requires PositiveWeights(ss) && i < Weight(ss)
    ensures Walk(ss, i) < |ss|
    ensures SumLastTwo(Weight(ss), RollPay(ss, three, two), i) == Weighted(ss, LastReels(ss, three, two, Walk(ss, i)))
  {
    WalkInRange(ss, i);
    var a := Walk(ss, i);
    var g := LastReels(ss, three, two, a);
    var h := Second(Weight(ss), RollPay(ss, three, two), i);
    forall j | 0 <= j < Weight(ss) ensures h(j) == OnStrip(ss, g)(j) {
      SumLastReel(ss, three, two, i, j);
      WeightedPay(ss, three, two, a, Walk(ss, j));
    }
    StripVisits(ss, g);
    SumExt(Weight(ss), h, OnStrip(ss, g));
  }

  /** A symbol's contribution over all three reels as a product of real weights. */
  lemma ShareIs(w: nat, rest: nat, total: real, x: real, y: real)
    requires total == (w + rest) as real
    ensures Repeat(w, Repeat(w, Repeat(w, x) + Repeat(rest, y))) == WeightedShare(w as real, total, x, y)
  {
    RepeatIsProduct(w, x);
    RepeatIsProduct(rest, y);
    RepeatIsProduct(w, Repeat(w, x) + Repeat(rest, y));
    RepeatIsProduct(w, Repeat(w, Repeat(w, x) + Repeat(rest, y)));
    assert rest as real == total - w as real;
  }

  lemma {:induction false} WeightedIsClosed(ss: seq<Symbol>, n: nat, three: Payout, two: Payout)
    requires PositiveWeights(ss) && n <= |ss|
    ensures Weighted(ss[..n], FirstReel(ss, three, two)) == Closed(ss[..n], Weight(ss) as real, three, two)
  {
    if n > 0 {
      WeightedIsClosed(ss, n - 1, three, two);
      assert ss[..n][..n - 1] == ss[..n - 1] && ss[..n][n - 1] == ss[n - 1];
      assert ss[..n] == ss[..n - 1] + [ss[n - 1]];
      OverSnoc(ss[..n - 1], ss[n - 1], WeightedShareOf(Weight(ss) as real, three, two));
      WeightCovers(ss, n - 1);
      ShareIs(ss[n - 1].weight, Weight(ss) - ss[n - 1].weight, Weight(ss) as real, three(ss[n - 1]), two(ss[n - 1]));
    }
  }

  lemma TripleSum(ss: seq<Symbol>, w: real, three: Payout, two: Payout)
    requires PositiveWeights(ss) && w == Weight(ss) as real
    ensures Weight(ss) >= 0
    ensures Sum3(Weight(ss), RollPay(ss, three, two)) == Closed(ss, w, three, two)
  {
    WeightPositive(ss);
    var g := FirstReel(ss, three, two);
    var h := First(Weight(ss), RollPay(ss, three, two));
    forall i | 0 <= i < Weight(ss) ensures h(i) == OnStrip(ss, g)(i) {
      SumLastTwoReels(ss, three, two, i);
      WeightedLastReels(ss, three, two, Walk(ss, i));
    }
    StripVisits(ss, g);
    SumExt(Weight(ss), h, OnStrip(ss, g));
    WeightedIsClosed(ss, |ss|, three, two);
    assert ss[..|ss|] == ss;
  }

  lemma ShareScales(r: real, w: real, t: real, x: real, y: real)
    requires t > 0.0 && r == t * (t * t)
    ensures r * Share(w / t, x, y) == WeightedShare(w, t, x, y)
  {
    var p := w / t;
    assert p * t == w;
    ShareOfProduct(p, t, x, y);
  }

  lemma ShareOfProduct(p: real, t: real, x: real, y: real)
    ensures t * (t * t) * Share(p, x, y) == WeightedShare(p * t, t, x, y)
  {
    var w := p * t;
    assert t * (t * t) * (p * p * p * x) == w * (w * (w * x));
    assert t * (t * t) * (p * p * (1.0 - p) * y) == w * (w * ((t - w) * y));
  }

  /** The number of rolls turns the expected payout into the closed form over weights. */
  lemma ClosedMeanScales(ss: seq<Symbol>, n: nat, t: real, three: Payout, two: Payout)
    requires n > 0 && t == n as real
    ensures Rolls(n) * ClosedMean(ss, t, three, two) == Closed(ss, t, three, two)
  {
    var f, g := ShareOf(t, three, two), WeightedShareOf(t, three, two);
    RollsIsCube(n);
    forall s ensures Rolls(n) * f(s) == g(s) { ShareScales(Rolls(n), s.weight as real, t, three(s), two(s)); }
    OverScales(ss, Rolls(n), f, g);
  }

  // --------------------------------------------------------------------------
  // The real evaluator
  // --------------------------------------------------------------------------

  /** No paying pair can break the ceiling.  A symbol that fills the whole strip never leaves
      a bare pair, so its pair payout is exempt. */
  predicate PairsWithinCeiling(p: Paytable) {
    forall i :: 0 <= i < |p.symbols| && p.symbols[i].weight < Weight(p.symbols) ==> p.symbols[i].payTwo <= p.maxWin
  }

  lemma {:induction false} FindById(ss: seq<Symbol>, a: nat)
    requires DistinctIds(ss) && a < |ss|
    ensures Find(ss, ss[a].id) == a
  {
    if a > 0 {
      assert ss[0].id != ss[a].id;
      FindById(ss[1..], a - 1);
    }
  }

  lemma ValidWeights(p: Paytable)
    requires ValidTable(p)
    ensures PositiveWeights(p.symbols)
  {
    forall i | 0 <= i < |p.symbols| ensures p.symbols[i].weight > 0 { assert SymbolOk(p, p.symbols[i]); }
  }

  /** On a valid table three rolls are scored by strip position: the evaluator refuses only a
      bare pair whose payout exceeds the ceiling. */
  lemma RolledPays(p: Paytable, i: nat, j: nat, k: nat)
    requires ValidTable(p) && i < Weight(p.symbols) && j < Weight(p.symbols) && k < Weight(p.symbols)
    ensures var pay := Pay(p.symbols, PAY_THREE, PAY_TWO, Walk(p.symbols, i), Walk(p.symbols, j), Walk(p.symbols, k));
      && (Rolled(p, i, j, k).Scored? <==> pay <= p.maxWin)
      && (pay <= p.maxWin ==> Rolled(p, i, j, k).outcome.multiplier == pay)
  {
    ValidWeights(p);
    var ss := p.symbols;
    WalkInRange(ss, i);
    WalkInRange(ss, j);
    WalkInRange(ss, k);
    var a, b, c := Walk(ss, i), Walk(ss, j), Walk(ss, k);
    FindById(ss, a);
    FindById(ss, b);
    FindById(ss, c);
    assert SymbolOk(p, ss[a]);
  }

  /** What the outcome shows: the three symbols, and the line and symbol it pays on, which are none
      exactly when it pays nothing. */
  lemma RolledShows(p: Paytable, i: nat, j: nat, k: nat)
    requires ValidTable(p) && i < Weight(p.symbols) && j < Weight(p.symbols) && k < Weight(p.symbols)
    ensures Walk(p.symbols, i) < |p.symbols| && Walk(p.symbols, j) < |p.symbols| && Walk(p.symbols, k) < |p.symbols|
    ensures Rolled(p, i, j, k).Scored? ==>
      var a, b, c := p.symbols[Walk(p.symbols, i)], p.symbols[Walk(p.symbols, j)], p.symbols[Walk(p.symbols, k)];
      var o := Rolled(p, i, j, k).outcome;
      && o.gameId == p.gameId != "" && o.version == p.version != "" && o.reels == [a.id, b.id, c.id]
      && (o.line.LineThree? <==> a.id == b.id == c.id && a.payThree > 0.0)
      && (o.line.LineTwo? <==> a.id == b.id && b.id != c.id && a.payTwo > 0.0)
      && (o.line.LineNone? <==> !o.IsWin()) && o.winSymbol == (if o.IsWin() then a.id else "") && (o.winSymbol != "" <==> o.IsWin())
  {
    ValidWeights(p);
    var ss := p.symbols;
    WalkInRange(ss, i);
    WalkInRange(ss, j);
    WalkInRange(ss, k);
    FindById(ss, Walk(ss, i));
    FindById(ss, Walk(ss, j));
    assert SymbolOk(p, ss[Walk(ss, i)]);
  }

  lemma {:induction false} StripHits(ss: seq<Symbol>, a: nat) returns (roll: nat)
    requires PositiveWeights(ss) && a < |ss|
    ensures roll < Weight(ss) && Walk(ss, roll) == a
  {
    WeightPositive(ss[1..]);
    if a == 0 {
      roll := 0;
    } else {
      var r := StripHits(ss[1..], a - 1);
      roll := r + ss[0].weight;
    }
  }

  lemma {:induction false} LighterHasOther(ss: seq<Symbol>, a: nat) returns (b: nat)
    requires PositiveWeights(ss) && a < |ss| && ss[a].weight < Weight(ss)
    ensures b < |ss| && b != a
  {
    assert Weight(ss) == ss[0].weight + Weight(ss[1..]) && Weight([]) == 0;
    assert |ss| > 1 || ss[1..] == [];
    b := if a == 0 then 1 else 0;
  }

  lemma {:induction false} HeavyIsAlone(ss: seq<Symbol>, a: nat)
    requires PositiveWeights(ss) && a < |ss| && ss[a].weight >= Weight(ss)
    ensures |ss| == 1
  {
    WeightPositive(ss[1..]);
    if a > 0 { HeavyIsAlone(ss[1..], a - 1); }
  }

  /** Validation bounds three of a kind but not a pair.  The spin is therefore total on a
      valid table exactly when every pair that can be rolled pays within the ceiling. */
  lemma SpinTotalExactly(p: Paytable)
    requires ValidTable(p)
    ensures (forall i, j, k ::
               0 <= i < Weight(p.symbols) && 0 <= j < Weight(p.symbols) && 0 <= k < Weight(p.symbols) ==> Rolled(p, i, j, k).Scored?)
      <==> PairsWithinCeiling(p)
  {
    var ss := p.symbols;
    ValidWeights(p);
    if PairsWithinCeiling(p) {
      forall i, j, k | 0 <= i < Weight(ss) && 0 <= j < Weight(ss) && 0 <= k < Weight(ss)
        ensures Rolled(p, i, j, k).Scored?
      {
        RolledPays(p, i, j, k);
        WalkInRange(ss, i);
        WalkInRange(ss, k);
        var a := Walk(ss, i);
        assert SymbolOk(p, ss[a]);
        if ss[a].weight >= Weight(ss) { HeavyIsAlone(ss, a); }
      }
    } else {
      var a :| 0 <= a < |ss| && ss[a].weight < Weight(ss) && ss[a].payTwo > p.maxWin;
      var b := LighterHasOther(ss, a);
      var i := StripHits(ss, a);
      var k := StripHits(ss, b);
      RolledPays(p, i, i, k);
      assert !Rolled(p, i, i, k).Scored?;
    }
  }

  /** A table that passes validation and still refuses a roll. */
  lemma ValidationMissesPairs()
    ensures exists p: Paytable :: ValidTable(p) && !PairsWithinCeiling(p)
  {
    var ss := [Symbol("A", 1, 1.0, 9.0), Symbol("B", 1, 1.0, 0.0)];
    var p := Paytable("g", "1", 1.0, ss, 2.0);
    assert ss[1..] == [Symbol("B", 1, 1.0, 0.0)] && ss[1..][1..] == [];
    assert Weight(ss) == 2;
    assert p.symbols[0].payTwo == 9.0;
    assert ValidTable(p) && !PairsWithinCeiling(p);
  }

  /** The multiplier three rolls pay through the evaluator. */
  function Multiplier(p: Paytable): Triple {
    (i, j, k) => if Rolled(p, i, j, k).Scored? then Rolled(p, i, j, k).outcome.multiplier else 0.0
  }

  function Squared(f: Triple): Triple { (i, j, k) => f(i, j, k) * f(i, j, k) }

  function Deviation(f: Triple, m: real): Triple { (i, j, k) => (f(i, j, k) - m) * (f(i, j, k) - m) }

  function Shifted(f: Triple, c: real): Triple { (i, j, k) => f(i, j, k) * f(i, j, k) + c * f(i, j, k) }

  /** The multiplier of three rolls, before the ceiling is consulted. */
  function LinePay(p: Paytable): Triple { RollPay(p.symbols, PAY_THREE, PAY_TWO) }

  lemma SquaredLinePay(p: Paytable)
    requires Weight(p.symbols) >= 0
    ensures Sum3(Weight(p.symbols), Squared(LinePay(p)))
      == Sum3(Weight(p.symbols), RollPay(p.symbols, PAY_THREE_SQUARED, PAY_TWO_SQUARED))
  {
    Sum3Ext(Weight(p.symbols), Squared(LinePay(p)), RollPay(p.symbols, PAY_THREE_SQUARED, PAY_TWO_SQUARED));
  }

  lemma MultiplierIsPay(p: Paytable)
    requires ValidTable(p) && PairsWithinCeiling(p)
    ensures forall i, j, k | 0 <= i < Weight(p.symbols) && 0 <= j < Weight(p.symbols) && 0 <= k < Weight(p.symbols) ::
      Multiplier(p)(i, j, k) == LinePay(p)(i, j, k)
  {
    SpinTotalExactly(p);
    forall i, j, k | 0 <= i < Weight(p.symbols) && 0 <= j < Weight(p.symbols) && 0 <= k < Weight(p.symbols)
      ensures Multiplier(p)(i, j, k) == LinePay(p)(i, j, k)
    {
      assert Rolled(p, i, j, k).Scored?;
      RolledPays(p, i, j, k);
    }
  }

  /** The average of a line payout over all rolls, by its closed form. */
  lemma LineMoment(ss: seq<Symbol>, w: real, three: Payout, two: Payout)
    requires PositiveWeights(ss) && ss != [] && w == Weight(ss) as real
    ensures w > 0.0 && Weight(ss) > 0
    ensures Averages(Sum3(Weight(ss), RollPay(ss, three, two)), Rolls(Weight(ss)), ClosedMean(ss, w, three, two))
  {
    WeightPositive(ss);
    TripleSum(ss, w, three, two);
    ClosedMeanScales(ss, Weight(ss), w, three, two);
  }

  /** `mean` is the average of a sum over `rolls` rolls. */
  predicate Averages(sum: real, rolls: real, mean: real) { sum == rolls * mean }

  lemma LineMean(p: Paytable)
    requires ValidTable(p)
    ensures Weight(p.symbols) > 0
    ensures Averages(Sum3(Weight(p.symbols), LinePay(p)), Rolls(Weight(p.symbols)), RTP(p))
  {
    LineMoment(p.symbols, Weight(p.symbols) as real, PAY_THREE, PAY_TWO);
  }

  lemma LineSecondMoment(p: Paytable)
    requires ValidTable(p)
    ensures Weight(p.symbols) > 0
    ensures Averages(Sum3(Weight(p.symbols), Squared(LinePay(p))), Rolls(Weight(p.symbols)), SecondMoment(p))
  {
    ValidWeights(p);
    SquaredLinePay(p);
    LineMoment(p.symbols, Weight(p.symbols) as real, PAY_THREE_SQUARED, PAY_TWO_SQUARED);
  }

  lemma ExpandSquare(x: real, m: real)
    ensures (x - m) * (x - m) == (x * x + (-2.0 * m) * x) + m * m
    ensures (x - m) * (x - m) >= 0.0
  {
  }

  lemma DeviationCombines(n: nat, f: Triple, m: real)
    ensures Combines(n, 1.0, Shifted(f, -2.0 * m), 1.0, Everywhere(m * m), Deviation(f, m))
  {
    forall i, j, k | 0 <= i < n && 0 <= j < n && 0 <= k < n
      ensures Deviation(f, m)(i, j, k) == 1.0 * Shifted(f, -2.0 * m)(i, j, k) + 1.0 * Everywhere(m * m)(i, j, k)
    {
      ExpandSquare(f(i, j, k), m);
    }
  }

  lemma ShiftedSum(n: nat, f: Triple, c: real)
    ensures Sum3(n, Shifted(f, c)) == Sum3(n, Squared(f)) + c * Sum3(n, f)
  {
    ShiftedCombines(n, f, c);
    Sum3Linear(n, 1.0, Squared(f), c, f, Shifted(f, c));
  }

  lemma ShiftedCombines(n: nat, f: Triple, c: real)
    ensures Combines(n, 1.0, Squared(f), c, f, Shifted(f, c))
  {
  }

  lemma DeviationSum(n: nat, f: Triple, m: real)
    ensures Sum3(n, Deviation(f, m)) == Sum3(n, Squared(f)) + (-2.0 * m) * Sum3(n, f) + (m * m) * Rolls(n)
  {
    var c, d := -2.0 * m, m * m;
    ShiftedSum(n, f, c);
    DeviationCombines(n, f, m);
    Sum3Linear(n, 1.0, Shifted(f, c), 1.0, Everywhere(d), Deviation(f, m));
    Sum3Constant(n, d);
  }

  lemma CancelSquares(deviation: real, c: real, s1: real, s2: real, second: real, m: real, v: real)
    requires deviation == s2 + (-2.0 * m) * s1 + (m * m) * c && s1 == c * m && s2 == c * second && v == VarianceOf(second, m)
    ensures deviation == c * v
  {
  }

  lemma DeviationExt(n: nat, f: Triple, g: Triple, m: real)
    requires forall i, j, k :: 0 <= i < n && 0 <= j < n && 0 <= k < n ==> f(i, j, k) == g(i, j, k)
    ensures Sum3(n, Deviation(f, m)) == Sum3(n, Deviation(g, m))
  {
    Sum3Ext(n, Deviation(f, m), Deviation(g, m));
  }

  lemma LineVariance(p: Paytable)
    requires ValidTable(p)
    ensures Weight(p.symbols) > 0
    ensures Averages(Sum3(Weight(p.symbols), Deviation(LinePay(p), RTP(p))), Rolls(Weight(p.symbols)), Variance(p))
  {
    LineMean(p);
    LineSecondMoment(p);
    DeviationOf(Weight(p.symbols), LinePay(p), RTP(p), SecondMoment(p), Variance(p));
  }

  lemma DeviationOf(n: nat, f: Triple, mean: real, second: real, variance: real)
    requires Averages(Sum3(n, f), Rolls(n), mean) && Averages(Sum3(n, Squared(f)), Rolls(n), second)
    requires variance == VarianceOf(second, mean)
    ensures Averages(Sum3(n, Deviation(f, mean)), Rolls(n), variance)
  {
    DeviationSum(n, f, mean);
    CancelSquares(Sum3(n, Deviation(f, mean)), Rolls(n), Sum3(n, f), Sum3(n, Squared(f)), second, mean, variance);
  }

  /** The published return is the exact average multiplier of the real evaluator over all W^3
      rolls. */
  lemma ReturnIsExhaustiveMean(p: Paytable)
    requires ValidTable(p) && PairsWithinCeiling(p)
    ensures Weight(p.symbols) > 0
    ensures Sum3(Weight(p.symbols), Multiplier(p)) == Closed(p.symbols, Weight(p.symbols) as real, PAY_THREE, PAY_TWO)
    ensures Averages(Sum3(Weight(p.symbols), Multiplier(p)), Rolls(Weight(p.symbols)), RTP(p))
  {
    ValidWeights(p);
    MultiplierIsPay(p);
    Sum3Ext(Weight(p.symbols), Multiplier(p), LinePay(p));
    LineMean(p);
    TripleSum(p.symbols, Weight(p.symbols) as real, PAY_THREE, PAY_TWO);
  }

  /** The published variance is the exact mean squared deviation of the real evaluator over
      all W^3 rolls. */
  lemma VarianceIsExhaustive(p: Paytable)
    requires ValidTable(p) && PairsWithinCeiling(p)
    ensures Weight(p.symbols) > 0
    ensures Averages(Sum3(Weight(p.symbols), Deviation(Multiplier(p), RTP(p))), Rolls(Weight(p.symbols)), Variance(p))
  {
    LineVariance(p);
    MultiplierIsPay(p);
    DeviationExt(Weight(p.symbols), Multiplier(p), LinePay(p), RTP(p));
  }

  lemma SignOfFactor(sum: real, c: real, v: real)
    requires c > 0.0 && sum >= 0.0 && Averages(sum, c, v)
    ensures v >= 0.0
  {
    assert c * v / c == v;
  }

  lemma RollsPositive(n: nat)
    requires n > 0
    ensures Rolls(n) > 0.0
  {
    RollsIsCube(n);
    var w := n as real;
    assert w * w > 0.0;
    assert w * (w * w) > 0.0;
  }

  lemma DeviationNonNegative(n: nat, f: Triple, m: real)
    ensures Sum3(n, Deviation(f, m)) >= 0.0
  {
    forall i, j, k | 0 <= i < n && 0 <= j < n && 0 <= k < n ensures Deviation(f, m)(i, j, k) >= 0.0 {
      ExpandSquare(f(i, j, k), m);
    }
    Sum3NonNegative(n, Deviation(f, m));
  }

  /** No valid table has a negative variance: the guard before the square root can not fire. */
  lemma VarianceNeverNegative(p: Paytable)
    requires ValidTable(p)
    ensures Variance(p) >= 0.0
  {
    LineVariance(p);
    DeviationNonNegative(Weight(p.symbols), LinePay(p), RTP(p));
    RollsPositive(Weight(p.symbols));
    SignOfFactor(Sum3(Weight(p.symbols), Deviation(LinePay(p), RTP(p))), Rolls(Weight(p.symbols)), Variance(p));
  }

  /** One draw per reel, each from where the last one left the stream: the spin is the evaluator on
      the three values drawn, or the first draw that fails, and consumes what the draws consumed. */
  lemma DrawnIsRolled(p: Paytable, src: seq<Byte>)
    requires ValidTable(p) && Weight(p.symbols) < WORDS
    ensures var n := Weight(p.symbols);
      var (d1, src1) := DrawBelow(n, src);
      var (d2, src2) := DrawBelow(n, src1);
      var (d3, src3) := DrawBelow(n, src2);
      && (d1.Value? ==> d1.v < n) && (d2.Value? ==> d2.v < n) && (d3.Value? ==> d3.v < n)
      && Drawn(p, src, []) ==
           if !d1.Value? then (Refused(RngFailed(d1)), src1)
           else if !d2.Value? then (Refused(RngFailed(d2)), src2)
           else if !d3.Value? then (Refused(RngFailed(d3)), src3)
           else (Rolled(p, d1.v, d2.v, d3.v), src3)
  {
    ValidWeights(p);
    var n: nat := Weight(p.symbols);
    var ss := p.symbols;
    var (d1, src1) := DrawBelow(n, src);
    var (d2, src2) := DrawBelow(n, src1);
    var (d3, src3) := DrawBelow(n, src2);
    DrawExact(n, src);
    DrawExact(n, src1);
    DrawExact(n, src2);
    if d1.Value? {
      WalkInRange(ss, d1.v);
      var reels1 := [] + [ss[Walk(ss, d1.v)].id];
      assert Drawn(p, src, []) == Drawn(p, src1, reels1);
      if d2.Value? {
        WalkInRange(ss, d2.v);
        var reels2 := reels1 + [ss[Walk(ss, d2.v)].id];
        assert Drawn(p, src1, reels1) == Drawn(p, src2, reels2);
        if d3.Value? {
          WalkInRange(ss, d3.v);
          var reels3 := reels2 + [ss[Walk(ss, d3.v)].id];
          assert reels3 == [ss[Walk(ss, d1.v)].id, ss[Walk(ss, d2.v)].id, ss[Walk(ss, d3.v)].id];
          assert Drawn(p, src2, reels2) == Drawn(p, src3, reels3);
        }
      }
    }
  }
}
