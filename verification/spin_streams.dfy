/** The spin over entropy streams: every sequence of rolls is drawn by equally many streams, so the
    published return and variance are those of the spin itself. */
module SpinStreams {
  import opened Rng
  import opened RngStreams
  import opened Sums
  import opened Tallies
  import opened Game
  import opened GameMath

  // --------------------------------------------------------------------------
  // Successive draws
  // --------------------------------------------------------------------------

  /** The stream's successive draws below n are exactly these values. */
  predicate Yields(n: nat, src: seq<Byte>, vs: seq<nat>)
    requires 0 < n < WORDS
    decreases |vs|
  {
    vs == [] || (DrawBelow(n, src).0 == Value(vs[0]) && Yields(n, DrawBelow(n, src).1, vs[1..]))
  }

  predicate AllBelow(n: nat, vs: seq<nat>) { forall i :: 0 <= i < |vs| ==> vs[i] < n }

  /** The stream that draws other values instead: each accepted word is moved within its block. */
  ghost function Redrawn(n: nat, src: seq<Byte>, vs: seq<nat>): seq<Byte>
    requires 0 < n < WORDS && AllBelow(n, vs)
    decreases |vs|
  {
    if vs != [] && exists k: nat :: FirstAccepted(n, src, k) then
      var k: nat :| FirstAccepted(n, src, k);
      Spliced(src, k, Move(n, WordAt(src, k), vs[0]), Redrawn(n, src[8 * (k + 1)..], vs[1..]))
    else src
  }

  lemma RedrawnAt(n: nat, src: seq<Byte>, vs: seq<nat>, k: nat)
    requires 0 < n < WORDS && vs != [] && AllBelow(n, vs) && FirstAccepted(n, src, k)
    ensures Redrawn(n, src, vs) == Spliced(src, k, Move(n, WordAt(src, k), vs[0]), Redrawn(n, src[8 * (k + 1)..], vs[1..]))
  {
    var k': nat :| FirstAccepted(n, src, k')
      && Redrawn(n, src, vs) == Spliced(src, k', Move(n, WordAt(src, k'), vs[0]), Redrawn(n, src[8 * (k' + 1)..], vs[1..]));
    FirstIsUnique(n, src, k, k');
  }

  /** The first draw of a spliced stream. */
  lemma SplicedDraws(n: nat, src: seq<Byte>, k: nat, r: nat, rest: seq<Byte>)
    requires 0 < n < WORDS && r < n && k < MAX_ATTEMPTS && FirstAccepted(n, src, k)
    ensures var v := WordAt(src, k);
      var to := Spliced(src, k, Move(n, v, r), rest);
      && Move(n, v, r) < WORDS && |to| == 8 * (k + 1) + |rest| && FirstAccepted(n, to, k) && DrawBelow(n, to) == (Value(r), rest)
      && WordAt(to, k) == Move(n, v, r) && v % n < n && Move(n, WordAt(to, k), v % n) == v && to[..8 * k] == src[..8 * k]
  {
    SplicedBack(src, k);
    MoveExact(n, WordAt(src, k), r);
    SplicedWords(src, k, Move(n, WordAt(src, k), r), rest);
    DrawExact(n, Spliced(src, k, Move(n, WordAt(src, k), r), rest));
  }

  /** Among all streams of any one length, every sequence of values below n is drawn by equally
      many: redrawing matches them one to one. */
  lemma {:induction false} DrawsAreUniform(n: nat, src: seq<Byte>, vs: seq<nat>, ws: seq<nat>)
    requires 0 < n < WORDS && Yields(n, src, vs) && |vs| == |ws| && AllBelow(n, ws)
    ensures AllBelow(n, vs)
    ensures |Redrawn(n, src, ws)| == |src| && Yields(n, Redrawn(n, src, ws), ws) && Redrawn(n, Redrawn(n, src, ws), vs) == src
    decreases |vs|
  {
    if vs != [] {
      DrawExact(n, src);
      var k: nat :| k < MAX_ATTEMPTS && FirstAccepted(n, src, k);
      var v, tail := WordAt(src, k), src[8 * (k + 1)..];
      DrawsAreUniform(n, tail, vs[1..], ws[1..]);
      assert forall i :: 0 <= i < |vs| ==> vs[i] == if i == 0 then v % n else vs[1..][i - 1];
      var moved := Redrawn(n, tail, ws[1..]);
      RedrawnAt(n, src, ws, k);
      SplicedDraws(n, src, k, ws[0], moved);
      var to := Spliced(src, k, Move(n, v, ws[0]), moved);
      RedrawnAt(n, to, vs, k);
      assert to[8 * (k + 1)..] == moved by { SplicedWords(src, k, Move(n, v, ws[0]), moved); }
      SplicedBack(src, k);
    }
  }

  // --------------------------------------------------------------------------
  // Three rolls from every stream of a length
  // --------------------------------------------------------------------------

  /** How many streams of that many bytes there are; stream t is the number t in bytes. */
  function Streams(width: nat): nat { Pow2(8 * width) }

  /** What three successive draws give, if all succeed. */
  function RollsOf(n: nat, src: seq<Byte>): Rolls3
    requires 0 < n < WORDS
  {
    var (d1, src1) := DrawBelow(n, src);
    var (d2, src2) := DrawBelow(n, src1);
    var (d3, src3) := DrawBelow(n, src2);
    if d1.Value? && d2.Value? && d3.Value? then ThreeRolls(d1.v, d2.v, d3.v) else NoRolls
  }

  function StreamRolls(n: nat, width: nat): Trial
    requires 0 < n < WORDS
  {
    (t: nat) => RollsOf(n, Encode(t, width))
  }

  lemma ThreeYields(n: nat, src: seq<Byte>, i: nat, j: nat, k: nat)
    requires 0 < n < WORDS
    ensures Yields(n, src, [i, j, k]) <==> RollsOf(n, src) == ThreeRolls(i, j, k)
  {
    var src1 := DrawBelow(n, src).1;
    var src2 := DrawBelow(n, src1).1;
    assert [i, j, k][1..] == [j, k] && [j, k][1..] == [k] && [k][1..] == [];
    assert Yields(n, src2, [k]) <==> DrawBelow(n, src2).0 == Value(k);
    assert Yields(n, src1, [j, k]) <==> DrawBelow(n, src1).0 == Value(j) && Yields(n, src2, [k]);
  }

  lemma RollsBelow(n: nat, src: seq<Byte>)
    requires 0 < n < WORDS
    ensures InRange(RollsOf(n, src), n)
  {
    var src1 := DrawBelow(n, src).1;
    DrawExact(n, src);
    DrawExact(n, src1);
    DrawExact(n, DrawBelow(n, src1).1);
  }

  lemma NumberOf(bytes: seq<Byte>)
    ensures BigEndian(bytes) < Streams(|bytes|) && Encode(BigEndian(bytes), |bytes|) == bytes
  {
    BytesBelow(bytes);
    EncodeRoundTrip(BigEndian(bytes), |bytes|);
    DecodeInjective(bytes, Encode(BigEndian(bytes), |bytes|));
  }

  /** Redrawing takes streams that roll one triple to streams that roll the other, and back. */
  lemma RedrawnRolls(n: nat, width: nat, vs: seq<nat>, ws: seq<nat>, t: nat)
    requires 0 < n < WORDS && |vs| == |ws| && AllBelow(n, ws) && t < Streams(width) && Yields(n, Encode(t, width), vs)
    ensures AllBelow(n, vs)
    ensures var u := BigEndian(Redrawn(n, Encode(t, width), ws));
      u < Streams(width) && Yields(n, Encode(u, width), ws) && BigEndian(Redrawn(n, Encode(u, width), vs)) == t
  {
    EncodeRoundTrip(t, width);
    DrawsAreUniform(n, Encode(t, width), vs, ws);
    NumberOf(Redrawn(n, Encode(t, width), ws));
  }

  /** Redrawing a stream that rolls one triple gives a stream that rolls the other. */
  lemma RedrawnHits(n: nat, width: nat, v: Rolls3, w: Rolls3, t: nat)
    requires 0 < n < WORDS && v.ThreeRolls? && w.ThreeRolls? && InRange(v, n) && InRange(w, n)
    requires t in Hits(StreamRolls(n, width), Streams(width), v.i, v.j, v.k)
    ensures var u := BigEndian(Redrawn(n, Encode(t, width), [w.i, w.j, w.k]));
      && u in Hits(StreamRolls(n, width), Streams(width), w.i, w.j, w.k)
      && BigEndian(Redrawn(n, Encode(u, width), [v.i, v.j, v.k])) == t
  {
    var u := BigEndian(Redrawn(n, Encode(t, width), [w.i, w.j, w.k]));
    ThreeYields(n, Encode(t, width), v.i, v.j, v.k);
    RedrawnRolls(n, width, [v.i, v.j, v.k], [w.i, w.j, w.k], t);
    ThreeYields(n, Encode(u, width), w.i, w.j, w.k);
  }

  lemma RolledAtLeastAsOften(n: nat, width: nat, v: Rolls3, w: Rolls3)
    requires 0 < n < WORDS && v.ThreeRolls? && w.ThreeRolls? && InRange(v, n) && InRange(w, n)
    ensures |Hits(StreamRolls(n, width), Streams(width), v.i, v.j, v.k)| <= |Hits(StreamRolls(n, width), Streams(width), w.i, w.j, w.k)|
  {
    var from, to := Hits(StreamRolls(n, width), Streams(width), v.i, v.j, v.k), Hits(StreamRolls(n, width), Streams(width), w.i, w.j, w.k);
    var f := (t: nat) => BigEndian(Redrawn(n, Encode(t, width), [w.i, w.j, w.k]));
    forall t | t in from ensures f(t) in to && BigEndian(Redrawn(n, Encode(f(t), width), [v.i, v.j, v.k])) == t {
      RedrawnHits(n, width, v, w, t);
    }
    NoSmallerImage(from, f, to);
  }

  /** How many streams roll any one triple. */
  ghost function Each(n: nat, width: nat): nat
    requires 0 < n < WORDS
  {
    |Hits(StreamRolls(n, width), Streams(width), 0, 0, 0)|
  }

  /** Every triple below n is rolled by equally many streams of any one length. */
  lemma RolledAsOften(n: nat, width: nat, i: nat, j: nat, k: nat)
    requires 0 < n < WORDS && i < n && j < n && k < n
    ensures |Hits(StreamRolls(n, width), Streams(width), i, j, k)| == Each(n, width)
  {
    RolledAtLeastAsOften(n, width, ThreeRolls(i, j, k), ThreeRolls(0, 0, 0));
    RolledAtLeastAsOften(n, width, ThreeRolls(0, 0, 0), ThreeRolls(i, j, k));
  }

  lemma StreamsRollEvenly(n: nat, width: nat)
    requires 0 < n < WORDS
    ensures EvenlyRolled(StreamRolls(n, width), n, Streams(width), Each(n, width))
  {
    forall t: nat | t < Streams(width) ensures InRange(StreamRolls(n, width)(t), n) { RollsBelow(n, Encode(t, width)); }
    forall i: nat, j: nat, k: nat | i < n && j < n && k < n
      ensures |Hits(StreamRolls(n, width), Streams(width), i, j, k)| == Each(n, width)
    {
      RolledAsOften(n, width, i, j, k);
    }
  }

  lemma SumOverStreams(n: nat, width: nat, g: Triple)
    requires 0 < n < WORDS
    ensures TimesOver(Sum(Streams(width), PerTrial(StreamRolls(n, width), g)), Each(n, width), Sum3(n, g))
  {
    StreamsRollEvenly(n, width);
    EvenTrials(StreamRolls(n, width), n, Streams(width), Each(n, width), g);
  }

  // --------------------------------------------------------------------------
  // The spin
  // --------------------------------------------------------------------------

  /** The spin on stream t. */
  function SpinOn(p: Paytable, width: nat, t: nat): Scored
    requires 0 < Weight(p.symbols) < WORDS
  {
    Drawn(p, Encode(t, width), []).0
  }

  /** A quantity of an outcome, and nothing for a spin that failed. */
  function Quantity(x: Outcome -> real, r: Scored): real { if r.Scored? then x(r.outcome) else 0.0 }

  function OverSpins(p: Paytable, width: nat, x: Outcome -> real): int -> real
    requires 0 < Weight(p.symbols) < WORDS
  {
    t => if t >= 0 then Quantity(x, SpinOn(p, width, t)) else 0.0
  }

  function OverRolls(p: Paytable, x: Outcome -> real): Triple { (i, j, k) => Quantity(x, Rolled(p, i, j, k)) }

  const ONE: Outcome -> real := (o: Outcome) => 1.0
  const PAYS: Outcome -> real := (o: Outcome) => o.multiplier

  function DeviatesFrom(m: real): Outcome -> real { (o: Outcome) => (o.multiplier - m) * (o.multiplier - m) }

  /** How many streams of that length complete a spin. */
  function Completed(p: Paytable, width: nat): real
    requires 0 < Weight(p.symbols) < WORDS
  {
    Sum(Streams(width), OverSpins(p, width, ONE))
  }

  lemma SpinIsRoll(p: Paytable, width: nat, x: Outcome -> real, t: nat)
    requires ValidTable(p) && Weight(p.symbols) < WORDS
    ensures Quantity(x, SpinOn(p, width, t)) == Worth(OverRolls(p, x), RollsOf(Weight(p.symbols), Encode(t, width)))
  {
    DrawnIsRolled(p, Encode(t, width));
  }

  lemma SameSums(n: nat, f: int -> real, g: int -> real)
    requires forall t: nat :: t < n ==> f(t) == g(t)
    ensures Sum(n, f) == Sum(n, g)
  {
    SumExt(n, f, g);
  }

  /** Summed over all streams, a quantity of the spin is its sum over all rolls, as often as each
      triple is rolled. */
  lemma SpinsAreRolls(p: Paytable, width: nat, x: Outcome -> real)
    requires ValidTable(p) && Weight(p.symbols) < WORDS
    ensures TimesOver(Sum(Streams(width), OverSpins(p, width, x)), Each(Weight(p.symbols), width),
      Sum3(Weight(p.symbols), OverRolls(p, x)))
  {
    var n := Weight(p.symbols);
    var f, g := OverSpins(p, width, x), PerTrial(StreamRolls(n, width), OverRolls(p, x));
    SumOverStreams(n, width, OverRolls(p, x));
    forall t: nat | t < Streams(width) ensures f(t) == g(t) { SpinIsRoll(p, width, x, t); }
    SameSums(Streams(width), f, g);
  }

  lemma MeanCarries(sum: real, each: nat, over: real, rolls: real, done: real, mean: real)
    requires TimesOver(sum, each, over) && TimesOver(done, each, rolls) && Averages(over, rolls, mean)
    ensures Averages(sum, done, mean)
  {
  }

  lemma OnesOnRolls(p: Paytable)
    requires ValidTable(p) && PairsWithinCeiling(p)
    ensures Weight(p.symbols) > 0 && Sum3(Weight(p.symbols), OverRolls(p, ONE)) == Rolls(Weight(p.symbols))
  {
    SpinTotalExactly(p);
    Sum3Ext(Weight(p.symbols), OverRolls(p, ONE), Everywhere(1.0));
  }

  /** The average over all rolls of a quantity of the evaluator is the average of that quantity of
      the spin, over the streams that complete one. */
  lemma SpinAverages(p: Paytable, width: nat, x: Outcome -> real, mean: real)
    requires ValidTable(p) && PairsWithinCeiling(p) && Weight(p.symbols) < WORDS
    requires Averages(Sum3(Weight(p.symbols), OverRolls(p, x)), Rolls(Weight(p.symbols)), mean)
    ensures Averages(Sum(Streams(width), OverSpins(p, width, x)), Completed(p, width), mean)
  {
    var n := Weight(p.symbols);
    SpinsAreRolls(p, width, x);
    SpinsAreRolls(p, width, ONE);
    OnesOnRolls(p);
    MeanCarries(Sum(Streams(width), OverSpins(p, width, x)), Each(n, width), Sum3(n, OverRolls(p, x)), Rolls(n),
      Completed(p, width), mean);
  }

  lemma PaysOnRolls(p: Paytable)
    requires ValidTable(p)
    ensures Sum3(Weight(p.symbols), OverRolls(p, PAYS)) == Sum3(Weight(p.symbols), Multiplier(p))
  {
    Sum3Ext(Weight(p.symbols), OverRolls(p, PAYS), Multiplier(p));
  }

  lemma DeviationOnRolls(p: Paytable, m: real)
    requires ValidTable(p) && PairsWithinCeiling(p)
    ensures Sum3(Weight(p.symbols), OverRolls(p, DeviatesFrom(m))) == Sum3(Weight(p.symbols), Deviation(Multiplier(p), m))
  {
    SpinTotalExactly(p);
    var f, g := OverRolls(p, DeviatesFrom(m)), Deviation(Multiplier(p), m);
    forall i, j, k | 0 <= i < Weight(p.symbols) && 0 <= j < Weight(p.symbols) && 0 <= k < Weight(p.symbols)
      ensures f(i, j, k) == g(i, j, k)
    {
      assert Rolled(p, i, j, k).Scored?;
    }
    Sum3Ext(Weight(p.symbols), f, g);
  }

  /** The published return and variance are the mean multiplier, and the mean squared deviation from
      it, of the spin over all entropy streams of any one length that complete one. */
  lemma SpinReturnsMean(p: Paytable, width: nat)
    requires ValidTable(p) && PairsWithinCeiling(p) && Weight(p.symbols) < WORDS
    ensures Averages(Sum(Streams(width), OverSpins(p, width, PAYS)), Completed(p, width), RTP(p))
    ensures Averages(Sum(Streams(width), OverSpins(p, width, DeviatesFrom(RTP(p)))), Completed(p, width), Variance(p))
  {
    ReturnIsExhaustiveMean(p);
    VarianceIsExhaustive(p);
    PaysOnRolls(p);
    DeviationOnRolls(p, RTP(p));
    SpinAverages(p, width, PAYS, RTP(p));
    SpinAverages(p, width, DeviatesFrom(RTP(p)), Variance(p));
  }

  // --------------------------------------------------------------------------
  // Some stream completes a spin
  // --------------------------------------------------------------------------

  /** The highest word is always accepted. */
  lemma TopWordDraws(n: nat, rest: seq<Byte>)
    requires 0 < n < WORDS
    ensures DrawBelow(n, Encode(WORDS - 1, 8) + rest).0.Value? && DrawBelow(n, Encode(WORDS - 1, 8) + rest).1 == rest
  {
    WordsIsPow2();
    EncodeRoundTrip(WORDS - 1, 8);
    var src := Encode(WORDS - 1, 8) + rest;
    assert src[8 * 0..8 * 1] == Encode(WORDS - 1, 8);
    ThresholdIsIncompleteBlock(n);
    assert FirstAccepted(n, src, 0);
    DrawExact(n, src);
    assert src[8..] == rest;
  }

  lemma {:induction false} SumAtLeast(n: nat, f: int -> real, t: nat)
    requires t < n && forall i :: 0 <= i < n ==> f(i) >= 0.0
    ensures Sum(n, f) >= f(t)
  {
    if t < n - 1 { SumAtLeast(n - 1, f, t); } else { SumNonNegative(n - 1, f); }
  }

  function Zeros(n: nat): (r: seq<Byte>)
    ensures |r| == n
  {
    if n == 0 then [] else Zeros(n - 1) + [0]
  }

  /** Three words are enough for some stream to complete a spin, so the averages are over something. */
  lemma SomeSpinCompletes(p: Paytable, width: nat)
    requires ValidTable(p) && PairsWithinCeiling(p) && Weight(p.symbols) < WORDS && width >= 24
    ensures Completed(p, width) > 0.0
  {
    var word, last := Encode(WORDS - 1, 8), Zeros(width - 24);
    TopWordDraws(Weight(p.symbols), last);
    TopWordDraws(Weight(p.symbols), word + last);
    TopWordDraws(Weight(p.symbols), word + (word + last));
    WordsIsPow2();
    EncodeRoundTrip(WORDS - 1, 8);
    var src := word + (word + (word + last));
    NumberOf(src);
    DrawnIsRolled(p, src);
    SpinTotalExactly(p);
    SumAtLeast(Streams(width), OverSpins(p, width, ONE), BigEndian(src));
  }
}
