/** What the counter holds, exactly.  It is floored at zero at every step, so it is not the window's
    net loss but the worst net loss of any stretch of it that is still running. */
module WorstStretch {
  import opened Domain
  import opened Ledger
  import opened Limits
  import opened Windows
  import opened LossCounter

  /** The window's loss on the ledger after the first k operations. */
  function RawAfter(b: Book, p: Period, ops: seq<Timed>, k: nat, now: nat): Money
    requires k <= |ops|
  {
    RawAt(Run(b, ops[..k]), p, now)
  }

  /** What the ledger's loss has risen by since then. */
  function Rise(b: Book, p: Period, ops: seq<Timed>, k: nat, now: nat): Money
    requires k <= |ops|
  {
    RawAfter(b, p, ops, |ops|, now) - RawAfter(b, p, ops, k, now)
  }

  /** The largest rise since any moment of the run, counting what was there at the start. */
  ghost predicate IsWorst(worst: Money, start: Money, b: Book, p: Period, ops: seq<Timed>, now: nat) {
    && worst >= start + Rise(b, p, ops, 0, now)
    && (forall k :: 0 <= k <= |ops| ==> worst >= Rise(b, p, ops, k, now))
    && (worst == start + Rise(b, p, ops, 0, now) || exists k :: 0 <= k <= |ops| && worst == Rise(b, p, ops, k, now))
  }

  predicate InWindow(ops: seq<Timed>, p: Period, now: nat) {
    forall i :: 0 <= i < |ops| ==> OpOk(ops[i].op) && SameWindow(p, ops[i].at, now)
  }

  /** A fresh counter moves with the ledger and stops at zero. */
  lemma CounterFollows(b: Book, l: Limit, op: Op, at: nat, now: nat)
    requires b.limit == Some(l) && FreshRow(b.counters, l.period, now) && b.counters[l.period].amount >= 0
    requires OpOk(op) && SameWindow(l.period, at, now)
    ensures var after := Step(b, op, at);
      && after.limit == Some(l) && FreshRow(after.counters, l.period, now)
      && after.counters[l.period].amount ==
           Floored(b.counters[l.period].amount + RawAt(after, l.period, now) - RawAt(b, l.period, now))
  {
    var p := l.period;
    WindowsPartitionTime(p, now, at);
    WindowsPartitionTime(p, at, at);
    var losses := match op
      case PlaceBet(stake) => [stake]
      case PayWin(amount) => [-amount]
      case RollBack(total) => [-total]
      case PlaySpin(stake, win) => RoundLosses(stake, win);
    RawStamped(b.ledger, losses, at, WindowStart(p, now), WindowEnd(p, now));
  }

  lemma RiseSplits(b: Book, p: Period, ops: seq<Timed>, n: nat, k: nat, now: nat)
    requires k <= n <= |ops|
    ensures Rise(b, p, ops, k, now) == Rise(b, p, ops[..n], k, now) + Rise(b, p, ops, n, now)
  {
    assert ops[..n][..k] == ops[..k] && ops[..n][..n] == ops[..n];
  }

  lemma WorstGrows(c: Money, c': Money, start: Money, b: Book, p: Period, ops: seq<Timed>, now: nat)
    requires ops != [] && IsWorst(c, start, b, p, ops[..|ops| - 1], now) && start >= 0
    requires c' == Floored(c + Rise(b, p, ops, |ops| - 1, now))
    ensures IsWorst(c', start, b, p, ops, now)
  {
    var n := |ops| - 1;
    forall k | 0 <= k <= n ensures Rise(b, p, ops, k, now) == Rise(b, p, ops[..n], k, now) + Rise(b, p, ops, n, now) {
      RiseSplits(b, p, ops, n, k, now);
    }
    assert Rise(b, p, ops, n + 1, now) == 0;
    if c' == 0 {
      assert c' == Rise(b, p, ops, n + 1, now);
    } else if c != start + Rise(b, p, ops[..n], 0, now) {
      var k :| 0 <= k <= n && c == Rise(b, p, ops[..n], k, now);
      assert c' == Rise(b, p, ops, k, now);
    }
  }

  /** Over every run of operations within one window, settled and refused, a fresh counter is the
      largest rise of the ledger's loss since any moment of the run: a win takes it down, but never
      below zero and never into credit for a loss to come. */
  lemma {:induction false} CounterIsWorstStretch(b: Book, l: Limit, ops: seq<Timed>, now: nat)
    requires b.limit == Some(l) && FreshRow(b.counters, l.period, now) && b.counters[l.period].amount >= 0
    requires InWindow(ops, l.period, now)
    ensures var end := Run(b, ops);
      && end.limit == Some(l) && FreshRow(end.counters, l.period, now)
      && IsWorst(end.counters[l.period].amount, b.counters[l.period].amount, b, l.period, ops, now)
    decreases |ops|
  {
    var p := l.period;
    if ops == [] {
      assert Rise(b, p, ops, 0, now) == 0;
    } else {
      var n := |ops| - 1;
      CounterIsWorstStretch(b, l, ops[..n], now);
      assert Rise(b, p, ops[..n], n, now) == 0;
      CounterFollows(Run(b, ops[..n]), l, ops[n].op, ops[n].at, now);
      assert ops[..|ops|] == ops;
      WorstGrows(Run(b, ops[..n]).counters[p].amount, Run(b, ops).counters[p].amount, b.counters[p].amount, b, p, ops, now);
    }
  }

  /** So a stake is refused exactly when, with it, the limit would be passed since the start of the
      row or since some later moment. */
  lemma RefusedExactly(b: Book, l: Limit, ops: seq<Timed>, now: nat, stake: Money)
    requires b.limit == Some(l) && FreshRow(b.counters, l.period, now) && b.counters[l.period].amount >= 0
    requires InWindow(ops, l.period, now)
    ensures !Allows(Run(b, ops), stake, now) <==>
      || b.counters[l.period].amount + Rise(b, l.period, ops, 0, now) + stake > l.amount
      || exists k :: 0 <= k <= |ops| && Rise(b, l.period, ops, k, now) + stake > l.amount
  {
    CounterIsWorstStretch(b, l, ops, now);
  }

  /** With no row for the window the guard reads the ledger, and the first operation to settle leaves
      a row that holds the ledger's loss. */
  lemma SeededFromLedger(b: Book, l: Limit, op: Op, now: nat)
    requires b.limit == Some(l) && !FreshRow(b.counters, l.period, now) && OpOk(op)
    ensures forall stake :: Allows(b, stake, now) <==> LossAt(b, l.period, now) + stake <= l.amount
    ensures var after := Step(b, op, now);
      after != b ==> FreshRow(after.counters, l.period, now) && after.counters[l.period].amount == LossAt(after, l.period, now)
  {
    WindowsPartitionTime(l.period, now, now);
  }

  /** Without a limit every stake goes through, everything lands on the ledger, and no counter moves. */
  lemma UnlimitedPlay(b: Book, op: Op, now: nat)
    requires b.limit.None? && OpOk(op)
    ensures forall stake :: Allows(b, stake, now)
    ensures Step(b, op, now).counters == b.counters && Step(b, op, now).limit.None?
    ensures Raw(Step(b, op, now).ledger, now, now + 1) == Raw(b.ledger, now, now + 1) +
      match op
      case SetGoverning(_) => 0
      case PlaceBet(stake) => stake
      case PayWin(amount) => -amount
      case RollBack(total) => -total
      case PlaySpin(stake, win) => stake - win
  {
    var losses := match op
      case PlaceBet(stake) => [stake]
      case PayWin(amount) => [-amount]
      case RollBack(total) => [-total]
      case PlaySpin(stake, win) => RoundLosses(stake, win);
    RawStamped(b.ledger, losses, now, now, now + 1);
    match op
    case PlaceBet(stake) => EntireOf(stake, 0);
    case PayWin(amount) => EntireOf(-amount, 0);
    case RollBack(total) => EntireOf(-total, 0);
    case PlaySpin(stake, win) => EntireOf(stake, -win);
  }
}
