/** A change of a limit's period bites at once whenever the amount does not rise, and what that
    loosens: over one window of the old period the player may lose the new amount once per new
    window. */
module PeriodChange {
  import opened Domain
  import opened Limits
  import opened Windows
  import opened LossCounter

  // --------------------------------------------------------------------------
  // Windows inside a window
  // --------------------------------------------------------------------------

  /** How many windows of a period meet the instants from..last. */
  function CountWindows(p: Period, from: nat, last: nat): (n: nat)
    requires from <= last
    ensures n >= 1
    decreases last - from
  {
    WindowsPartitionTime(p, from, from);
    var end := WindowEnd(p, from);
    1 + if end <= last then CountWindows(p, end, last) else 0
  }

  lemma {:induction false} CountGrows(p: Period, from: nat, u: nat, now: nat)
    requires from <= u <= now
    ensures SameWindow(p, u, now) ==> CountWindows(p, from, now) == CountWindows(p, from, u)
    ensures !SameWindow(p, u, now) ==> CountWindows(p, from, now) >= CountWindows(p, from, u) + 1
    decreases u - from
  {
    WindowsPartitionTime(p, from, from);
    WindowsPartitionTime(p, from, u);
    WindowsPartitionTime(p, from, now);
    WindowsPartitionTime(p, u, now);
    var end := WindowEnd(p, from);
    if end <= u { CountGrows(p, end, u, now); }
  }

  lemma {:induction false} CountDays(first: nat, after: nat)
    requires first < after
    ensures Midnight(first) >= 0 && CountWindows(Day, Midnight(first), Midnight(after) - 1) == after - first
    decreases after - first
  {
    assert DayOf(Midnight(first)) == first;
    assert WindowEnd(Day, Midnight(first)) == Midnight(first + 1);
    if first + 1 < after { CountDays(first + 1, after); }
  }

  // --------------------------------------------------------------------------
  // What the new limit permits
  // --------------------------------------------------------------------------

  /** The limit governs and nothing of its current window is on record. */
  ghost predicate Clean(b: Book, l: Limit, from: nat) {
    && b.limit == Some(l) && Past(b, from) && !FreshRow(b.counters, l.period, from)
    && forall i :: 0 <= i < |b.ledger| ==> b.ledger[i].at < WindowStart(l.period, from)
  }

  /** Some play between the two instants loses more than `amount` in them. */
  ghost predicate Permits(b: Book, from: nat, last: nat, amount: Money) {
    exists ops :: Plays(ops, from) && Until(ops, last) && Aggregate(Run(b, ops).ledger, from, last + 1) > amount
  }

  /** A step adds the same loss to every interval around its instant. */
  lemma StepMoves(b: Book, op: Op, now: nat, a: int, e: int, a': int, e': int)
    requires a <= now < e && a' <= now < e' && OpOk(op)
    ensures Raw(Step(b, op, now).ledger, a, e) - Raw(b.ledger, a, e) == Raw(Step(b, op, now).ledger, a', e') - Raw(b.ledger, a', e')
  {
    var losses := match op
      case PlaceBet(stake) => [stake]
      case PayWin(amount) => [-amount]
      case RollBack(total) => [-total]
      case PlaySpin(stake, win) => RoundLosses(stake, win);
    RawStamped(b.ledger, losses, now, a, e);
    RawStamped(b.ledger, losses, now, a', e');
  }

  /** Loss booked in windows that are over. */
  function Earlier(b: Book, l: Limit, from: nat, last: nat, now: nat): Money {
    Raw(b.ledger, from, last + 1) - RawAt(b, l.period, now)
  }

  lemma StepKeepsEarlier(b: Book, l: Limit, op: Op, now: nat, from: nat, last: nat)
    requires OpOk(op) && from <= now <= last
    ensures Earlier(Step(b, op, now), l, from, last, now) == Earlier(b, l, from, last, now)
  {
    WindowsPartitionTime(l.period, now, now);
    StepMoves(b, op, now, from, last + 1, WindowStart(l.period, now), WindowEnd(l.period, now));
  }

  lemma {:induction false} EarlierBounded(b: Book, l: Limit, ops: seq<Timed>, from: nat, last: nat, now: nat)
    requires Clean(b, l, from) && l.amount >= 0 && Plays(ops, from) && Until(ops, now) && from <= now <= last
    ensures Earlier(Run(b, ops), l, from, last, now) <= l.amount * (CountWindows(l.period, from, now) - 1)
    ensures RawAt(Run(b, ops), l.period, now) <= l.amount
    decreases |ops|
  {
    var p := l.period;
    CleanStart(b, l, from);
    RunKeepsHeld(b, l, ops, from, now);
    if ops == [] {
      WindowsPartitionTime(p, from, now);
      RawOutside(b.ledger, from, last + 1);
      RawOutside(b.ledger, WindowStart(p, now), WindowEnd(p, now));
      ProductNonNegative(l.amount, CountWindows(p, from, now) - 1);
    } else {
      var n := |ops| - 1;
      EarlierBounded(b, l, ops[..n], from, last, ops[n].at);
      RunKeepsHeld(b, l, ops, from, ops[n].at);
      StepKeepsEarlier(Run(b, ops[..n]), l, ops[n].op, ops[n].at, from, last);
      LaterBounded(Run(b, ops), l, from, last, ops[n].at, now);
    }
  }

  lemma ProductNonNegative(a: int, k: int)
    requires a >= 0 && k >= 0
    ensures a * k >= 0
  {
  }

  lemma CleanStart(b: Book, l: Limit, from: nat)
    requires Clean(b, l, from)
    ensures RawAt(b, l.period, from) == 0 && Lag(b, l.period, from) == 0
  {
    RawOutside(b.ledger, WindowStart(l.period, from), WindowEnd(l.period, from));
  }

  /** Waiting turns the current window's loss into an earlier one's. */
  lemma LaterBounded(b: Book, l: Limit, from: nat, last: nat, u: nat, now: nat)
    requires Past(b, u) && l.amount >= 0 && from <= u <= now <= last
    requires Earlier(b, l, from, last, u) <= l.amount * (CountWindows(l.period, from, u) - 1) && RawAt(b, l.period, u) <= l.amount
    ensures Earlier(b, l, from, last, now) <= l.amount * (CountWindows(l.period, from, now) - 1)
  {
    var p := l.period;
    CountGrows(p, from, u, now);
    WindowsPartitionTime(p, u, now);
    if !SameWindow(p, u, now) {
      WindowsPartitionTime(p, now, u);
      RawOutside(b.ledger, WindowStart(p, now), WindowEnd(p, now));
      OneMoreWindow(l.amount, CountWindows(p, from, u), CountWindows(p, from, now));
    }
  }

  lemma OneMoreWindow(a: int, k: int, m: int)
    requires a >= 0 && m >= k + 1
    ensures a * (k - 1) + a <= a * (m - 1)
  {
    assert a * (m - 1) == a * (k - 1) + a * (m - k);
    assert a * (m - k) == a * (m - k - 1) + a;
    ProductNonNegative(a, m - k - 1);
  }

  // --------------------------------------------------------------------------
  // Play that uses every window up
  // --------------------------------------------------------------------------

  /** One stake of the whole limit in each window. */
  function Fill(l: Limit, from: nat, last: nat): seq<Timed>
    requires from <= last
    decreases last - from
  {
    WindowsPartitionTime(l.period, from, from);
    var end := WindowEnd(l.period, from);
    [Timed(PlaceBet(l.amount), from)] + if end <= last then Fill(l, end, last) else []
  }

  lemma {:induction false} FillPlays(l: Limit, from: nat, last: nat)
    requires from <= last && l.amount > 0
    ensures Plays(Fill(l, from, last), from) && Until(Fill(l, from, last), last)
    decreases last - from
  {
    WindowsPartitionTime(l.period, from, from);
    var end := WindowEnd(l.period, from);
    if end <= last { FillPlays(l, end, last); }
  }

  lemma {:induction false} RunConcat(b: Book, xs: seq<Timed>, ys: seq<Timed>)
    ensures Run(b, xs + ys) == Run(Run(b, xs), ys)
    decreases |ys|
  {
    if ys == [] {
      assert xs + ys == xs;
    } else {
      var n := |ys| - 1;
      RunConcat(b, xs, ys[..n]);
      assert (xs + ys)[..|xs| + n] == xs + ys[..n];
    }
  }

  /** A stake of the whole limit in a clean window settles and leaves the next window clean. */
  lemma FirstStake(b: Book, l: Limit, from: nat, a: int, e: int)
    requires Clean(b, l, from) && l.amount > 0 && a <= from < e
    ensures var b1 := Step(b, PlaceBet(l.amount), from);
      && Run(b, [Timed(PlaceBet(l.amount), from)]) == b1
      && Raw(b1.ledger, a, e) == Raw(b.ledger, a, e) + l.amount
      && WindowEnd(l.period, from) > from && Clean(b1, l, WindowEnd(l.period, from))
  {
    var p := l.period;
    WindowsPartitionTime(p, from, from);
    var end: nat := WindowEnd(p, from);
    WindowsPartitionTime(p, from, end);
    WindowsPartitionTime(p, end, from);
    CleanStart(b, l, from);
    assert Allows(b, l.amount, from);
    EntireOf(l.amount, 0);
    RawStamped(b.ledger, [l.amount], from, a, e);
    assert [Timed(PlaceBet(l.amount), from)][..0] == [];
    assert Run(b, []) == b;
  }

  lemma {:induction false} FillLoses(b: Book, l: Limit, from: nat, last: nat, a: int, e: int)
    requires Clean(b, l, from) && l.amount > 0 && from <= last && a <= from && last < e
    ensures Raw(Run(b, Fill(l, from, last)).ledger, a, e) == Raw(b.ledger, a, e) + l.amount * CountWindows(l.period, from, last)
    decreases last - from
  {
    FirstStake(b, l, from, a, e);
    var b1 := Step(b, PlaceBet(l.amount), from);
    var end := WindowEnd(l.period, from);
    var first := [Timed(PlaceBet(l.amount), from)];
    if end <= last {
      FillLoses(b1, l, end, last, a, e);
      RunConcat(b, first, Fill(l, end, last));
      assert l.amount * (1 + CountWindows(l.period, end, last)) == l.amount + l.amount * CountWindows(l.period, end, last);
    } else {
      assert first + [] == first;
    }
  }

  /** Over any stretch a clean limit permits more than an amount exactly when its own amount, once
      per window it meets, is more. */
  lemma PermitsExactly(b: Book, l: Limit, from: nat, last: nat, amount: Money)
    requires Clean(b, l, from) && l.amount > 0 && from <= last && amount >= 0
    ensures Permits(b, from, last, amount) <==> l.amount * CountWindows(l.period, from, last) > amount
  {
    var most := l.amount * CountWindows(l.period, from, last);
    WindowsPartitionTime(l.period, from, from);
    RawOutside(b.ledger, from, last + 1);
    FillLoses(b, l, from, last, from, last + 1);
    FillPlays(l, from, last);
    assert Aggregate(Run(b, Fill(l, from, last)).ledger, from, last + 1) == Floored(most);
    forall ops | Plays(ops, from) && Until(ops, last) ensures Aggregate(Run(b, ops).ledger, from, last + 1) <= Floored(most) {
      EarlierBounded(b, l, ops, from, last, last);
      OneMoreWindow(l.amount, CountWindows(l.period, from, last), CountWindows(l.period, from, last) + 1);
    }
  }

  // --------------------------------------------------------------------------
  // The change itself
  // --------------------------------------------------------------------------

  function AskLimit(period: Period, amount: Money, event: string): SetLimitRequest {
    SetLimitRequest(1, LossLimit, true, Some(period), Some(amount), None, event)
  }

  /** The log of a player who sets one limit and then another. */
  function TwoLimits(p: Period, a: Money, at: int, q: Period, b: Money, later: int): seq<LimitRow> {
    History({1}, [Call(AskLimit(p, a, "a"), at), Call(AskLimit(q, b, "b"), later)])
  }

  predicate Governs(log: seq<LimitRow>, now: int, q: Period, b: Money) {
    var row := LatestEffectiveLimit(log, 1, LossLimit, now);
    row.Some? && row.value.active && row.value.period == Some(q) && row.value.amount == Some(b)
  }

  /** The second limit governs from the instant it is asked for exactly when its amount is not
      higher, whatever the two periods are. */
  lemma ChangeBitesExactly(p: Period, a: Money, at: int, q: Period, b: Money, later: int)
    requires a > 0 && b > 0 && at <= later
    ensures Governs(TwoLimits(p, a, at, q, b, later), later, q, b) <==> b <= a
  {
    var first, second := AskLimit(p, a, "a"), AskLimit(q, b, "b");
    var calls := [Call(first, at), Call(second, later)];
    assert calls[..1] == [Call(first, at)] && calls[..1][..0] == [];
    var one := [RowFor([], first, at)];
    assert History({1}, calls[..1]) == one;
    assert FindEvent(one, "b") == 1;
    var log := one + [RowFor(one, second, later)];
    assert History({1}, calls) == log;
    assert log[..1] == one;
  }

  /** A window of the old period under the new limit: the limit of b per q, which replaced a limit of
      a per p at once, lets the player lose more than a in it exactly when b once per new window is
      more than a. */
  lemma ShorterPeriodLoosensExactly(p: Period, a: Money, q: Period, b: Money, at: int, later: int, t: nat, book: Book)
    requires 0 < b <= a && at <= later && WindowStart(p, t) >= 0
    requires Clean(book, Limit(q, b), WindowStart(p, t))
    ensures WindowStart(p, t) < WindowEnd(p, t) && Governs(TwoLimits(p, a, at, q, b, later), later, q, b)
    ensures Permits(book, WindowStart(p, t), WindowEnd(p, t) - 1, a) <==>
      b * CountWindows(q, WindowStart(p, t), WindowEnd(p, t) - 1) > a
  {
    WindowsPartitionTime(p, t, t);
    ChangeBitesExactly(p, a, at, q, b, later);
    PermitsExactly(book, Limit(q, b), WindowStart(p, t), WindowEnd(p, t) - 1, a);
  }

  /** A week holds seven days and a month its calendar length, so the same amount per day instead of
      per week or month permits seven times, or twenty-eight to thirty-one times, the old limit. */
  lemma DaysInPeriod(t: nat)
    ensures WindowStart(Month, t) >= 0 && WindowStart(Month, t) < WindowEnd(Month, t)
    ensures CountWindows(Day, WindowStart(Month, t), WindowEnd(Month, t) - 1) == DaysIn(MonthOf(DayOf(t)))
    ensures WindowStart(Week, t) >= 0 ==> WindowStart(Week, t) < WindowEnd(Week, t)
    ensures WindowStart(Week, t) >= 0 ==> CountWindows(Day, WindowStart(Week, t), WindowEnd(Week, t) - 1) == 7
  {
    WindowsPartitionTime(Month, t, t);
    WindowsPartitionTime(Week, t, t);
    var m := MonthOf(DayOf(t));
    CountDays(FirstDay(m), FirstDay(m + 1));
    var first := FirstOf(Week, DayOf(t));
    MidnightOrder(0, first);
    if first >= 0 { CountDays(first, first + 7); }
  }
}
