/** The cached loss counter of one player against the ledger it summarises: the guard that reads
    it, the bump that maintains it, and what they guarantee over every run. */
module LossCounter {
  import opened Domain
  import opened Ledger
  import opened LedgerFacts
  import opened Limits
  import opened Windows
  import Game

  // --------------------------------------------------------------------------
  // The loss the ledger shows
  // --------------------------------------------------------------------------

  /** What one BET, WIN or ROLLBACK header adds to the player's loss, and when. */
  datatype Post = Post(at: nat, loss: Money)

  /** A stake counts up; every other player line of these kinds counts down. */
  function LossOf(kind: Kind, entries: seq<Entry>): Money {
    if entries == [] then 0
    else (if entries[0].account != PlayerWallet then 0 else if kind == Bet then entries[0].amount else -entries[0].amount)
         + LossOf(kind, entries[1..])
  }

  function LossOfLegs(legs: seq<Leg>): Money {
    if legs == [] then 0 else LossOf(legs[0].kind, legs[0].entries) + LossOfLegs(legs[1..])
  }

  /** The delta each operation passes to the counter. */
  function CounterDelta(req: Request, legs: seq<Leg>, drawn: Game.Outcome): Money {
    match req.body
    case BetBody(_, amount) => amount
    case WinBody(_, amount, _) => -amount
    case RollbackBody(_) => if legs == [] then 0 else -Total(PlayerLines(legs[0].entries))
    case SpinBody(_, amount) => amount - Game.WinFor(amount, drawn)
    case _ => 0
  }

  lemma {:induction false} LossOfLines(kind: Kind, entries: seq<Entry>)
    ensures LossOf(kind, entries) == if kind == Bet then Total(PlayerLines(entries)) else -Total(PlayerLines(entries))
  {
    if entries != [] {
      LossOfLines(kind, entries[1..]);
      var rest := PlayerLines(entries[1..]);
      if entries[0].account == PlayerWallet {
        assert PlayerLines(entries) == [Line(entries[0].currency, entries[0].amount)] + rest;
        assert PlayerLines(entries)[1..] == rest;
      } else {
        assert [] + rest == rest;
      }
    }
  }

  lemma BetLoss(key: Key, meta: Game.Outcome, snap: Wallet, family: Family, amount: Money)
    requires snap.NonNegative() && PlanBet(key, meta, snap, family, amount).Ok?
    ensures LossOf(Bet, PlanBet(key, meta, snap, family, amount).value.entries) == amount
  {
    var debits := AllocateBet(snap, family, amount).value;
    AllocateBetExact(snap, family, amount);
    EntriesForShape(debits, Debit, HouseBetPool, Debited(snap, debits).value);
    LossOfLines(Bet, PlanBet(key, meta, snap, family, amount).value.entries);
  }

  lemma WinLoss(key: Key, reference: Reference, meta: Game.Outcome, snap: Wallet, family: Family, amount: Money)
    requires PlanWin(key, reference, meta, snap, family, amount).Ok?
    ensures LossOf(Win, PlanWin(key, reference, meta, snap, family, amount).value.entries) == -amount
  {
    var credit := AllocateWin(family, amount).value;
    SumOfOne(credit);
    EntriesForShape([credit], Credit, HouseWinPool, ApplyWin(snap, credit));
    LossOfLines(Win, PlanWin(key, reference, meta, snap, family, amount).value.entries);
  }

  /** Every bet, win, rollback and spin hands the counter exactly what its ledger rows add to the
      loss aggregate. */
  lemma DeltaIsLedgerLoss(rows: seq<Row>, snap: Wallet, req: Request, g: Guards, drawn: Game.Outcome)
    requires snap.NonNegative() && Plan(rows, snap, req, g, drawn).Ok?
    requires req.body.BetBody? || req.body.WinBody? || req.body.RollbackBody? || (req.body.SpinBody? && Game.WinFor(req.body.amount, drawn) >= 0)
    ensures var legs := Plan(rows, snap, req, g, drawn).value; LossOfLegs(legs) == CounterDelta(req, legs, drawn)
  {
    var key := Key(req.op, req.tx);
    var legs := Plan(rows, snap, req, g, drawn).value;
    assert LossOfLegs(legs) == LossOf(legs[0].kind, legs[0].entries) + LossOfLegs(legs[1..]);
    assert |legs| == 1 ==> LossOfLegs(legs[1..]) == 0;
    match req.body
    case BetBody(family, amount) => BetLoss(key, req.meta, snap, family, amount);
    case WinBody(family, amount, reference) =>
      WinLoss(key, if reference.Some? then RefTo(reference.value) else NoRef, req.meta, snap, family, amount);
    case RollbackBody(_) => LossOfLines(Rollback, legs[0].entries);
    case SpinBody(family, amount) =>
      BetLoss(Key(req.op, req.tx + BET_LEG), drawn, snap, family, amount);
      if |legs| == 2 {
        WinLoss(Key(req.op, req.tx + WIN_LEG), RefPrevious, drawn, legs[0].after, family, Game.WinFor(amount, drawn));
        assert legs[1..][0] == legs[1] && legs[1..][1..] == [];
        assert LossOfLegs(legs[1..]) == LossOf(Win, legs[1].entries) + LossOfLegs(legs[1..][1..]);
      }
  }

  /** The unfloored loss of a window. */
  function Raw(ledger: seq<Post>, start: int, end: int): Money {
    if ledger == [] then 0
    else
      var last := ledger[|ledger| - 1];
      Raw(ledger[..|ledger| - 1], start, end) + if start <= last.at < end then last.loss else 0
  }

  function Floored(m: Money): Money { if m < 0 then 0 else m }

  function Aggregate(ledger: seq<Post>, start: int, end: int): Money { Floored(Raw(ledger, start, end)) }

  // --------------------------------------------------------------------------
  // Counter rows
  // --------------------------------------------------------------------------

  datatype Counter = Counter(start: int, amount: Money)

  datatype Limit = Limit(period: Period, amount: Money)

  datatype Book = Book(ledger: seq<Post>, counters: map<Period, Counter>, limit: Option<Limit>)

  predicate FreshRow(counters: map<Period, Counter>, period: Period, now: nat) {
    period in counters && counters[period].start == WindowStart(period, now)
  }

  function Accumulated(b: Book, period: Period, now: nat): Money {
    if FreshRow(b.counters, period, now) then b.counters[period].amount
    else Aggregate(b.ledger, WindowStart(period, now), WindowEnd(period, now))
  }

  function Allows(b: Book, stake: Money, now: nat): bool {
    b.limit.None? || Accumulated(b, b.limit.value.period, now) + stake <= b.limit.value.amount
  }

  /** The row after the ledger took the transaction's rows. */
  function Bumped(b: Book, delta: Money, now: nat): Book {
    if b.limit.None? then b
    else
      var p := b.limit.value.period;
      var total := Accumulated(b, p, now) + if FreshRow(b.counters, p, now) then delta else 0;
      b.(counters := b.counters[p := Counter(WindowStart(p, now), Floored(total))])
  }

  datatype Op =
    | SetGoverning(limit: Option<Limit>)
    | PlaceBet(stake: Money)
    | PayWin(amount: Money)
    | RollBack(total: Money)
    | PlaySpin(stake: Money, win: Money)

  function Stamp(losses: seq<Money>, now: nat): seq<Post> {
    seq(|losses|, i requires 0 <= i < |losses| => Post(now, losses[i]))
  }

  function Entire(losses: seq<Money>): Money { if losses == [] then 0 else Entire(losses[..|losses| - 1]) + losses[|losses| - 1] }

  /** The transaction's headers go in, then the counter moves by their sum. */
  function Posted(b: Book, losses: seq<Money>, now: nat): Book {
    Bumped(b.(ledger := b.ledger + Stamp(losses, now)), Entire(losses), now)
  }

  /** A round writes its stake and, when it pays, its win. */
  function RoundLosses(stake: Money, win: Money): seq<Money> { if win > 0 then [stake, -win] else [stake] }

  /** One operation at one instant. */
  function Step(b: Book, op: Op, now: nat): Book {
    match op
    case SetGoverning(limit) => b.(limit := limit)
    case PlaceBet(stake) => if Allows(b, stake, now) then Posted(b, [stake], now) else b
    case PayWin(amount) => Posted(b, [-amount], now)
    case RollBack(total) => Posted(b, [-total], now)
    case PlaySpin(stake, win) => if Allows(b, stake, now) then Posted(b, RoundLosses(stake, win), now) else b
  }

  lemma EntireOf(a: Money, b: Money)
    ensures Entire([a]) == a && Entire([a, b]) == a + b
  {
    assert [a][..0] == [] && [a, b][..1] == [a];
  }

  class LossBook {
    var ledger: seq<Post>
    var counters: map<Period, Counter>
    var limit: Option<Limit>

    constructor ()
      ensures Contents() == Book([], map[], None)
    {
      ledger, counters, limit := [], map[], None;
    }

    function Contents(): Book reads this { Book(ledger, counters, limit) }

    method LedgerAggregate(start: int, end: int) returns (total: Money)
      ensures total == Aggregate(ledger, start, end)
    {
      total := 0;
      var i := 0;
      while i < |ledger|
        invariant 0 <= i <= |ledger| && total == Raw(ledger[..i], start, end)
      {
        assert ledger[..i + 1][..i] == ledger[..i];
        if start <= ledger[i].at < end { total := total + ledger[i].loss; }
        i := i + 1;
      }
      assert ledger[..i] == ledger;
      if total < 0 { total := 0; }
    }

    method ReadCounter(period: Period, now: nat) returns (total: Money, isFresh: bool)
      ensures isFresh == FreshRow(counters, period, now) && total == Accumulated(Contents(), period, now)
    {
      var start, end := WindowBounds(period, now);
      if period in counters && counters[period].start == start {
        return counters[period].amount, true;
      }
      total := LedgerAggregate(start, end);
      isFresh := false;
    }

    method GuardLossLimit(stake: Money, now: nat) returns (ok: bool)
      ensures ok == Allows(Contents(), stake, now)
    {
      if limit.None? { return true; }
      var accumulated, _ := ReadCounter(limit.value.period, now);
      return accumulated + stake <= limit.value.amount;
    }

    /** Runs after the transaction's ledger rows are in: a re-derived total already holds them. */
    method BumpCounter(period: Period, delta: Money, now: nat)
      requires limit.Some? && limit.value.period == period
      modifies this`counters
      ensures Contents() == Bumped(old(Contents()), delta, now)
    {
      var updated, isFresh := ReadCounter(period, now);
      if isFresh { updated := updated + delta; }
      if updated < 0 { updated := 0; }
      var start, _ := WindowBounds(period, now);
      counters := counters[period := Counter(start, updated)];
    }

    method Settle(losses: seq<Money>, delta: Money, now: nat)
      requires delta == Entire(losses)
      modifies this`ledger, this`counters
      ensures Contents() == Posted(old(Contents()), losses, now)
    {
      ledger := ledger + Stamp(losses, now);
      if limit.Some? { BumpCounter(limit.value.period, delta, now); }
    }

    method Do(op: Op, now: nat) returns (ok: bool)
      modifies this
      ensures Contents() == Step(old(Contents()), op, now)
      ensures !ok ==> Contents() == old(Contents())
    {
      match op {
        case SetGoverning(l) => limit := l; ok := true;
        case PlaceBet(stake) =>
          ok := GuardLossLimit(stake, now);
          EntireOf(stake, 0);
          if ok { Settle([stake], stake, now); }
        case PayWin(amount) => EntireOf(-amount, 0); Settle([-amount], -amount, now); ok := true;
        case RollBack(total) => EntireOf(-total, 0); Settle([-total], -total, now); ok := true;
        case PlaySpin(stake, win) =>
          ok := GuardLossLimit(stake, now);
          EntireOf(stake, -win);
          if ok { Settle(RoundLosses(stake, win), if win > 0 then stake - win else stake, now); }
      }
    }
  }

  // --------------------------------------------------------------------------
  // Runs under one governing limit
  // --------------------------------------------------------------------------

  datatype Timed = Timed(op: Op, at: nat)

  function Run(b: Book, ops: seq<Timed>): Book {
    if ops == [] then b
    else
      var last := ops[|ops| - 1];
      Step(Run(b, ops[..|ops| - 1]), last.op, last.at)
  }

  /** Positive amounts, no change of limit, clocks that never run backwards from `since`. */
  predicate Plays(ops: seq<Timed>, since: nat) {
    && (forall i :: 0 <= i < |ops| ==> OpOk(ops[i].op) && since <= ops[i].at)
    && (forall i, j :: 0 <= i <= j < |ops| ==> ops[i].at <= ops[j].at)
  }

  predicate Until(ops: seq<Timed>, now: nat) { forall i :: 0 <= i < |ops| ==> ops[i].at <= now }

  predicate OpOk(op: Op) {
    match op
    case SetGoverning(_) => false
    case PlaceBet(stake) => stake > 0
    case PayWin(amount) => amount > 0
    case RollBack(total) => total > 0
    case PlaySpin(stake, win) => stake > 0 && win >= 0
  }

  /** Everything recorded so far happened by `now`. */
  ghost predicate Past(b: Book, now: nat) {
    && (forall i :: 0 <= i < |b.ledger| ==> b.ledger[i].at <= now)
    && (forall p :: p in b.counters ==> b.counters[p].start <= now && b.counters[p].amount >= 0)
  }

  function RawAt(b: Book, p: Period, now: nat): Money { Raw(b.ledger, WindowStart(p, now), WindowEnd(p, now)) }

  /** The window's net loss as the ledger shows it. */
  function LossAt(b: Book, p: Period, now: nat): Money { Floored(RawAt(b, p, now)) }

  /** How far a fresh counter row lags behind the ledger. */
  function Lag(b: Book, p: Period, now: nat): Money {
    if FreshRow(b.counters, p, now) then Floored(RawAt(b, p, now) - b.counters[p].amount) else 0
  }

  function SameWindow(p: Period, t: nat, u: nat): bool { WindowStart(p, t) == WindowStart(p, u) }

  function MaxMoney(a: Money, b: Money): Money { if a < b then b else a }

  /** What the runs of one limit keep, in terms of the loss and the lag at the start. */
  ghost predicate Held(b: Book, l: Limit, now: nat, since: nat, raw0: Money, lag0: Money) {
    var first := SameWindow(l.period, now, since);
    && b.limit == Some(l) && Past(b, now)
    && RawAt(b, l.period, now) <= (if first then MaxMoney(raw0, l.amount + lag0) else l.amount)
    && (FreshRow(b.counters, l.period, now) ==>
          RawAt(b, l.period, now) - b.counters[l.period].amount <= if first then lag0 else 0)
  }

  lemma {:induction false} RawOutside(ledger: seq<Post>, start: int, end: int)
    requires forall i :: 0 <= i < |ledger| ==> ledger[i].at < start
    ensures Raw(ledger, start, end) == 0
  {
    if ledger != [] { RawOutside(ledger[..|ledger| - 1], start, end); }
  }

  /** Time passes: within a window nothing changes, and a new window starts from zero. */
  lemma Waits(b: Book, l: Limit, now: nat, later: nat, since: nat, raw0: Money, lag0: Money)
    requires Held(b, l, now, since, raw0, lag0) && since <= now <= later && l.amount >= 0 && lag0 >= 0
    ensures Held(b, l, later, since, raw0, lag0)
  {
    var p := l.period;
    WindowsPartitionTime(p, now, later);
    WindowsPartitionTime(p, since, now);
    if WindowStart(p, later) != WindowStart(p, now) {
      WindowsPartitionTime(p, later, now);
      forall i | 0 <= i < |b.ledger| ensures b.ledger[i].at < WindowStart(p, later) {
        WindowsPartitionTime(p, later, b.ledger[i].at);
      }
      RawOutside(b.ledger, WindowStart(p, later), WindowEnd(p, later));
      FreshIsNow(b, p, now, later);
    }
  }

  /** A row of an earlier window is stale. */
  lemma FreshIsNow(b: Book, p: Period, now: nat, later: nat)
    requires Past(b, now) && now <= later && WindowStart(p, later) != WindowStart(p, now)
    ensures !FreshRow(b.counters, p, later)
  {
    WindowsPartitionTime(p, now, later);
    WindowsPartitionTime(p, later, now);
  }

  lemma {:induction false} RawStamped(ledger: seq<Post>, losses: seq<Money>, now: nat, start: int, end: int)
    ensures Raw(ledger + Stamp(losses, now), start, end) == Raw(ledger, start, end) + if start <= now < end then Entire(losses) else 0
    decreases |losses|
  {
    if losses == [] {
      assert ledger + Stamp(losses, now) == ledger;
    } else {
      var n := |losses| - 1;
      RawStamped(ledger, losses[..n], now, start, end);
      assert (ledger + Stamp(losses, now))[..|ledger| + n] == ledger + Stamp(losses[..n], now);
    }
  }

  lemma PostedKeeps(b: Book, l: Limit, losses: seq<Money>, now: nat, since: nat, raw0: Money, lag0: Money)
    requires Held(b, l, now, since, raw0, lag0) && lag0 >= 0
    requires Entire(losses) <= 0 || Accumulated(b, l.period, now) + Entire(losses) <= l.amount
    ensures Held(Posted(b, losses, now), l, now, since, raw0, lag0)
  {
    var p := l.period;
    WindowsPartitionTime(p, now, now);
    RawStamped(b.ledger, losses, now, WindowStart(p, now), WindowEnd(p, now));
    var b1 := b.(ledger := b.ledger + Stamp(losses, now));
    assert RawAt(b1, p, now) == RawAt(b, p, now) + Entire(losses);
  }

  lemma PaidBackKeeps(b: Book, l: Limit, amount: Money, now: nat, since: nat, raw0: Money, lag0: Money)
    requires Held(b, l, now, since, raw0, lag0) && lag0 >= 0 && amount >= 0
    ensures Held(Posted(b, [-amount], now), l, now, since, raw0, lag0)
  {
    EntireOf(-amount, 0);
    PostedKeeps(b, l, [-amount], now, since, raw0, lag0);
  }

  lemma RoundKeeps(b: Book, l: Limit, stake: Money, win: Money, now: nat, since: nat, raw0: Money, lag0: Money)
    requires Held(b, l, now, since, raw0, lag0) && lag0 >= 0 && Allows(b, stake, now)
    ensures Held(Posted(b, RoundLosses(stake, win), now), l, now, since, raw0, lag0)
  {
    EntireOf(stake, -win);
    PostedKeeps(b, l, RoundLosses(stake, win), now, since, raw0, lag0);
  }

  lemma StepKeepsHeld(b: Book, l: Limit, op: Op, now: nat, since: nat, raw0: Money, lag0: Money)
    requires Held(b, l, now, since, raw0, lag0) && lag0 >= 0 && OpOk(op)
    ensures Held(Step(b, op, now), l, now, since, raw0, lag0)
  {
    match op
    case PlaceBet(stake) => if Allows(b, stake, now) { RoundKeeps(b, l, stake, 0, now, since, raw0, lag0); }
    case PayWin(amount) => PaidBackKeeps(b, l, amount, now, since, raw0, lag0);
    case RollBack(total) => PaidBackKeeps(b, l, total, now, since, raw0, lag0);
    case PlaySpin(stake, win) => if Allows(b, stake, now) { RoundKeeps(b, l, stake, win, now, since, raw0, lag0); }
  }

  lemma {:induction false} RunKeepsHeld(b: Book, l: Limit, ops: seq<Timed>, since: nat, now: nat)
    requires b.limit == Some(l) && l.amount >= 0 && Past(b, since) && Plays(ops, since)
    requires since <= now && Until(ops, now)
    ensures Held(Run(b, ops), l, now, since, RawAt(b, l.period, since), Lag(b, l.period, since))
    decreases |ops|
  {
    var raw0, lag0 := RawAt(b, l.period, since), Lag(b, l.period, since);
    if ops == [] {
      assert Held(b, l, since, since, raw0, lag0);
      Waits(b, l, since, now, since, raw0, lag0);
    } else {
      var n := |ops| - 1;
      RunKeepsHeld(b, l, ops[..n], since, ops[n].at);
      StepKeepsHeld(Run(b, ops[..n]), l, ops[n].op, ops[n].at, since, raw0, lag0);
      Waits(Run(b, ops), l, ops[n].at, now, since, raw0, lag0);
    }
  }

  /** With no counter row for the window when the limit begins, every run keeps a fresh counter at
      or above the window's net loss, and the net loss never exceeds the limit or what it was
      when the limit began, across any window changes. */
  lemma LossLimitHolds(b: Book, l: Limit, ops: seq<Timed>, since: nat, now: nat)
    requires b.limit == Some(l) && l.amount >= 0 && Past(b, since) && Plays(ops, since)
    requires since <= now && Until(ops, now)
    requires !FreshRow(b.counters, l.period, since)
    ensures var end := Run(b, ops);
      && (FreshRow(end.counters, l.period, now) ==> end.counters[l.period].amount >= LossAt(end, l.period, now))
      && LossAt(end, l.period, now) <=
           if SameWindow(l.period, now, since) then MaxMoney(l.amount, LossAt(b, l.period, since)) else l.amount
  {
    RunKeepsHeld(b, l, ops, since, now);
  }

  /** The limit protects: over every run the loss stays within the limit, or within what it was at
      the start. */
  ghost predicate Protects(b: Book, l: Limit, since: nat) {
    forall ops: seq<Timed>, now: nat :: Plays(ops, since) && since <= now && Until(ops, now) ==>
      LossAt(Run(b, ops), l.period, now) <=
        if SameWindow(l.period, now, since) then MaxMoney(l.amount, LossAt(b, l.period, since)) else l.amount
  }

  /** A counter row left over from an earlier limit, behind the ledger and under the new limit. */
  predicate StaleUndercount(b: Book, l: Limit, since: nat) {
    && FreshRow(b.counters, l.period, since)
    && b.counters[l.period].amount < LossAt(b, l.period, since)
    && b.counters[l.period].amount < l.amount
  }

  lemma UndercountLeaks(b: Book, l: Limit, since: nat)
    requires b.limit == Some(l) && Past(b, since) && StaleUndercount(b, l, since)
    ensures !Protects(b, l, since)
  {
    var p := l.period;
    var stake := l.amount - b.counters[p].amount;
    var ops := [Timed(PlaceBet(stake), since)];
    assert ops[..0] == [];
    assert Run(b, ops) == Step(b, PlaceBet(stake), since);
    assert Allows(b, stake, since);
    WindowsPartitionTime(p, since, since);
    EntireOf(stake, 0);
    RawStamped(b.ledger, [stake], since, WindowStart(p, since), WindowEnd(p, since));
    assert Plays(ops, since) && Until(ops, since);
    assert LossAt(Run(b, ops), p, since) > MaxMoney(l.amount, LossAt(b, p, since));
  }

  /** Exactly when the limit protects: the caller can tell by reading one counter row and the
      ledger before the limit takes over. */
  lemma ProtectsExactly(b: Book, l: Limit, since: nat)
    requires b.limit == Some(l) && l.amount >= 0 && Past(b, since)
    ensures Protects(b, l, since) <==> !StaleUndercount(b, l, since)
  {
    if StaleUndercount(b, l, since) {
      UndercountLeaks(b, l, since);
    } else {
      forall ops: seq<Timed>, now: nat | Plays(ops, since) && since <= now && Until(ops, now)
        ensures LossAt(Run(b, ops), l.period, now) <=
          if SameWindow(l.period, now, since) then MaxMoney(l.amount, LossAt(b, l.period, since)) else l.amount
      {
        RunKeepsHeld(b, l, ops, since, now);
      }
    }
  }

  /** The leftover row is reachable: the counter of a period is not bumped while another period
      governs, so DAY, then WEEK, then DAY again within one day lets 180 be lost under a limit of
      100 a day. */
  lemma SwitchingPeriodsUndercounts()
    ensures var day, week := Some(Limit(Day, 100)), Some(Limit(Week, 100));
      var before := Run(Book([], map[], None), [
        Timed(SetGoverning(day), 0), Timed(PlaceBet(10), 0), Timed(SetGoverning(week), 0), Timed(PlaceBet(80), 0),
        Timed(SetGoverning(day), 0)]);
      && StaleUndercount(before, day.value, 0)
      && LossAt(before, Day, 0) == 90 && LossAt(Step(before, PlaceBet(90), 0), Day, 0) == 180
  {
    var day, week := Some(Limit(Day, 100)), Some(Limit(Week, 100));
    var empty := Book([], map[], None);
    var row := Counter(WindowStart(Day, 0), 10);
    RawOne([], 10, Day);
    assert [] + [Post(0, 10)] == [Post(0, 10)] && Stamp([10], 0) == [Post(0, 10)];
    EntireOf(10, 0);
    EntireOf(80, 0);
    var b1 := Book([Post(0, 10)], map[Day := row], day);
    assert Posted(Book([], map[], day), [10], 0) == b1;
    RawOne([], 10, Week);
    RawOne([Post(0, 10)], 80, Week);
    assert [Post(0, 10)] + Stamp([80], 0) == [Post(0, 10), Post(0, 80)] && Stamp([80], 0) == [Post(0, 80)];
    var b2 := Posted(b1.(limit := week), [80], 0);
    assert b2 == Step(b1.(limit := week), PlaceBet(80), 0);
    assert b2.ledger == [Post(0, 10), Post(0, 80)] && Day in b2.counters && b2.counters[Day] == row;
    RunFive(empty, SetGoverning(day), PlaceBet(10), SetGoverning(week), PlaceBet(80), SetGoverning(day));
    UndercountShown(b2.(limit := day), row);
  }

  lemma RunFive(b: Book, o1: Op, o2: Op, o3: Op, o4: Op, o5: Op)
    ensures Run(b, [Timed(o1, 0), Timed(o2, 0), Timed(o3, 0), Timed(o4, 0), Timed(o5, 0)]) ==
      Step(Step(Step(Step(Step(b, o1, 0), o2, 0), o3, 0), o4, 0), o5, 0)
  {
    var ops := [Timed(o1, 0), Timed(o2, 0), Timed(o3, 0), Timed(o4, 0), Timed(o5, 0)];
    assert ops[..4][..3] == ops[..3] && ops[..3][..2] == ops[..2] && ops[..2][..1] == ops[..1] && ops[..1][..0] == [];
    assert Run(b, ops[..1]) == Step(b, o1, 0);
    assert Run(b, ops[..2]) == Step(Run(b, ops[..1]), o2, 0);
    assert Run(b, ops[..3]) == Step(Run(b, ops[..2]), o3, 0);
    assert Run(b, ops[..4]) == Step(Run(b, ops[..3]), o4, 0);
    assert Run(b, ops) == Step(Run(b, ops[..4]), o5, 0);
  }

  lemma UndercountShown(b: Book, row: Counter)
    requires b.ledger == [Post(0, 10), Post(0, 80)] && b.limit == Some(Limit(Day, 100))
    requires Day in b.counters && b.counters[Day] == row && row == Counter(WindowStart(Day, 0), 10)
    ensures StaleUndercount(b, b.limit.value, 0)
    ensures LossAt(b, Day, 0) == 90 && LossAt(Step(b, PlaceBet(90), 0), Day, 0) == 180
  {
    RawOne([], 10, Day);
    RawOne([Post(0, 10)], 80, Day);
    RawOne([Post(0, 10), Post(0, 80)], 90, Day);
    assert [] + [Post(0, 10)] == [Post(0, 10)];
    assert [Post(0, 10)] + [Post(0, 80)] == b.ledger;
    EntireOf(90, 0);
    assert Stamp([90], 0) == [Post(0, 90)];
  }

  lemma RawOne(ledger: seq<Post>, loss: Money, p: Period)
    ensures Raw(ledger + [Post(0, loss)], WindowStart(p, 0), WindowEnd(p, 0)) ==
      Raw(ledger, WindowStart(p, 0), WindowEnd(p, 0)) + loss
  {
    WindowsPartitionTime(p, 0, 0);
    assert (ledger + [Post(0, loss)])[..|ledger|] == ledger;
  }
}
