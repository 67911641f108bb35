/** The revenue aggregator: each cycle adds one window of house-pool entries to the daily totals
    and moves the watermark to the window's end. */
module Ggr {
  import opened Domain
  import opened Ledger

  /** A committed ledger entry: `at` is its transaction's start, `date` the calendar day of that
      instant in the gaming timezone. */
  datatype Stamped = Stamped(at: int, date: int, entry: Entry)

  /** One total of daily_ggr: a day, a currency, and which of the row's three columns. */
  datatype Column = Bets | Wins | Revenue
  datatype Cell = Cell(date: int, currency: Currency, column: Column)

  /** `mark` None is the seeded minus infinity. */
  datatype Books = Books(ledger: seq<Stamped>, daily: map<Cell, Money>, mark: Option<int>)

  predicate IsHouse(e: Entry) { e.account == HouseBetPool || e.account == HouseWinPool }

  /** Net bets are pool credits less rollback debits; net wins are pool debits less credits;
      revenue is bets less wins. */
  function Contribution(e: Entry, c: Column): Money {
    var signed := if e.direction == Credit then e.amount else -e.amount;
    if e.account == HouseBetPool then (if c == Wins then 0 else signed)
    else if e.account == HouseWinPool then (if c == Bets then 0 else if c == Wins then -signed else signed)
    else 0
  }

  predicate InWindow(s: Stamped, lower: Option<int>, upper: int) {
    (lower.None? || lower.value < s.at) && s.at <= upper && IsHouse(s.entry)
  }

  /** What an entry adds to a cell, seen through a window. */
  function Part(s: Stamped, lower: Option<int>, upper: int, k: Cell): Money {
    if InWindow(s, lower, upper) && s.date == k.date && s.entry.currency == k.currency then Contribution(s.entry, k.column) else 0
  }

  /** One aggregate over the window (lower, upper]. */
  function Window(ledger: seq<Stamped>, lower: Option<int>, upper: int, k: Cell): Money {
    if ledger == [] then 0
    else Window(ledger[..|ledger| - 1], lower, upper, k) + Part(ledger[|ledger| - 1], lower, upper, k)
  }

  function CellValue(daily: map<Cell, Money>, k: Cell): Money { if k in daily then daily[k] else 0 }

  /** The upsert of one entry's row: all three columns of its day and currency. */
  function Upserted(daily: map<Cell, Money>, s: Stamped): map<Cell, Money> {
    var (d, c) := (s.date, s.entry.currency);
    daily[Cell(d, c, Bets) := CellValue(daily, Cell(d, c, Bets)) + Contribution(s.entry, Bets)]
         [Cell(d, c, Wins) := CellValue(daily, Cell(d, c, Wins)) + Contribution(s.entry, Wins)]
         [Cell(d, c, Revenue) := CellValue(daily, Cell(d, c, Revenue)) + Contribution(s.entry, Revenue)]
  }

  /** Every cell has grown by its window's entries. */
  ghost predicate Added(before: map<Cell, Money>, after: map<Cell, Money>, ledger: seq<Stamped>, lower: Option<int>, upper: int) {
    forall k :: CellValue(after, k) == CellValue(before, k) + Window(ledger, lower, upper, k)
  }

  function StampAll(at: int, date: int, entries: seq<Entry>): seq<Stamped> {
    seq(|entries|, i requires 0 <= i < |entries| => Stamped(at, date, entries[i]))
  }

  function Recorded(b: Books, at: int, date: int, entries: seq<Entry>): Books {
    b.(ledger := b.ledger + StampAll(at, date, entries))
  }

  class Aggregator {
    const safetyLag: nat
    var ledger: seq<Stamped>
    var daily: map<Cell, Money>
    var mark: Option<int>

    constructor (safetyLag: nat)
      ensures this.safetyLag == safetyLag && Contents() == Books([], map[], None)
    {
      this.safetyLag := safetyLag;
      ledger, daily, mark := [], map[], None;
    }

    function Contents(): Books reads this { Books(ledger, daily, mark) }

    method Commit(at: int, date: int, entries: seq<Entry>)
      modifies this`ledger
      ensures Contents() == Recorded(old(Contents()), at, date, entries)
    {
      ledger := ledger + StampAll(at, date, entries);
    }

    /** One cycle in a transaction that started at `start`: upsert the window, then advance the
        watermark to the same bound. */
    method RunOnce(start: int)
      modifies this`daily, this`mark
      ensures Cycled(old(Contents()), Contents(), safetyLag, start)
    {
      var lastProcessed := mark;
      var upper := start - safetyLag;
      ghost var before := daily;
      var i := 0;
      while i < |ledger|
        invariant 0 <= i <= |ledger| && Added(before, daily, ledger[..i], lastProcessed, upper)
      {
        AddOne(before, daily, ledger[..i], ledger[i], lastProcessed, upper);
        assert ledger[..i + 1] == ledger[..i] + [ledger[i]];
        if InWindow(ledger[i], lastProcessed, upper) { daily := Upserted(daily, ledger[i]); }
        i := i + 1;
      }
      assert ledger[..i] == ledger;
      mark := Some(upper);
    }
  }

  lemma WindowSnoc(ledger: seq<Stamped>, s: Stamped, lower: Option<int>, upper: int, k: Cell)
    ensures Window(ledger + [s], lower, upper, k) == Window(ledger, lower, upper, k) + Part(s, lower, upper, k)
  {
    assert (ledger + [s])[..|ledger|] == ledger;
  }

  lemma UpsertedAt(daily: map<Cell, Money>, s: Stamped, lower: Option<int>, upper: int, k: Cell)
    requires InWindow(s, lower, upper)
    ensures CellValue(Upserted(daily, s), k) == CellValue(daily, k) + Part(s, lower, upper, k)
  {
    match k.column
    case Bets =>
    case Wins =>
    case Revenue =>
  }

  lemma AddOne(before: map<Cell, Money>, daily: map<Cell, Money>, ledger: seq<Stamped>, s: Stamped, lower: Option<int>, upper: int)
    requires Added(before, daily, ledger, lower, upper)
    ensures Added(before, if InWindow(s, lower, upper) then Upserted(daily, s) else daily, ledger + [s], lower, upper)
  {
    var after := if InWindow(s, lower, upper) then Upserted(daily, s) else daily;
    forall k ensures CellValue(after, k) == CellValue(before, k) + Window(ledger + [s], lower, upper, k) {
      WindowSnoc(ledger, s, lower, upper, k);
      if InWindow(s, lower, upper) { UpsertedAt(daily, s, lower, upper, k); }
    }
  }

  lemma {:induction false} WindowsJoin(ledger: seq<Stamped>, lower: Option<int>, mid: int, upper: int, k: Cell)
    requires (lower.Some? ==> lower.value <= mid) && mid <= upper
    ensures Window(ledger, lower, mid, k) + Window(ledger, Some(mid), upper, k) == Window(ledger, lower, upper, k)
  {
    if ledger != [] { WindowsJoin(ledger[..|ledger| - 1], lower, mid, upper, k); }
  }

  lemma {:induction false} WindowIgnoresLater(ledger: seq<Stamped>, more: seq<Stamped>, lower: Option<int>, upper: int, k: Cell)
    requires forall i :: 0 <= i < |more| ==> more[i].at > upper
    ensures Window(ledger + more, lower, upper, k) == Window(ledger, lower, upper, k)
    decreases |more|
  {
    if more == [] {
      assert ledger + more == ledger;
    } else {
      var n := |more| - 1;
      WindowIgnoresLater(ledger, more[..n], lower, upper, k);
      assert ledger + more == (ledger + more[..n]) + [more[n]];
      WindowSnoc(ledger + more[..n], more[n], lower, upper, k);
    }
  }

  lemma {:induction false} EmptyWindow(ledger: seq<Stamped>, lower: int, upper: int, k: Cell)
    requires upper <= lower
    ensures Window(ledger, Some(lower), upper, k) == 0
  {
    if ledger != [] { EmptyWindow(ledger[..|ledger| - 1], lower, upper, k); }
  }

  // --------------------------------------------------------------------------
  // Exactly once
  // --------------------------------------------------------------------------

  /** The daily totals are one aggregate over every house-pool entry up to the watermark. */
  ghost predicate Exact(b: Books) {
    forall k :: CellValue(b.daily, k) == if b.mark.None? then 0 else Window(b.ledger, None, b.mark.value, k)
  }

  ghost predicate Cycled(b: Books, b': Books, lag: nat, start: int) {
    && b'.mark == Some(start - lag) && b'.ledger == b.ledger
    && Added(b.daily, b'.daily, b.ledger, b.mark, start - lag)
  }

  datatype Event =
    | Commits(at: int, date: int, entries: seq<Entry>, clock: int)
    | Cycles(start: int, clock: int)

  ghost predicate Next(b: Books, e: Event, b': Books, lag: nat) {
    match e
    case Commits(at, date, entries, _) => b' == Recorded(b, at, date, entries)
    case Cycles(start, _) => Cycled(b, b', lag, start)
  }

  /** The books after each event. */
  ghost predicate Trace(states: seq<Books>, events: seq<Event>, lag: nat) {
    && |states| == |events| + 1 && states[0] == Books([], map[], None)
    && forall i :: 0 <= i < |events| ==> Next(states[i], events[i], states[i + 1], lag)
  }

  /** Clocks run forward and a cycle's transaction has started by the time it runs. */
  predicate Clocked(events: seq<Event>) {
    && (forall i, j :: 0 <= i <= j < |events| ==> events[i].clock <= events[j].clock)
    && (forall i :: 0 <= i < |events| && events[i].Cycles? ==> events[i].start <= events[i].clock)
  }

  /** Every transaction commits within the safety lag of its start. */
  predicate CommitsWithin(events: seq<Event>, lag: nat) {
    forall i :: 0 <= i < |events| && events[i].Commits? ==> events[i].clock < events[i].at + lag
  }

  /** Cycles do not overlap, so their transactions start in order. */
  predicate CyclesInOrder(events: seq<Event>) {
    forall i, j :: 0 <= i <= j < |events| && events[i].Cycles? && events[j].Cycles? ==> events[i].start <= events[j].start
  }

  predicate SetBy(mark: int, e: Event, lag: nat) { e.Cycles? && mark == e.start - lag }

  /** The watermark belongs to some earlier cycle. */
  ghost predicate MarkOk(mark: Option<int>, events: seq<Event>, n: nat, lag: nat) {
    mark.Some? ==> exists i :: 0 <= i < n <= |events| && SetBy(mark.value, events[i], lag)
  }

  lemma CommitKeepsExact(b: Books, at: int, date: int, entries: seq<Entry>)
    requires Exact(b) && (b.mark.Some? ==> at > b.mark.value)
    ensures Exact(Recorded(b, at, date, entries))
  {
    if b.mark.Some? {
      forall k ensures CellValue(b.daily, k) == Window(Recorded(b, at, date, entries).ledger, None, b.mark.value, k) {
        WindowIgnoresLater(b.ledger, StampAll(at, date, entries), None, b.mark.value, k);
      }
    }
  }

  /** After a cycle a cell holds one aggregate up to the new mark, and once more whatever lies
      between the new mark and the old one. */
  lemma CycleAt(b: Books, low: int, upper: int, k: Cell)
    ensures Window(b.ledger, None, low, k) + Window(b.ledger, Some(low), upper, k) ==
      Window(b.ledger, None, upper, k) + Window(b.ledger, Some(upper), low, k)
  {
    if low <= upper {
      WindowsJoin(b.ledger, None, low, upper, k);
      EmptyWindow(b.ledger, upper, low, k);
    } else {
      WindowsJoin(b.ledger, None, upper, low, k);
      EmptyWindow(b.ledger, low, upper, k);
    }
  }

  ghost predicate NetsToNothing(ledger: seq<Stamped>, lower: int, upper: int) {
    forall k :: Window(ledger, Some(lower), upper, k) == 0
  }

  /** A cycle keeps the totals exact precisely when its window ends no earlier than it starts, or
      the stretch it moves the watermark back over nets to nothing in every cell. */
  lemma CycleExactly(b: Books, b': Books, lag: nat, start: int)
    requires Exact(b) && Cycled(b, b', lag, start)
    ensures Exact(b') <==>
      || b.mark.None? || b.mark.value <= start - lag
      || NetsToNothing(b.ledger, start - lag, b.mark.value)
  {
    var upper := start - lag;
    if b.mark.Some? {
      var low := b.mark.value;
      forall k ensures CellValue(b'.daily, k) == Window(b.ledger, None, upper, k) + Window(b.ledger, Some(upper), low, k) {
        CycleAt(b, low, upper, k);
      }
      if low <= upper {
        forall k ensures Window(b.ledger, Some(upper), low, k) == 0 { EmptyWindow(b.ledger, upper, low, k); }
      }
    }
  }

  lemma {:induction false} TraceExact(states: seq<Books>, events: seq<Event>, lag: nat, n: nat)
    requires Trace(states, events, lag) && Clocked(events) && CommitsWithin(events, lag) && CyclesInOrder(events)
    requires n <= |events|
    ensures Exact(states[n]) && MarkOk(states[n].mark, events, n, lag)
  {
    if n > 0 {
      TraceExact(states, events, lag, n - 1);
      var b, e := states[n - 1], events[n - 1];
      assert Next(b, e, states[n], lag);
      match e
      case Commits(at, date, entries, clock) => CommitKeepsExact(b, at, date, entries);
      case Cycles(start, clock) =>
        CycleExactly(b, states[n], lag, start);
        assert SetBy(start - lag, events[n - 1], lag);
    }
  }

  /** Over every run of ledger commits and cycles whose commits beat the safety lag and whose
      cycles start in order, daily_ggr is one aggregate over all house-pool entries at or before
      the watermark: none is skipped and none is counted twice. */
  lemma EveryEntryOnce(states: seq<Books>, events: seq<Event>, lag: nat, i: nat)
    requires Trace(states, events, lag) && Clocked(events) && CommitsWithin(events, lag) && CyclesInOrder(events)
    requires i < |states|
    ensures Exact(states[i])
  {
    TraceExact(states, events, lag, i);
  }

  /** Overlap is not harmless: a cycle whose transaction started earlier but ran later moves the
      watermark back, and the next cycle counts the same bet again. */
  lemma OverlapCountsTwice(states: seq<Books>, bet: Entry)
    requires bet == Entry(HouseBetPool, GC, Credit, 5, None)
    requires Trace(states, [Commits(100, 0, [bet], 101), Cycles(200, 210), Cycles(150, 220), Cycles(230, 230)], 60)
    ensures states[4].mark == Some(170) && CellValue(states[4].daily, Cell(0, GC, Bets)) == 10
    ensures Window(states[4].ledger, None, 170, Cell(0, GC, Bets)) == 5
  {
    var k := Cell(0, GC, Bets);
    var s := Stamped(100, 0, bet);
    var events := [Commits(100, 0, [bet], 101), Cycles(200, 210), Cycles(150, 220), Cycles(230, 230)];
    assert Next(states[0], events[0], states[1], 60) && Next(states[1], events[1], states[2], 60);
    assert Next(states[2], events[2], states[3], 60) && Next(states[3], events[3], states[4], 60);
    assert states[1] == Books([s], map[], None);
    WindowSingle(s, None, 140, k);
    WindowSingle(s, Some(140), 90, k);
    WindowSingle(s, Some(90), 170, k);
    WindowSingle(s, None, 170, k);
  }

  lemma WindowSingle(s: Stamped, lower: Option<int>, upper: int, k: Cell)
    ensures Window([s], lower, upper, k) == Part(s, lower, upper, k)
  {
    assert [s][..0] == [];
  }
}
