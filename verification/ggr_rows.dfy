/** What the three daily totals mean: revenue is bets less wins, and all three are read off the
    engine's own ledger rows. */
module GgrRows {
  import opened Domain
  import opened Ledger
  import opened LedgerFacts
  import opened Protocol
  import opened ProtocolSafety
  import opened Ggr

  // --------------------------------------------------------------------------
  // Revenue is bets less wins
  // --------------------------------------------------------------------------

  lemma {:induction false} WindowNets(ledger: seq<Stamped>, lower: Option<int>, upper: int, date: int, c: Currency)
    ensures Window(ledger, lower, upper, Cell(date, c, Revenue)) ==
      Window(ledger, lower, upper, Cell(date, c, Bets)) - Window(ledger, lower, upper, Cell(date, c, Wins))
  {
    if ledger != [] { WindowNets(ledger[..|ledger| - 1], lower, upper, date, c); }
  }

  /** Over every run, late commits and overlapping cycles included, each day's revenue in each
      currency is its bets less its wins. */
  lemma {:induction false} RevenueIsBetsLessWins(states: seq<Books>, events: seq<Event>, lag: nat, i: nat, date: int, c: Currency)
    requires Trace(states, events, lag) && i < |states|
    ensures CellValue(states[i].daily, Cell(date, c, Revenue)) ==
      CellValue(states[i].daily, Cell(date, c, Bets)) - CellValue(states[i].daily, Cell(date, c, Wins))
  {
    if i > 0 {
      RevenueIsBetsLessWins(states, events, lag, i - 1, date, c);
      var b := states[i - 1];
      assert Next(b, events[i - 1], states[i], lag);
      if events[i - 1].Cycles? { WindowNets(b.ledger, b.mark, events[i - 1].start - lag, date, c); }
    }
  }

  // --------------------------------------------------------------------------
  // The columns as flows on the two pools
  // --------------------------------------------------------------------------

  predicate Counts(s: Stamped, account: Account, upTo: int, date: int, c: Currency) {
    s.entry.account == account && s.at <= upTo && s.date == date && s.entry.currency == c
  }

  /** Credits less debits of an account on a day, up to an instant. */
  function Flow(ledger: seq<Stamped>, account: Account, upTo: int, date: int, c: Currency): Money {
    if ledger == [] then 0
    else
      var last := ledger[|ledger| - 1];
      Flow(ledger[..|ledger| - 1], account, upTo, date, c)
      + if !Counts(last, account, upTo, date, c) then 0 else if last.entry.direction == Credit then last.entry.amount else -last.entry.amount
  }

  lemma {:induction false} ColumnsAreFlows(ledger: seq<Stamped>, upTo: int, date: int, c: Currency)
    ensures Window(ledger, None, upTo, Cell(date, c, Bets)) == Flow(ledger, HouseBetPool, upTo, date, c)
    ensures Window(ledger, None, upTo, Cell(date, c, Wins)) == -Flow(ledger, HouseWinPool, upTo, date, c)
  {
    if ledger != [] { ColumnsAreFlows(ledger[..|ledger| - 1], upTo, date, c); }
  }

  lemma {:induction false} FlowJoins(a: seq<Stamped>, b: seq<Stamped>, account: Account, upTo: int, date: int, c: Currency)
    ensures Flow(a + b, account, upTo, date, c) == Flow(a, account, upTo, date, c) + Flow(b, account, upTo, date, c)
    decreases |b|
  {
    if b == [] {
      assert a + b == a;
    } else {
      var n := |b| - 1;
      FlowJoins(a, b[..n], account, upTo, date, c);
      assert (a + b)[..|a| + n] == a + b[..n];
    }
  }

  // --------------------------------------------------------------------------
  // The columns as sums over ledger rows
  // --------------------------------------------------------------------------

  /** When a ledger transaction started, and on which gaming day. */
  datatype When = When(at: int, date: int)

  /** The entries of the rows, as the aggregator finds them. */
  function Posted(rows: seq<Row>, whens: seq<When>): seq<Stamped>
    requires |rows| == |whens|
  {
    if rows == [] then []
    else
      var n := |rows| - 1;
      Posted(rows[..n], whens[..n]) + StampAll(whens[n].at, whens[n].date, rows[n].entries)
  }

  /** What the rows of one kind brought their players on a day, up to an instant. */
  function Brought(rows: seq<Row>, whens: seq<When>, kind: Kind, upTo: int, date: int, c: Currency): Money
    requires |rows| == |whens|
  {
    if rows == [] then 0
    else
      var n := |rows| - 1;
      Brought(rows[..n], whens[..n], kind, upTo, date, c)
      + if rows[n].kind == kind && whens[n].at <= upTo && whens[n].date == date then Net(rows[n].entries, c) else 0
  }

  /** Credits less debits of an account within one transaction. */
  function Within(entries: seq<Entry>, account: Account, c: Currency): Money {
    if entries == [] then 0 else (if entries[0].account == account then Signed(entries[0], c) else 0) + Within(entries[1..], account, c)
  }

  /** A transaction balances, so its house account takes what its player gives. */
  lemma {:induction false} HouseTakes(entries: seq<Entry>, kind: Kind, account: Account, c: Currency)
    requires SidesOk(entries, kind) && account != PlayerWallet
    ensures Within(entries, account, c) == if account == HouseOf(kind) then Imbalance(entries, c) - Net(entries, c) else 0
  {
    if entries != [] {
      assert SidesOk(entries[1..], kind) by { assert forall i :: 0 <= i < |entries| - 1 ==> entries[1..][i] == entries[i + 1]; }
      HouseTakes(entries[1..], kind, account, c);
    }
  }

  lemma {:induction false} WithinSnoc(entries: seq<Entry>, e: Entry, account: Account, c: Currency)
    ensures Within(entries + [e], account, c) == Within(entries, account, c) + if e.account == account then Signed(e, c) else 0
  {
    if entries == [] {
      assert [] + [e] == [e] && [e][1..] == [];
    } else {
      WithinSnoc(entries[1..], e, account, c);
      assert (entries + [e])[1..] == entries[1..] + [e];
    }
  }

  lemma {:induction false} StampedFlow(at: int, day: int, entries: seq<Entry>, account: Account, upTo: int, date: int, c: Currency)
    ensures Flow(StampAll(at, day, entries), account, upTo, date, c) == if at <= upTo && day == date then Within(entries, account, c) else 0
    decreases |entries|
  {
    if entries != [] {
      var n := |entries| - 1;
      StampedFlow(at, day, entries[..n], account, upTo, date, c);
      assert StampAll(at, day, entries)[..n] == StampAll(at, day, entries[..n]);
      assert entries == entries[..n] + [entries[n]];
      WithinSnoc(entries[..n], entries[n], account, c);
    } else {
      assert StampAll(at, day, entries) == [];
    }
  }

  lemma RowFlow(rows: seq<Row>, i: nat, w: When, account: Account, upTo: int, date: int, c: Currency)
    requires RowsOk(rows) && i < |rows| && account != PlayerWallet
    ensures Flow(StampAll(w.at, w.date, rows[i].entries), account, upTo, date, c) ==
      if w.at <= upTo && w.date == date && account == HouseOf(rows[i].kind) then -Net(rows[i].entries, c) else 0
  {
    RowsOkAt(rows, i);
    StampedFlow(w.at, w.date, rows[i].entries, account, upTo, date, c);
    HouseTakes(rows[i].entries, rows[i].kind, account, c);
  }

  lemma {:induction false} PoolsAreRows(rows: seq<Row>, whens: seq<When>, upTo: int, date: int, c: Currency)
    requires RowsOk(rows) && |rows| == |whens|
    ensures Flow(Posted(rows, whens), HouseBetPool, upTo, date, c) ==
      -Brought(rows, whens, Bet, upTo, date, c) - Brought(rows, whens, Rollback, upTo, date, c)
    ensures Flow(Posted(rows, whens), HouseWinPool, upTo, date, c) == -Brought(rows, whens, Win, upTo, date, c)
    decreases |rows|
  {
    if rows != [] {
      var n := |rows| - 1;
      PoolsAreRows(rows[..n], whens[..n], upTo, date, c);
      var before, more := Posted(rows[..n], whens[..n]), StampAll(whens[n].at, whens[n].date, rows[n].entries);
      FlowJoins(before, more, HouseBetPool, upTo, date, c);
      FlowJoins(before, more, HouseWinPool, upTo, date, c);
      RowFlow(rows, n, whens[n], HouseBetPool, upTo, date, c);
      RowFlow(rows, n, whens[n], HouseWinPool, upTo, date, c);
    }
  }

  /** In every reachable state of the engine whose entries the aggregator has seen in time, a day's
      bets up to the watermark are the stakes of its BET rows less what its ROLLBACK rows returned,
      its wins what its WIN rows credited, and its revenue what the players lost over all three. */
  lemma DailyTotalsAreRows(s: State, whens: seq<When>, states: seq<Books>, events: seq<Event>, lag: nat, i: nat, date: int, c: Currency)
    requires Reachable(s) && |whens| == |s.db.rows|
    requires Trace(states, events, lag) && Clocked(events) && CommitsWithin(events, lag) && CyclesInOrder(events)
    requires i < |states| && states[i].ledger == Posted(s.db.rows, whens) && states[i].mark.Some?
    ensures var upTo := states[i].mark.value;
      var staked := -Brought(s.db.rows, whens, Bet, upTo, date, c);
      var returned := Brought(s.db.rows, whens, Rollback, upTo, date, c);
      var won := Brought(s.db.rows, whens, Win, upTo, date, c);
      && CellValue(states[i].daily, Cell(date, c, Bets)) == staked - returned
      && CellValue(states[i].daily, Cell(date, c, Wins)) == won
      && CellValue(states[i].daily, Cell(date, c, Revenue)) == staked - returned - won
  {
    ReachableInv(s);
    EveryEntryOnce(states, events, lag, i);
    RevenueIsBetsLessWins(states, events, lag, i, date, c);
    ColumnsAreFlows(states[i].ledger, states[i].mark.value, date, c);
    PoolsAreRows(s.db.rows, whens, states[i].mark.value, date, c);
  }

  /** The kinds of transaction that move a house account. */
  predicate Moves(kind: Kind, account: Account) {
    match account
    case PlayerWallet => true
    case HouseBetPool => kind == Bet || kind == Rollback
    case HouseWinPool => kind == Win
    case HouseIssuancePool => kind == Deposit
    case HouseRedemptionPool => kind == Withdrawal
    case HousePromoPool => kind == PromoCredit
  }

  /** In every reachable state each transaction moves one house account, its kind's own, by exactly
      what its player does not. */
  lemma HouseMirrorsPlayer(s: State, i: nat, account: Account, c: Currency)
    requires Reachable(s) && i < |s.db.rows| && account != PlayerWallet
    ensures Within(s.db.rows[i].entries, account, c) == if Moves(s.db.rows[i].kind, account) then -Net(s.db.rows[i].entries, c) else 0
  {
    ReachableInv(s);
    RowsOkAt(s.db.rows, i);
    HouseTakes(s.db.rows[i].entries, s.db.rows[i].kind, account, c);
  }
}
