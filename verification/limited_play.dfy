/** The loss limit over the engine's own ledger rows: the guard reads the counter under the wallet
    lock, the plan writes the rows, and the counter is bumped before the commit. */
module LimitedPlay {
  import opened Domain
  import opened Ledger
  import opened LedgerFacts
  import opened Engine
  import opened Limits
  import opened Windows
  import opened LossCounter
  import opened Rounds
  import Game

  /** The tables, the commit instant of each ledger row, and one player's counters and limit. */
  datatype Play = Play(db: Db, stamps: seq<nat>, counters: map<Period, Counter>, limit: Option<Limit>)

  predicate CountsAsLoss(kind: Kind) { kind == Bet || kind == Win || kind == Rollback }

  /** The player's net loss in the window [start, end), as the aggregate query reads it. */
  function LedgerLoss(rows: seq<Row>, stamps: seq<nat>, p: Player, start: int, end: int): Money
    requires |rows| == |stamps|
  {
    if rows == [] then 0
    else
      var n := |rows| - 1;
      LedgerLoss(rows[..n], stamps[..n], p, start, end)
      + if rows[n].player == p && CountsAsLoss(rows[n].kind) && start <= stamps[n] < end then LossOf(rows[n].kind, rows[n].entries) else 0
  }

  /** The same rows as the counter's ledger. */
  function LossPosts(rows: seq<Row>, stamps: seq<nat>, p: Player): seq<Post>
    requires |rows| == |stamps|
  {
    if rows == [] then []
    else
      var n := |rows| - 1;
      LossPosts(rows[..n], stamps[..n], p)
      + if rows[n].player == p && CountsAsLoss(rows[n].kind) then [Post(stamps[n], LossOf(rows[n].kind, rows[n].entries))] else []
  }

  function BookOf(s: Play, p: Player): Book
    requires |s.db.rows| == |s.stamps|
  {
    Book(LossPosts(s.db.rows, s.stamps, p), s.counters, s.limit)
  }

  /** A request with the answers of the other guards, its draw, and its instant. */
  datatype Event = Event(req: Request, answers: Guards, drawn: Game.Outcome, now: nat)

  predicate MovesCounter(body: Body) { body.BetBody? || body.WinBody? || body.RollbackBody? || body.SpinBody? }

  /** For the limited player's stakes the limit guard answers from the counter. */
  function Answers(s: Play, p: Player, e: Event): Guards
    requires |s.db.rows| == |s.stamps|
  {
    if e.req.player == p && (e.req.body.BetBody? || e.req.body.SpinBody?)
    then e.answers.(overLimit := !Allows(BookOf(s, p), e.req.body.amount, e.now))
    else e.answers
  }

  function Stamps(n: nat, now: nat): (r: seq<nat>)
    ensures |r| == n
  {
    if n == 0 then [] else Stamps(n - 1, now) + [now]
  }

  /** One transaction: the verdict, its rows, and the bump. */
  ghost function Next(s: Play, p: Player, e: Event): Play
    requires |s.db.rows| == |s.stamps|
  {
    var verdict := Judge(s.db, e.req, Answers(s, p, e), e.drawn);
    if !verdict.Settles? then s
    else
      var rows := s.db.rows + NewRows(s.db.rows, e.req.player, verdict.legs);
      NewRowsShape(s.db.rows, e.req.player, verdict.legs);
      var stamps := s.stamps + Stamps(|verdict.legs|, e.now);
      var after := Book(LossPosts(rows, stamps, p), s.counters, s.limit);
      Play(ApplyLegs(s.db, e.req.player, verdict.legs), stamps,
        if e.req.player == p && MovesCounter(e.req.body)
        then Bumped(after, CounterDelta(e.req, verdict.legs, e.drawn), e.now).counters else s.counters,
        s.limit)
  }

  ghost predicate Sound(s: Play, p: Player) { DbOk(s.db) && |s.stamps| == |s.db.rows| && p in s.db.wallets }

  ghost function PlayOn(s: Play, p: Player, events: seq<Event>): Play
    requires Sound(s, p)
    ensures Sound(PlayOn(s, p, events), p)
    decreases |events|
  {
    if events == [] then s
    else
      var before := PlayOn(s, p, events[..|events| - 1]);
      NextSound(before, p, events[|events| - 1]);
      Next(before, p, events[|events| - 1])
  }

  lemma NextSound(s: Play, p: Player, e: Event)
    requires Sound(s, p)
    ensures Sound(Next(s, p, e), p)
  {
    var verdict := Judge(s.db, e.req, Answers(s, p, e), e.drawn);
    if verdict.Settles? {
      PlanSound(s.db.rows, s.db.wallets[e.req.player], e.req, Answers(s, p, e), e.drawn);
      ApplyLegsOk(s.db, e.req.player, verdict.legs);
      ApplyLegsRows(s.db, e.req.player, verdict.legs);
      NewRowsShape(s.db.rows, e.req.player, verdict.legs);
      WalletsStay(s.db, e.req.player, verdict.legs, p);
    }
  }

  lemma {:induction false} WalletsStay(db: Db, player: Player, legs: seq<Leg>, p: Player)
    requires p in db.wallets
    ensures p in ApplyLegs(db, player, legs).wallets
    decreases |legs|
  {
    if legs != [] { WalletsStay(ApplyLeg(db, player, legs[0]), player, legs[1..], p); }
  }

  // --------------------------------------------------------------------------
  // Rows are the counter's ledger
  // --------------------------------------------------------------------------

  lemma {:induction false} LedgerLossIsRaw(rows: seq<Row>, stamps: seq<nat>, p: Player, start: int, end: int)
    requires |rows| == |stamps|
    ensures Raw(LossPosts(rows, stamps, p), start, end) == LedgerLoss(rows, stamps, p, start, end)
    decreases |rows|
  {
    if rows != [] {
      var n := |rows| - 1;
      var init := LossPosts(rows[..n], stamps[..n], p);
      LedgerLossIsRaw(rows[..n], stamps[..n], p, start, end);
      var post := Post(stamps[n], LossOf(rows[n].kind, rows[n].entries));
      assert (init + [post])[..|init|] == init;
      assert init + [] == init;
    }
  }

  lemma {:induction false} CreditsNet(entries: seq<Entry>)
    requires forall i :: 0 <= i < |entries| && entries[i].account == PlayerWallet ==> entries[i].direction == Credit
    ensures Total(PlayerLines(entries)) == Net(entries, GC) + Net(entries, SCUnplayed) + Net(entries, SCRedeemable)
  {
    if entries != [] {
      CreditsNet(entries[1..]);
      var l, rest := Line(entries[0].currency, entries[0].amount), PlayerLines(entries[1..]);
      if entries[0].account == PlayerWallet { assert ([l] + rest)[1..] == rest; } else { assert [] + rest == rest; }
    }
  }

  lemma {:induction false} DebitsNet(entries: seq<Entry>)
    requires PlayerDebitsOnly(entries)
    ensures Total(PlayerLines(entries)) == -(Net(entries, GC) + Net(entries, SCUnplayed) + Net(entries, SCRedeemable))
  {
    if entries != [] {
      DebitsNet(entries[1..]);
      var l, rest := Line(entries[0].currency, entries[0].amount), PlayerLines(entries[1..]);
      if entries[0].account == PlayerWallet { assert ([l] + rest)[1..] == rest; } else { assert [] + rest == rest; }
    }
  }

  /** What a row adds to the loss is what its player gave. */
  lemma LossIsNet(rows: seq<Row>, i: nat)
    requires RowsOk(rows) && i < |rows| && CountsAsLoss(rows[i].kind)
    ensures LossOf(rows[i].kind, rows[i].entries) == -NetAll(rows[i])
  {
    RowsOkAt(rows, i);
    LossOfLines(rows[i].kind, rows[i].entries);
    if rows[i].kind == Bet { DebitsNet(rows[i].entries); } else { CreditsNet(rows[i].entries); }
  }

  /** What the player's stakes, wins and reversals in [start, end) brought, all currencies together. */
  function Gains(rows: seq<Row>, stamps: seq<nat>, p: Player, start: int, end: int): Money
    requires |rows| == |stamps|
  {
    if rows == [] then 0
    else
      var n := |rows| - 1;
      Gains(rows[..n], stamps[..n], p, start, end)
      + if rows[n].player == p && (rows[n].kind == Bet || rows[n].kind == Win || rows[n].kind == Rollback) && start <= stamps[n] < end
        then NetAll(rows[n]) else 0
  }

  /** The aggregate of the loss query is what play took from the player's wallet in the window. */
  lemma {:induction false} LedgerLossIsGain(rows: seq<Row>, stamps: seq<nat>, p: Player, start: int, end: int)
    requires RowsOk(rows) && |rows| == |stamps|
    ensures LedgerLoss(rows, stamps, p, start, end) == -Gains(rows, stamps, p, start, end)
    decreases |rows|
  {
    if rows != [] {
      var n := |rows| - 1;
      LedgerLossIsGain(rows[..n], stamps[..n], p, start, end);
      if CountsAsLoss(rows[n].kind) { LossIsNet(rows, n); }
    }
  }

  /** What a row adds to the player's posts. */
  function RowLosses(r: Row, p: Player): seq<Money> {
    if r.player == p && CountsAsLoss(r.kind) then [LossOf(r.kind, r.entries)] else []
  }

  lemma PostsSnoc(rows: seq<Row>, stamps: seq<nat>, p: Player, r: Row, now: nat)
    requires |rows| == |stamps|
    ensures LossPosts(rows + [r], stamps + [now], p) == LossPosts(rows, stamps, p) + Stamp(RowLosses(r, p), now)
  {
    assert (rows + [r])[..|rows|] == rows && (stamps + [now])[..|stamps|] == stamps;
    assert Stamp(RowLosses(r, p), now) == if r.player == p && CountsAsLoss(r.kind) then [Post(now, LossOf(r.kind, r.entries))] else [];
  }

  lemma StampConcat(a: seq<Money>, b: seq<Money>, now: nat)
    ensures Stamp(a + b, now) == Stamp(a, now) + Stamp(b, now)
  {
  }

  lemma PostsOfPair(rows: seq<Row>, stamps: seq<nat>, p: Player, x: Row, y: Row, now: nat)
    requires |rows| == |stamps|
    ensures LossPosts(rows + [x, y], stamps + [now, now], p) ==
      LossPosts(rows, stamps, p) + Stamp(RowLosses(x, p) + RowLosses(y, p), now)
  {
    PostsSnoc(rows, stamps, p, x, now);
    PostsSnoc(rows + [x], stamps + [now], p, y, now);
    assert rows + [x, y] == rows + [x] + [y] && stamps + [now, now] == stamps + [now] + [now];
    StampConcat(RowLosses(x, p), RowLosses(y, p), now);
  }

  lemma PostsOfTwo(rows: seq<Row>, stamps: seq<nat>, p: Player, extra: seq<Row>, now: nat)
    requires |rows| == |stamps| && 1 <= |extra| <= 2
    ensures LossPosts(rows + extra, stamps + Stamps(|extra|, now), p) == LossPosts(rows, stamps, p)
      + Stamp(RowLosses(extra[0], p) + (if |extra| == 2 then RowLosses(extra[1], p) else []), now)
  {
    if |extra| == 1 {
      PostsSnoc(rows, stamps, p, extra[0], now);
      assert extra == [extra[0]] && Stamps(1, now) == [now];
      assert RowLosses(extra[0], p) + [] == RowLosses(extra[0], p);
    } else {
      PostsOfPair(rows, stamps, p, extra[0], extra[1], now);
      assert extra == [extra[0], extra[1]] && Stamps(2, now) == [now, now];
    }
  }

  // --------------------------------------------------------------------------
  // A transaction is a counter step
  // --------------------------------------------------------------------------

  /** The operation a settled request is to the counter. */
  function OpOf(req: Request, legs: seq<Leg>, drawn: Game.Outcome): Op
    requires MovesCounter(req.body)
  {
    match req.body
    case BetBody(_, amount) => PlaceBet(amount)
    case WinBody(_, amount, _) => PayWin(amount)
    case RollbackBody(_) => RollBack(if legs == [] then 0 else Total(PlayerLines(legs[0].entries)))
    case SpinBody(_, amount) => PlaySpin(amount, Game.WinFor(amount, drawn))
  }

  function OpLosses(op: Op): seq<Money> {
    match op
    case SetGoverning(_) => []
    case PlaceBet(stake) => [stake]
    case PayWin(amount) => [-amount]
    case RollBack(total) => [-total]
    case PlaySpin(stake, win) => RoundLosses(stake, win)
  }

  lemma WinForNonNegative(stake: Money, outcome: Game.Outcome)
    requires stake > 0
    ensures Game.WinFor(stake, outcome) >= 0
  {
    if outcome.IsWin() { assert stake as real * outcome.multiplier >= 0.0; }
  }

  /** The rows of a settled request are exactly the losses of its operation. */
  lemma LegsAreLosses(rows: seq<Row>, snap: Wallet, req: Request, g: Guards, drawn: Game.Outcome, legs: seq<Leg>)
    requires RowsOk(rows) && snap.NonNegative() && MovesCounter(req.body) && Plan(rows, snap, req, g, drawn) == Ok(legs)
    ensures 1 <= |legs| <= 2 && CountsAsLoss(legs[0].kind) && (|legs| == 2 ==> CountsAsLoss(legs[1].kind))
    ensures OpLosses(OpOf(req, legs, drawn)) ==
      [LossOf(legs[0].kind, legs[0].entries)] + if |legs| == 2 then [LossOf(legs[1].kind, legs[1].entries)] else []
    ensures OpOk(OpOf(req, legs, drawn)) && Entire(OpLosses(OpOf(req, legs, drawn))) == CounterDelta(req, legs, drawn)
  {
    var key := Key(req.op, req.tx);
    match req.body
    case BetBody(family, amount) =>
      BetLoss(key, req.meta, snap, family, amount);
      EntireOf(amount, 0);
    case WinBody(family, amount, reference) =>
      WinLoss(key, if reference.Some? then RefTo(reference.value) else NoRef, req.meta, snap, family, amount);
      EntireOf(-amount, 0);
    case RollbackBody(reference) =>
      LossOfLines(Rollback, legs[0].entries);
      ReversedTotal(rows, snap, req, g, drawn, legs);
      EntireOf(-Total(PlayerLines(legs[0].entries)), 0);
    case SpinBody(family, amount) =>
      SpinLosses(snap, req, drawn, legs);
  }

  lemma ReversedTotal(rows: seq<Row>, snap: Wallet, req: Request, g: Guards, drawn: Game.Outcome, legs: seq<Leg>)
    requires RowsOk(rows) && req.body.RollbackBody? && Plan(rows, snap, req, g, drawn) == Ok(legs)
    ensures |legs| == 1 && Total(PlayerLines(legs[0].entries)) > 0
  {
    var b := req.body.reference.value;
    RowsOkAt(rows, b);
    var lines := PlayerLines(rows[b].entries);
    PlayerLinesPositive(rows[b].entries);
    PlayerLinesOfEntries(lines, Credit, HouseBetPool, Credited(snap, lines));
    LinesPositive(lines);
  }

  lemma {:induction false} LinesPositive(lines: seq<Line>)
    requires AllPositive(lines)
    ensures Total(lines) >= 0 && (lines != [] ==> Total(lines) > 0)
  {
    if lines != [] { LinesPositive(lines[1..]); }
  }

  lemma SpinLosses(snap: Wallet, req: Request, drawn: Game.Outcome, legs: seq<Leg>)
    requires snap.NonNegative() && req.body.SpinBody? && PlanSpin(req, snap, drawn) == Ok(legs)
    ensures var stake, win := req.body.amount, Game.WinFor(req.body.amount, drawn);
      && 1 <= |legs| <= 2 && legs[0].kind == Bet && (|legs| == 2 ==> legs[1].kind == Win) && stake > 0 && win >= 0
      && RoundLosses(stake, win) ==
           [LossOf(legs[0].kind, legs[0].entries)] + (if |legs| == 2 then [LossOf(legs[1].kind, legs[1].entries)] else [])
      && Entire(RoundLosses(stake, win)) == stake - win
  {
    var family, stake := req.body.family, req.body.amount;
    var win := Game.WinFor(stake, drawn);
    BetLoss(Key(req.op, req.tx + BET_LEG), drawn, snap, family, stake);
    AllocateBetExact(snap, family, stake);
    WinForNonNegative(stake, drawn);
    if win > 0 { WinLoss(Key(req.op, req.tx + WIN_LEG), RefPrevious, drawn, legs[0].after, family, win); }
    EntireOf(stake, -win);
  }

  lemma ForeignLegs(rows: seq<Row>, snap: Wallet, req: Request, g: Guards, drawn: Game.Outcome, legs: seq<Leg>)
    requires Plan(rows, snap, req, g, drawn) == Ok(legs)
    ensures 1 <= |legs| <= 2 && (!MovesCounter(req.body) ==> |legs| == 1 && !CountsAsLoss(legs[0].kind))
  {
  }

  /** A settled stake was allowed by the counter. */
  lemma StakeAllowed(s: Play, p: Player, e: Event)
    requires Sound(s, p) && e.req.player == p && (e.req.body.BetBody? || e.req.body.SpinBody?)
    requires Judge(s.db, e.req, Answers(s, p, e), e.drawn).Settles?
    ensures Allows(BookOf(s, p), e.req.body.amount, e.now)
  {
  }

  /** Each transaction of the limited player is one step of the counter, and no other transaction
      touches it. */
  lemma NextIsStep(s: Play, p: Player, e: Event)
    requires Sound(s, p)
    ensures Sound(Next(s, p, e), p)
    ensures var verdict := Judge(s.db, e.req, Answers(s, p, e), e.drawn);
      BookOf(Next(s, p, e), p) ==
        if verdict.Settles? && e.req.player == p && MovesCounter(e.req.body)
        then Step(BookOf(s, p), OpOf(e.req, verdict.legs, e.drawn), e.now) else BookOf(s, p)
    ensures var verdict := Judge(s.db, e.req, Answers(s, p, e), e.drawn);
      verdict.Settles? && MovesCounter(e.req.body) ==> OpOk(OpOf(e.req, verdict.legs, e.drawn))
  {
    NextSound(s, p, e);
    var verdict := Judge(s.db, e.req, Answers(s, p, e), e.drawn);
    if verdict.Settles? {
      var legs, player := verdict.legs, e.req.player;
      var extra := NewRows(s.db.rows, player, legs);
      NewRowsShape(s.db.rows, player, legs);
      ApplyLegsRows(s.db, player, legs);
      ForeignLegs(s.db.rows, s.db.wallets[player], e.req, Answers(s, p, e), e.drawn, legs);
      PostsOfTwo(s.db.rows, s.stamps, p, extra, e.now);
      if MovesCounter(e.req.body) {
        LegsAreLosses(s.db.rows, s.db.wallets[player], e.req, Answers(s, p, e), e.drawn, legs);
      }
      if player == p && MovesCounter(e.req.body) {
        if e.req.body.BetBody? || e.req.body.SpinBody? { StakeAllowed(s, p, e); }
        assert LossPosts(s.db.rows + extra, s.stamps + Stamps(|legs|, e.now), p) ==
          BookOf(s, p).ledger + Stamp(OpLosses(OpOf(e.req, legs, e.drawn)), e.now);
      } else {
        assert BookOf(s, p).ledger + Stamp([], e.now) == BookOf(s, p).ledger;
      }
    }
  }

  // --------------------------------------------------------------------------
  // The limit holds on the ledger
  // --------------------------------------------------------------------------

  predicate Ordered(events: seq<Event>, since: nat) {
    && (forall i :: 0 <= i < |events| ==> since <= events[i].now)
    && (forall i, j :: 0 <= i <= j < |events| ==> events[i].now <= events[j].now)
  }

  predicate Before(events: seq<Event>, now: nat) { forall i :: 0 <= i < |events| ==> events[i].now <= now }

  lemma NextKeepsHeld(s: Play, p: Player, l: Limit, e: Event, since: nat, raw0: Money, lag0: Money)
    requires Sound(s, p) && Held(BookOf(s, p), l, e.now, since, raw0, lag0) && lag0 >= 0
    ensures Sound(Next(s, p, e), p) && Held(BookOf(Next(s, p, e), p), l, e.now, since, raw0, lag0)
  {
    NextIsStep(s, p, e);
    var verdict := Judge(s.db, e.req, Answers(s, p, e), e.drawn);
    if verdict.Settles? && e.req.player == p && MovesCounter(e.req.body) {
      StepKeepsHeld(BookOf(s, p), l, OpOf(e.req, verdict.legs, e.drawn), e.now, since, raw0, lag0);
    }
  }

  lemma {:induction false} PlayKeepsHeld(s: Play, p: Player, l: Limit, events: seq<Event>, since: nat, now: nat)
    requires Sound(s, p) && s.limit == Some(l) && l.amount >= 0 && Past(BookOf(s, p), since) && Ordered(events, since)
    requires since <= now && Before(events, now)
    ensures Held(BookOf(PlayOn(s, p, events), p), l, now, since, RawAt(BookOf(s, p), l.period, since), Lag(BookOf(s, p), l.period, since))
    decreases |events|
  {
    var raw0, lag0 := RawAt(BookOf(s, p), l.period, since), Lag(BookOf(s, p), l.period, since);
    if events == [] {
      assert Held(BookOf(s, p), l, since, since, raw0, lag0);
      Waits(BookOf(s, p), l, since, now, since, raw0, lag0);
    } else {
      var n := |events| - 1;
      var e := events[n];
      PlayKeepsHeld(s, p, l, events[..n], since, e.now);
      var before := PlayOn(s, p, events[..n]);
      NextKeepsHeld(before, p, l, e, since, raw0, lag0);
      Waits(BookOf(PlayOn(s, p, events), p), l, e.now, now, since, raw0, lag0);
    }
  }

  /** What play has taken from the player's wallet in the current window, on balance. */
  function LossOnLedger(s: Play, p: Player, period: Period, now: nat): Money
    requires |s.db.rows| == |s.stamps|
  {
    Floored(-Gains(s.db.rows, s.stamps, p, WindowStart(period, now), WindowEnd(period, now)))
  }

  /** Over every sequence of requests of every kind by any players, with the engine's guard reading
      the counter, the limited player's net loss on the ledger never exceeds the limit or what it was
      when the limit began, and a fresh counter never falls behind it. */
  lemma LimitHoldsOnLedger(s: Play, p: Player, l: Limit, events: seq<Event>, since: nat, now: nat)
    requires Sound(s, p) && s.limit == Some(l) && l.amount >= 0 && Past(BookOf(s, p), since) && Ordered(events, since)
    requires since <= now && Before(events, now) && !FreshRow(s.counters, l.period, since)
    ensures var end := PlayOn(s, p, events);
      && (FreshRow(end.counters, l.period, now) ==> end.counters[l.period].amount >= LossOnLedger(end, p, l.period, now))
      && LossOnLedger(end, p, l.period, now) <=
           if SameWindow(l.period, now, since) then MaxMoney(l.amount, LossOnLedger(s, p, l.period, since)) else l.amount
  {
    PlayKeepsHeld(s, p, l, events, since, now);
    var end := PlayOn(s, p, events);
    LedgerLossIsRaw(end.db.rows, end.stamps, p, WindowStart(l.period, now), WindowEnd(l.period, now));
    LedgerLossIsRaw(s.db.rows, s.stamps, p, WindowStart(l.period, since), WindowEnd(l.period, since));
    LedgerLossIsGain(end.db.rows, end.stamps, p, WindowStart(l.period, now), WindowEnd(l.period, now));
    LedgerLossIsGain(s.db.rows, s.stamps, p, WindowStart(l.period, since), WindowEnd(l.period, since));
  }
}
