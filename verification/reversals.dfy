/** What reversing a BET really undoes: the stake, whatever the round has paid since, and once more
    for every retry that outlives its anchor. */
module Reversals {
  import opened Domain
  import opened Ledger
  import opened LedgerFacts
  import opened Protocol
  import opened ProtocolSafety
  import opened Guarantees
  import opened Rounds
  import opened Amounts
  import opened Engine
  import opened Runs
  import Game

  // --------------------------------------------------------------------------
  // When a rollback is planned
  // --------------------------------------------------------------------------

  /** In every reachable state a rollback is planned exactly when it names a BET of the player that
      no other rollback references: nothing about a WIN enters. */
  lemma RollbackPlannedExactly(s: State, snap: Wallet, req: Request, g: Guards, drawn: Game.Outcome, b: nat)
    requires Reachable(s) && req.body == RollbackBody(Some(b))
    ensures Plan(s.db.rows, snap, req, g, drawn).Ok? <==>
      && b < |s.db.rows| && s.db.rows[b].player == req.player && s.db.rows[b].kind == Bet
      && !RollbackExists(s.db.rows, b, RequestKey(req))
  {
    ReachableInv(s);
    if b < |s.db.rows| { RowsOkAt(s.db.rows, b); }
  }

  // --------------------------------------------------------------------------
  // The account of one round
  // --------------------------------------------------------------------------

  predicate IsFor(r: Row, p: Player, kind: Kind, b: nat) { r.player == p && r.kind == kind && r.reference == Some(b) }

  /** What transactions of one kind that reference BET `b` brought the player. */
  function Gained(rows: seq<Row>, p: Player, kind: Kind, b: nat, c: Currency): Money {
    if rows == [] then 0
    else
      var last := rows[|rows| - 1];
      Gained(rows[..|rows| - 1], p, kind, b, c) + if IsFor(last, p, kind, b) then Net(last.entries, c) else 0
  }

  /** The player's account of the round of BET `b`: the stake, its wins, its reversals. */
  function RoundNet(rows: seq<Row>, b: nat, c: Currency): Money
    requires b < |rows|
  {
    Net(rows[b].entries, c) + Gained(rows, rows[b].player, Win, b, c) + Gained(rows, rows[b].player, Rollback, b, c)
  }

  predicate NoneFor(rows: seq<Row>, p: Player, kind: Kind, b: nat) {
    forall i :: 0 <= i < |rows| ==> !IsFor(rows[i], p, kind, b)
  }

  lemma GainedSnoc(rows: seq<Row>, r: Row, p: Player, kind: Kind, b: nat, c: Currency)
    ensures Gained(rows + [r], p, kind, b, c) == Gained(rows, p, kind, b, c) + if IsFor(r, p, kind, b) then Net(r.entries, c) else 0
  {
    assert (rows + [r])[..|rows|] == rows;
  }

  lemma {:induction false} GainedNone(rows: seq<Row>, p: Player, kind: Kind, b: nat, c: Currency)
    requires NoneFor(rows, p, kind, b)
    ensures Gained(rows, p, kind, b, c) == 0
  {
    if rows != [] { GainedNone(rows[..|rows| - 1], p, kind, b, c); }
  }

  predicate Brings(r: Row) {
    Net(r.entries, GC) >= 0 && Net(r.entries, SCUnplayed) >= 0 && Net(r.entries, SCRedeemable) >= 0 && NetAll(r) > 0
  }

  /** A stake is never nothing. */
  lemma StakePositive(rows: seq<Row>, b: nat)
    requires RowsOk(rows) && b < |rows| && rows[b].kind == Bet
    ensures NetAll(rows[b]) < 0
  {
    RowsOkAt(rows, b);
    var es := rows[b].entries;
    PlayerLinesPositive(es);
    PlayerLinesNet(es, GC);
    PlayerLinesNet(es, SCUnplayed);
    PlayerLinesNet(es, SCRedeemable);
    TotalIsSums(PlayerLines(es));
    TotalPositive(PlayerLines(es));
  }

  lemma {:induction false} TotalPositive(lines: seq<Line>)
    requires AllPositive(lines)
    ensures Total(lines) >= 0 && (lines != [] ==> Total(lines) > 0)
  {
    if lines != [] { TotalPositive(lines[1..]); }
  }

  /** Wins and reversals bring the player something and take nothing. */
  lemma RowBrings(rows: seq<Row>, i: nat)
    requires RowsOk(rows) && i < |rows| && (rows[i].kind == Win || rows[i].kind == Rollback)
    ensures Brings(rows[i])
  {
    RowsOkAt(rows, i);
    if rows[i].kind == Rollback {
      var b := rows[i].reference.value;
      RowsOkAt(rows, b);
      assert rows[..i][b] == rows[b];
      StakePositive(rows, b);
    }
  }

  function GainedAll(rows: seq<Row>, p: Player, kind: Kind, b: nat): Money {
    Gained(rows, p, kind, b, GC) + Gained(rows, p, kind, b, SCUnplayed) + Gained(rows, p, kind, b, SCRedeemable)
  }

  lemma {:induction false} GainedNonNegative(rows: seq<Row>, n: nat, p: Player, kind: Kind, b: nat, c: Currency)
    requires RowsOk(rows) && n <= |rows| && (kind == Win || kind == Rollback)
    ensures Gained(rows[..n], p, kind, b, c) >= 0
  {
    if n > 0 {
      GainedNonNegative(rows, n - 1, p, kind, b, c);
      assert rows[..n] == rows[..n - 1] + [rows[n - 1]];
      GainedSnoc(rows[..n - 1], rows[n - 1], p, kind, b, c);
      if IsFor(rows[n - 1], p, kind, b) { RowBrings(rows, n - 1); }
    }
  }

  lemma GainedAllSnoc(rows: seq<Row>, r: Row, p: Player, kind: Kind, b: nat)
    ensures GainedAll(rows + [r], p, kind, b) == GainedAll(rows, p, kind, b) + if IsFor(r, p, kind, b) then NetAll(r) else 0
  {
    GainedSnoc(rows, r, p, kind, b, GC);
    GainedSnoc(rows, r, p, kind, b, SCUnplayed);
    GainedSnoc(rows, r, p, kind, b, SCRedeemable);
  }

  lemma {:induction false} GainedSome(rows: seq<Row>, n: nat, p: Player, kind: Kind, b: nat)
    requires RowsOk(rows) && n <= |rows| && (kind == Win || kind == Rollback)
    ensures GainedAll(rows[..n], p, kind, b) >= 0
    ensures (exists i :: 0 <= i < n && IsFor(rows[i], p, kind, b)) ==> GainedAll(rows[..n], p, kind, b) > 0
  {
    if n > 0 {
      GainedSome(rows, n - 1, p, kind, b);
      assert rows[..n] == rows[..n - 1] + [rows[n - 1]];
      GainedAllSnoc(rows[..n - 1], rows[n - 1], p, kind, b);
      if IsFor(rows[n - 1], p, kind, b) { RowBrings(rows, n - 1); }
    }
  }

  // --------------------------------------------------------------------------
  // What a reversal leaves
  // --------------------------------------------------------------------------

  /** The rows once a planned rollback has settled. */
  function Reversed(s: State, req: Request, leg: Leg): seq<Row> { s.db.rows + [ToRow(s.db.rows, req.player, leg)] }

  ghost predicate PlansReversal(s: State, req: Request, b: nat, snap: Wallet, g: Guards, drawn: Game.Outcome, leg: Leg) {
    && Reachable(s) && req.body == RollbackBody(Some(b)) && snap.NonNegative()
    && Plan(s.db.rows, snap, req, g, drawn) == Ok([leg])
  }

  /** The reversal refunds the stake per currency and touches nothing else, so the round is left
      with all it had won and all it had been refunded before. */
  lemma ReversalLeaves(s: State, req: Request, b: nat, snap: Wallet, g: Guards, drawn: Game.Outcome, leg: Leg, c: Currency)
    requires PlansReversal(s, req, b, snap, g, drawn, leg)
    ensures b < |s.db.rows| && leg.after.BalanceFor(c) == snap.BalanceFor(c) - Net(s.db.rows[b].entries, c)
    ensures RoundNet(Reversed(s, req, leg), b, c) ==
      Gained(s.db.rows, req.player, Win, b, c) + Gained(s.db.rows, req.player, Rollback, b, c)
  {
    ReachableInv(s);
    PlanSound(s.db.rows, snap, req, g, drawn);
    assert LegOk(s.db.rows, req.player, snap, leg) by { assert [leg][0] == leg; }
    var r := ToRow(s.db.rows, req.player, leg);
    assert r.kind == Rollback && r.reference == Some(b);
    assert Reversed(s, req, leg)[b] == s.db.rows[b];
    GainedSnoc(s.db.rows, r, req.player, Win, b, c);
    GainedSnoc(s.db.rows, r, req.player, Rollback, b, c);
  }

  /** Reversing leaves the player no better off, in any currency, than never having played exactly
      when nothing was won on the BET and nothing of it was reversed before: both can be read from
      the ledger before the call. */
  lemma NoBetterOffExactly(s: State, req: Request, b: nat, snap: Wallet, g: Guards, drawn: Game.Outcome, leg: Leg)
    requires PlansReversal(s, req, b, snap, g, drawn, leg)
    ensures b < |s.db.rows|
    ensures (forall c: Currency :: RoundNet(Reversed(s, req, leg), b, c) <= 0) <==>
      NoneFor(s.db.rows, req.player, Win, b) && NoneFor(s.db.rows, req.player, Rollback, b)
  {
    ReachableInv(s);
    var rows, p := s.db.rows, req.player;
    assert rows[..|rows|] == rows;
    forall c: Currency
      ensures Gained(rows, p, Win, b, c) >= 0 && Gained(rows, p, Rollback, b, c) >= 0
      ensures RoundNet(Reversed(s, req, leg), b, c) == Gained(rows, p, Win, b, c) + Gained(rows, p, Rollback, b, c)
    {
      GainedNonNegative(rows, |rows|, p, Win, b, c);
      GainedNonNegative(rows, |rows|, p, Rollback, b, c);
      ReversalLeaves(s, req, b, snap, g, drawn, leg, c);
    }
    ReversalLeaves(s, req, b, snap, g, drawn, leg, GC);
    if NoneFor(rows, p, Win, b) && NoneFor(rows, p, Rollback, b) {
      forall c: Currency ensures RoundNet(Reversed(s, req, leg), b, c) == 0 {
        GainedNone(rows, p, Win, b, c);
        GainedNone(rows, p, Rollback, b, c);
      }
    } else {
      var kind := if NoneFor(rows, p, Win, b) then Rollback else Win;
      GainedSome(rows, |rows|, p, kind, b);
      assert Gained(rows, p, kind, b, GC) > 0 || Gained(rows, p, kind, b, SCUnplayed) > 0 || Gained(rows, p, kind, b, SCRedeemable) > 0;
    }
  }

  /** Nothing but the BET leg's own WIN leg has settled the round. */
  predicate OnlyOwnWin(rows: seq<Row>, p: Player, b: nat)
    requires b < |rows|
  {
    forall i :: 0 <= i < |rows| && (IsFor(rows[i], p, Win, b) || IsFor(rows[i], p, Rollback, b)) ==>
      i == b + 1 && WinOf(rows[b], rows[i], b)
  }

  lemma {:induction false} GainedFromOne(rows: seq<Row>, n: nat, p: Player, b: nat, c: Currency)
    requires b + 1 < n <= |rows| && OnlyOwnWin(rows, p, b) && IsFor(rows[b + 1], p, Win, b)
    ensures Gained(rows[..n], p, Win, b, c) == Net(rows[b + 1].entries, c) && Gained(rows[..n], p, Rollback, b, c) == 0
  {
    assert rows[..n] == rows[..n - 1] + [rows[n - 1]];
    GainedSnoc(rows[..n - 1], rows[n - 1], p, Win, b, c);
    GainedSnoc(rows[..n - 1], rows[n - 1], p, Rollback, b, c);
    if n - 1 > b + 1 {
      GainedFromOne(rows, n - 1, p, b, c);
    } else {
      GainedNone(rows[..n - 1], p, Win, b, c);
      GainedNone(rows[..n - 1], p, Rollback, b, c);
    }
  }

  /** So a round that paid can still be reversed, and the player keeps exactly the win. */
  lemma PaidRoundReversed(s: State, req: Request, b: nat, snap: Wallet, g: Guards, drawn: Game.Outcome)
    requires Reachable(s) && req.body == RollbackBody(Some(b)) && snap.NonNegative()
    requires b + 1 < |s.db.rows| && s.db.rows[b].kind == Bet && s.db.rows[b].player == req.player
    requires WinOf(s.db.rows[b], s.db.rows[b + 1], b) && OnlyOwnWin(s.db.rows, req.player, b)
    ensures var plan := Plan(s.db.rows, snap, req, g, drawn);
      && plan.Ok? && |plan.value| == 1
      && (forall c: Currency :: plan.value[0].after.BalanceFor(c) == snap.BalanceFor(c) - Net(s.db.rows[b].entries, c))
      && (forall c: Currency :: RoundNet(Reversed(s, req, plan.value[0]), b, c) == Net(s.db.rows[b + 1].entries, c))
      && NetAll(s.db.rows[b + 1]) > 0
  {
    ReachableInv(s);
    var rows := s.db.rows;
    forall i | 0 <= i < |rows| ensures !IsOtherRollback(rows[i], b, RequestKey(req)) {
      if rows[i].kind == Rollback { RowsOkAt(rows, i); }
    }
    RollbackPlannedExactly(s, snap, req, g, drawn, b);
    var leg := Plan(rows, snap, req, g, drawn).value[0];
    assert Plan(rows, snap, req, g, drawn) == Ok([leg]);
    assert rows[..|rows|] == rows;
    forall c: Currency
      ensures leg.after.BalanceFor(c) == snap.BalanceFor(c) - Net(rows[b].entries, c)
      ensures RoundNet(Reversed(s, req, leg), b, c) == Net(rows[b + 1].entries, c)
    {
      ReversalLeaves(s, req, b, snap, g, drawn, leg, c);
      GainedFromOne(rows, |rows|, req.player, b, c);
    }
  }

  /** For a spin's round that nothing else settled, the condition is the recorded outcome: reversing
      leaves the player no better off exactly when it does not pay. */
  lemma SpinNoBetterOffExactly(s: State, req: Request, b: nat, snap: Wallet, g: Guards, drawn: Game.Outcome, leg: Leg)
    requires PlansReversal(s, req, b, snap, g, drawn, leg) && SuffixFree(s.procs)
    requires b < |s.db.rows| && Ends(s.db.rows[b].key.tx, BET_LEG) && OnlyOwnWin(s.db.rows, req.player, b)
    ensures (forall c: Currency :: RoundNet(Reversed(s, req, leg), b, c) <= 0) <==>
      Game.WinFor(-NetAll(s.db.rows[b]), s.db.rows[b].meta) <= 0
  {
    RoundsAreWhole(s, b);
    NoBetterOffExactly(s, req, b, snap, g, drawn, leg);
    RollbackPlannedExactly(s, snap, req, g, drawn, b);
  }

  // --------------------------------------------------------------------------
  // Runs that reach it
  // --------------------------------------------------------------------------

  /** The state after a call of one transaction, once its cached reply has lapsed. */
  function OneLegDone(s: State, id: nat, req: Request, leg: Leg): State {
    CallDone(s, id, req, req.meta, [leg]).(redis := s.redis)
  }

  lemma OneLegCall(s: State, id: nat, req: Request, leg: Leg)
    requires ReadyFor(s, id, req) && req.player in s.db.wallets && leg.key == RequestKey(req) && leg.key !in s.db.dedup
    requires Plan(s.db.rows, s.db.wallets[req.player], req, OPEN, req.meta) == Ok([leg])
    ensures Reachable(OneLegDone(s, id, req, leg)) && Quiet(OneLegDone(s, id, req, leg))
    ensures OneLegDone(s, id, req, leg).db == ApplyLeg(s.db, req.player, leg)
  {
    OneLegVerdict(s.db, req, OPEN, req.meta, leg);
    CallSettlesAndLapses(s, id, req, OPEN, req.meta, [leg]);
    assert ApplyLegs(s.db, req.player, [leg]) == ApplyLeg(s.db, req.player, leg) by { assert [leg][1..] == []; }
  }

  /** A reversal as a whole call in a quiet state. */
  lemma ReversalSettles(s: State, id: nat, req: Request, b: nat, leg: Leg)
    requires ReadyFor(s, id, req) && req.player in s.db.wallets && RequestKey(req) !in s.db.dedup
    requires PlansReversal(s, req, b, s.db.wallets[req.player], OPEN, req.meta, leg)
    ensures var t := OneLegDone(s, id, req, leg);
      && Reachable(t) && Quiet(t) && t.db.rows == Reversed(s, req, leg) && t.db.wallets == s.db.wallets[req.player := leg.after]
      && RequestKey(req) in t.db.dedup && t.db.rows[|s.db.rows|].key == RequestKey(req) && IsReversalOf(t.db.rows[|s.db.rows|], b)
    ensures b < |s.db.rows|
    ensures forall c: Currency :: leg.after.BalanceFor(c) == s.db.wallets[req.player].BalanceFor(c) - Net(s.db.rows[b].entries, c)
  {
    assert leg.key == RequestKey(req) && leg.kind == Rollback && leg.reference == RefTo(b);
    OneLegCall(s, id, req, leg);
    ReversalLeaves(s, req, b, s.db.wallets[req.player], OPEN, req.meta, leg, GC);
    forall c: Currency ensures leg.after.BalanceFor(c) == s.db.wallets[req.player].BalanceFor(c) - Net(s.db.rows[b].entries, c) {
      ReversalLeaves(s, req, b, s.db.wallets[req.player], OPEN, req.meta, leg, c);
    }
  }

  function Pruned(s: State, k: Key): State {
    s.(db := s.db.(dedup := s.db.dedup - {k}), prunes := s.prunes[k := Prunes(s, k) + 1])
  }

  /** From any quiet state in which a reversal's anchor still stands: prune it, let the operator
      retry, and the stake is credited once more. */
  lemma LateRetryCreditsAgain(s: State, id: nat, req: Request, b: nat, i: nat) returns (leg: Leg, t: State)
    requires ReadyFor(s, id, req) && req.player in s.db.wallets && req.body == RollbackBody(Some(b))
    requires i < |s.db.rows| && IsReversalOf(s.db.rows[i], b) && s.db.rows[i].player == req.player
    requires s.db.rows[i].key == RequestKey(req) && RequestKey(req) in s.db.dedup
    ensures t == OneLegDone(Pruned(s, RequestKey(req)), id, req, leg) && Reachable(t) && Quiet(t)
    ensures t.db.rows == Reversed(s, req, leg) && IsReversalOf(t.db.rows[|s.db.rows|], b)
    ensures b < |s.db.rows| && t.db.wallets == s.db.wallets[req.player := leg.after]
    ensures forall c: Currency ::
      t.db.wallets[req.player].BalanceFor(c) == s.db.wallets[req.player].BalanceFor(c) - Net(s.db.rows[b].entries, c)
  {
    var s1 := Pruned(s, RequestKey(req));
    ReachableStep(s, Prune(RequestKey(req)), s1);
    leg := ReplannedReversal(s1, req, b, i);
    ReversalSettles(s1, id, req, b, leg);
    t := OneLegDone(s1, id, req, leg);
  }

  lemma ReplannedReversal(s: State, req: Request, b: nat, i: nat) returns (leg: Leg)
    requires Reachable(s) && req.player in s.db.wallets && req.body == RollbackBody(Some(b))
    requires i < |s.db.rows| && IsReversalOf(s.db.rows[i], b) && s.db.rows[i].player == req.player && s.db.rows[i].key == RequestKey(req)
    ensures PlansReversal(s, req, b, s.db.wallets[req.player], OPEN, req.meta, leg)
  {
    ReachableInv(s);
    RollbackReplans(s, req, s.db.wallets[req.player], i, OPEN, req.meta);
    leg := Plan(s.db.rows, s.db.wallets[req.player], req, OPEN, req.meta).value[0];
    assert Plan(s.db.rows, s.db.wallets[req.player], req, OPEN, req.meta) == Ok([leg]);
  }

  // --------------------------------------------------------------------------
  // Two concrete runs
  // --------------------------------------------------------------------------

  function Call(tx: string, body: Body, meta: Game.Outcome): Request { Request("op", tx, 1, "", body, meta) }

  /** A player buys 10, plays 10 in a round that pays 20, and the BET leg is reversed afterwards: 30
      remain of the 10 bought. */
  lemma PaidRoundReversedRun(paid: Game.Outcome) returns (t: State)
    requires paid.multiplier == 2.0
    ensures Reachable(t) && t.db.wallets == map[1 := Wallet(30, 0, 0)]
    ensures |t.db.rows| == 4 && WinOf(t.db.rows[1], t.db.rows[2], 1) && IsReversalOf(t.db.rows[3], 1)
    ensures t.db.rows[0].kind == Deposit && Net(t.db.rows[0].entries, GC) == 10
  {
    OnePlayerIsReachable(1, 0);
    var buy, leg0 := BuyTen(OnePlayer(1, 0), paid);
    var spin := Call("s", SpinBody(FamilyGC, 10), paid);
    var s2 := SpinTen(OneLegDone(OnePlayer(1, 0), 0, buy, leg0), spin, paid);
    t := ReversePaid(s2, paid);
  }

  lemma BuyTen(s: State, meta: Game.Outcome) returns (buy: Request, leg: Leg)
    requires s == OnePlayer(1, 0) && Reachable(s) && Quiet(s)
    ensures buy == Call("p", PurchaseBody(10, 0), meta)
    ensures var t := OneLegDone(s, 0, buy, leg);
      && Reachable(t) && Quiet(t) && t.redis == map[] && t.maxWin == 0 && t.procs.Keys == {0}
      && t.db.wallets == map[1 := Wallet(10, 0, 0)]
      && |t.db.rows| == 1 && t.db.rows[0].kind == Deposit && Net(t.db.rows[0].entries, GC) == 10
      && t.db.dedup.Keys == {Key("op", "p")}
  {
    buy := Call("p", PurchaseBody(10, 0), meta);
    IssuanceNeverMintsRedeemable(ZERO_WALLET, 10, 0);
    IssueMoves(ZERO_WALLET, 10, 0, HouseIssuancePool);
    leg := PlanIssue(RequestKey(buy), Deposit, HouseIssuancePool, meta, ZERO_WALLET, AllocatePurchase(10, 0)).value;
    OneLegCall(s, 0, buy, leg);
    assert OneLegDone(s, 0, buy, leg).db.rows == [ToRow([], 1, leg)];
  }

  /** What a round of 10 from a wallet of 10 plans when it pays double. */
  lemma TenPlan(spin: Request, paid: Game.Outcome) returns (bet: Leg, win: Leg)
    requires spin == Call("s", SpinBody(FamilyGC, 10), paid) && paid.multiplier == 2.0
    ensures PlanSpin(spin, Wallet(10, 0, 0), paid) == Ok([bet, win])
    ensures bet.key == Key("op", "s:bet") && win.key == Key("op", "s:win") && bet.after == ZERO_WALLET && win.after == Wallet(20, 0, 0)
    ensures Net(bet.entries, GC) == -10 && Net(bet.entries, SCUnplayed) == 0 && Net(bet.entries, SCRedeemable) == 0
    ensures Net(win.entries, GC) + Net(win.entries, SCUnplayed) + Net(win.entries, SCRedeemable) == 20
  {
    var snap := Wallet(10, 0, 0);
    assert "s" + BET_LEG == "s:bet" && "s" + WIN_LEG == "s:win";
    assert Game.WinFor(10, paid) == 20;
    bet := PlanBet(Key("op", "s" + BET_LEG), paid, snap, FamilyGC, 10).value;
    win := PlanWin(Key("op", "s" + WIN_LEG), RefPrevious, paid, bet.after, FamilyGC, 20).value;
    SumOfOne(Line(GC, 10));
    SumOfOne(Line(GC, 20));
    EntriesForOk([Line(GC, 10)], Debit, HouseBetPool, bet.after);
    EntriesForOk([Line(GC, 20)], Credit, HouseWinPool, win.after);
  }

  lemma SpinTen(s: State, spin: Request, paid: Game.Outcome) returns (t: State)
    requires spin == Call("s", SpinBody(FamilyGC, 10), paid) && paid.multiplier == 2.0 && ReadyFor(s, 1, spin)
    requires s.db.wallets == map[1 := Wallet(10, 0, 0)] && |s.db.rows| == 1 && s.db.rows[0].kind == Deposit
    requires s.db.dedup.Keys == {Key("op", "p")}
    ensures Reachable(t) && Quiet(t) && t.redis == s.redis && t.maxWin == s.maxWin && t.procs.Keys == s.procs.Keys + {1}
    ensures PaidTen(t.db) && t.db.rows[0] == s.db.rows[0]
  {
    var bet, win := TenPlan(spin, paid);
    SpinPlan(s.db, spin, OPEN, paid, [bet, win]);
    TwoLegs(s.db, 1, bet, win);
    CallSettlesAndLapses(s, 1, spin, OPEN, paid, [bet, win]);
    t := CallDone(s, 1, spin, paid, [bet, win]).(redis := s.redis);
    TenWritten(s.db, bet, win);
  }

  /** The tables once the round of 10 has paid 20. */
  predicate PaidTen(db: Db) {
    && db.wallets == map[1 := Wallet(20, 0, 0)]
    && |db.rows| == 3 && db.rows[0].kind == Deposit && db.rows[2].kind == Win
    && db.rows[1].kind == Bet && db.rows[1].player == 1 && WinOf(db.rows[1], db.rows[2], 1)
    && Net(db.rows[1].entries, GC) == -10 && Net(db.rows[1].entries, SCUnplayed) == 0 && Net(db.rows[1].entries, SCRedeemable) == 0
    && db.dedup.Keys == {Key("op", "p"), Key("op", "s:bet"), Key("op", "s:win")}
  }

  lemma TenWritten(db: Db, bet: Leg, win: Leg)
    requires db.wallets == map[1 := Wallet(10, 0, 0)] && |db.rows| == 1 && db.rows[0].kind == Deposit && db.dedup.Keys == {Key("op", "p")}
    requires bet.kind == Bet && bet.reference == NoRef && win.kind == Win && win.reference == RefPrevious && win.meta == bet.meta
    requires bet.meta.multiplier == 2.0 && bet.key == Key("op", "s:bet") && win.key == Key("op", "s:win") && win.after == Wallet(20, 0, 0)
    requires Net(bet.entries, GC) == -10 && Net(bet.entries, SCUnplayed) == 0 && Net(bet.entries, SCRedeemable) == 0
    requires Net(win.entries, GC) + Net(win.entries, SCUnplayed) + Net(win.entries, SCRedeemable) == 20
    ensures PaidTen(ApplyLeg(ApplyLeg(db, 1, bet), 1, win))
  {
    var after := ApplyLeg(ApplyLeg(db, 1, bet), 1, win);
    var r1, r2 := ToRow(db.rows, 1, bet), ToRow(db.rows + [ToRow(db.rows, 1, bet)], 1, win);
    assert after.rows[1] == r1 && after.rows[2] == r2;
    TenIsWon(r1, r2);
  }

  lemma TenIsWon(bet: Row, win: Row)
    requires bet.key == Key("op", "s:bet") && win.key == Key("op", "s:win") && win.kind == Win && win.reference == Some(1)
    requires win.player == bet.player && win.meta == bet.meta && bet.meta.multiplier == 2.0
    requires NetAll(bet) == -10 && NetAll(win) == 20
    ensures WinOf(bet, win, 1)
  {
    assert "s:bet" == "s" + BET_LEG && "s:win" == "s" + WIN_LEG;
    LegEnds("s");
    assert -NetAll(bet) == 10;
    assert Game.WinFor(10, bet.meta) == 20;
  }

  lemma ReversePaid(s: State, meta: Game.Outcome) returns (t: State)
    requires Reachable(s) && Quiet(s) && s.redis == map[] && s.procs.Keys == {0, 1} && s.maxWin == 0 && PaidTen(s.db)
    ensures Reachable(t) && t.db.wallets == map[1 := Wallet(30, 0, 0)]
    ensures |t.db.rows| == 4 && t.db.rows[0] == s.db.rows[0] && WinOf(t.db.rows[1], t.db.rows[2], 1) && IsReversalOf(t.db.rows[3], 1)
  {
    var back := Call("r", RollbackBody(Some(1)), meta);
    var snap := s.db.wallets[1];
    RollbackPlannedExactly(s, snap, back, OPEN, meta, 1);
    var leg := Plan(s.db.rows, snap, back, OPEN, meta).value[0];
    assert Plan(s.db.rows, snap, back, OPEN, meta) == Ok([leg]);
    ReversalSettles(s, 2, back, 1, leg);
    t := OneLegDone(s, 2, back, leg);
    assert leg.after.BalanceFor(GC) == 30 && leg.after.BalanceFor(SCUnplayed) == 0 && leg.after.BalanceFor(SCRedeemable) == 0;
  }

  /** A player wins 10 redeemable coins, stakes them, and the stake is reversed twice, the second time
      by a retry that outlived its anchor: 20 are held though only 10 were ever won, and two calls of
      one key were told PROCESSED. */
  lemma LateRetryRun(meta: Game.Outcome) returns (t: State)
    ensures Reachable(t) && t.db.wallets == map[1 := Wallet(0, 0, 20)] && Redeemable(t.db.rows, 1, Win) == 10
    ensures |t.db.rows| == 4 && IsReversalOf(t.db.rows[2], 1) && IsReversalOf(t.db.rows[3], 1)
    ensures exists i, j :: i != j && BothProcessed(t, i, j)
  {
    OnePlayerIsReachable(1, 0);
    var s1 := WinTen(OnePlayer(1, 0), meta);
    var s2 := StakeTen(s1, meta);
    var back := Call("r", RollbackBody(Some(1)), meta);
    var leg2, s3 := ReverseTen(s2, back);
    t := RetryTen(s3, back);
    assert BothProcessed(t, 2, 3);
  }

  /** Two calls with one request were both told PROCESSED. */
  predicate BothProcessed(s: State, i: nat, j: nat) {
    && i in s.procs && j in s.procs && s.procs[i].pc.Replied? && s.procs[j].pc.Replied?
    && s.procs[i].pc.status == Processed && s.procs[j].pc.status == Processed && s.procs[i].req == s.procs[j].req
  }

  lemma RetryTen(s: State, back: Request) returns (t: State)
    requires Reachable(s) && Quiet(s) && s.redis == map[] && s.maxWin == 0 && s.procs.Keys == {0, 1, 2}
    requires back == Call("r", RollbackBody(Some(1)), back.meta) && RequestKey(back) in s.db.dedup
    requires s.db.wallets == map[1 := Wallet(0, 0, 10)] && |s.db.rows| == 3 && IsReversalOf(s.db.rows[2], 1)
    requires s.db.rows[2].player == 1 && s.db.rows[2].key == RequestKey(back) && Redeemable(s.db.rows, 1, Win) == 10
    requires Net(s.db.rows[1].entries, GC) == 0 && Net(s.db.rows[1].entries, SCUnplayed) == 0 && Net(s.db.rows[1].entries, SCRedeemable) == -10
    requires s.procs[2].pc.Replied? && s.procs[2].pc.status == Processed && s.procs[2].req == back
    ensures Reachable(t) && t.db.wallets == map[1 := Wallet(0, 0, 20)] && Redeemable(t.db.rows, 1, Win) == 10
    ensures |t.db.rows| == 4 && t.db.rows[..3] == s.db.rows && IsReversalOf(t.db.rows[3], 1) && BothProcessed(t, 2, 3)
  {
    var leg;
    leg, t := LateRetryCreditsAgain(s, 3, back, 1, 2);
    assert leg.after == t.db.wallets[1];
    assert leg.after.BalanceFor(GC) == 0 && leg.after.BalanceFor(SCUnplayed) == 0 && leg.after.BalanceFor(SCRedeemable) == 20;
    assert t.db.rows[..3] == s.db.rows;
    assert t.procs[2] == s.procs[2] && t.procs[3].req == back;
  }

  lemma WinLegOfTen(key: Key, meta: Game.Outcome) returns (leg: Leg)
    ensures PlanWin(key, NoRef, meta, ZERO_WALLET, FamilySC, 10) == Ok(leg)
    ensures leg.key == key && leg.kind == Win && leg.after == Wallet(0, 0, 10) && Net(leg.entries, SCRedeemable) == 10
  {
    leg := PlanWin(key, NoRef, meta, ZERO_WALLET, FamilySC, 10).value;
    OneLineNet(Line(SCRedeemable, 10), Credit, HouseWinPool, leg.after, SCRedeemable);
  }

  lemma TenDebited()
    ensures AllocateBet(Wallet(0, 0, 10), FamilySC, 10) == Ok([Line(SCRedeemable, 10)])
    ensures Debited(Wallet(0, 0, 10), [Line(SCRedeemable, 10)]) == Ok(ZERO_WALLET)
  {
    assert PositiveOf(Line(SCUnplayed, 0), Line(SCRedeemable, 10)) == [Line(SCRedeemable, 10)];
    assert [Line(SCRedeemable, 10)][1..] == [];
  }

  lemma BetLegOfTen(key: Key, meta: Game.Outcome) returns (leg: Leg)
    ensures PlanBet(key, meta, Wallet(0, 0, 10), FamilySC, 10) == Ok(leg)
    ensures leg.key == key && leg.kind == Bet && leg.after == ZERO_WALLET
    ensures Net(leg.entries, GC) == 0 && Net(leg.entries, SCUnplayed) == 0 && Net(leg.entries, SCRedeemable) == -10
  {
    TenDebited();
    var lines := [Line(SCRedeemable, 10)];
    leg := Leg(key, Bet, NoRef, meta, EntriesFor(lines, Debit, HouseBetPool, ZERO_WALLET), ZERO_WALLET);
    OneLineNet(lines[0], Debit, HouseBetPool, ZERO_WALLET, GC);
    OneLineNet(lines[0], Debit, HouseBetPool, ZERO_WALLET, SCUnplayed);
    OneLineNet(lines[0], Debit, HouseBetPool, ZERO_WALLET, SCRedeemable);
  }

  lemma RedeemableSnoc(rows: seq<Row>, r: Row, p: Player, kind: Kind)
    ensures Redeemable(rows + [r], p, kind) ==
      Redeemable(rows, p, kind) + if r.player == p && r.kind == kind then Net(r.entries, SCRedeemable) else 0
  {
    assert (rows + [r])[..|rows|] == rows;
  }

  lemma WinTen(s: State, meta: Game.Outcome) returns (t: State)
    requires s == OnePlayer(1, 0) && Reachable(s) && Quiet(s)
    ensures Reachable(t) && Quiet(t) && t.redis == map[] && t.maxWin == 0 && t.procs.Keys == {0}
    ensures t.db.wallets == map[1 := Wallet(0, 0, 10)] && t.db.dedup.Keys == {Key("op", "w")}
    ensures |t.db.rows| == 1 && Redeemable(t.db.rows, 1, Win) == 10 && t.db.rows[0].kind == Win
  {
    var win := Call("w", WinBody(FamilySC, 10, None), meta);
    var leg := WinTenSettles(s, win);
    t := OneLegDone(s, 0, win, leg);
    WonTen(s.db.rows, ToRow(s.db.rows, 1, leg));
    FirstAnchor(s.db.dedup, leg.key, |s.db.rows|);
    OnlyWallet(s.db.wallets, ZERO_WALLET, leg.after);
  }

  lemma WinTenSettles(s: State, win: Request) returns (leg: Leg)
    requires s == OnePlayer(1, 0) && Reachable(s) && Quiet(s) && win == Call("w", WinBody(FamilySC, 10, None), win.meta)
    ensures Reachable(OneLegDone(s, 0, win, leg)) && Quiet(OneLegDone(s, 0, win, leg))
    ensures OneLegDone(s, 0, win, leg).db == ApplyLeg(s.db, 1, leg)
    ensures leg.key == Key("op", "w") && leg.kind == Win && leg.after == Wallet(0, 0, 10) && Net(leg.entries, SCRedeemable) == 10
  {
    leg := WinLegOfTen(RequestKey(win), win.meta);
    assert Plan([], ZERO_WALLET, win, OPEN, win.meta) == Ok([leg]);
    OneLegCall(s, 0, win, leg);
  }

  lemma FirstAnchor(dedup: map<Key, nat>, k: Key, v: nat)
    requires dedup == map[]
    ensures dedup[k := v].Keys == {k}
  {
  }

  lemma OnlyWallet(wallets: map<Player, Wallet>, before: Wallet, after: Wallet)
    requires wallets == map[1 := before]
    ensures wallets[1 := after] == map[1 := after]
  {
  }

  /** The rows once the first win is written. */
  lemma WonTen(rows: seq<Row>, r: Row)
    requires rows == [] && r.player == 1 && r.kind == Win && Net(r.entries, SCRedeemable) == 10
    ensures Redeemable(rows + [r], 1, Win) == 10 && |rows + [r]| == 1 && (rows + [r])[0].kind == Win
  {
    RedeemableSnoc(rows, r, 1, Win);
  }

  lemma StakeTen(s: State, meta: Game.Outcome) returns (t: State)
    requires Reachable(s) && Quiet(s) && s.redis == map[] && s.maxWin == 0 && s.procs.Keys == {0}
    requires s.db.wallets == map[1 := Wallet(0, 0, 10)] && s.db.dedup.Keys == {Key("op", "w")}
    requires |s.db.rows| == 1 && Redeemable(s.db.rows, 1, Win) == 10 && s.db.rows[0].kind == Win
    ensures Reachable(t) && Quiet(t) && t.redis == map[] && t.maxWin == 0 && t.procs.Keys == {0, 1}
    ensures StakedTen(t.db)
  {
    var bet := Call("b", BetBody(FamilySC, 10), meta);
    var leg := BetLegOfTen(RequestKey(bet), meta);
    OneLegCall(s, 1, bet, leg);
    t := OneLegDone(s, 1, bet, leg);
    RedeemableSnoc(s.db.rows, ToRow(s.db.rows, 1, leg), 1, Win);
  }

  predicate StakedTen(db: Db) {
    && db.wallets == map[1 := ZERO_WALLET] && db.dedup.Keys == {Key("op", "w"), Key("op", "b")}
    && |db.rows| == 2 && Redeemable(db.rows, 1, Win) == 10 && db.rows[0].kind == Win && db.rows[1].kind == Bet && db.rows[1].player == 1
    && Net(db.rows[1].entries, GC) == 0 && Net(db.rows[1].entries, SCUnplayed) == 0 && Net(db.rows[1].entries, SCRedeemable) == -10
  }

  lemma ReverseTen(s: State, back: Request) returns (leg: Leg, t: State)
    requires Reachable(s) && Quiet(s) && s.redis == map[] && s.maxWin == 0 && s.procs.Keys == {0, 1} && StakedTen(s.db)
    requires back == Call("r", RollbackBody(Some(1)), back.meta)
    ensures t == OneLegDone(s, 2, back, leg) && Reachable(t) && Quiet(t) && t.redis == map[] && t.maxWin == 0 && t.procs.Keys == {0, 1, 2}
    ensures t.db.wallets == map[1 := Wallet(0, 0, 10)] && RequestKey(back) in t.db.dedup
    ensures |t.db.rows| == 3 && t.db.rows[..2] == s.db.rows && IsReversalOf(t.db.rows[2], 1)
    ensures t.db.rows[2].player == 1 && t.db.rows[2].key == RequestKey(back) && Redeemable(t.db.rows, 1, Win) == 10
    ensures t.procs[2].pc.Replied? && t.procs[2].pc.status == Processed && t.procs[2].req == back
  {
    var snap := s.db.wallets[1];
    RollbackPlannedExactly(s, snap, back, OPEN, back.meta, 1);
    leg := Plan(s.db.rows, snap, back, OPEN, back.meta).value[0];
    assert Plan(s.db.rows, snap, back, OPEN, back.meta) == Ok([leg]);
    ReversalSettles(s, 2, back, 1, leg);
    t := OneLegDone(s, 2, back, leg);
    assert t.db.rows[..2] == s.db.rows;
    assert leg.after.BalanceFor(GC) == 0 && leg.after.BalanceFor(SCUnplayed) == 0 && leg.after.BalanceFor(SCRedeemable) == 10;
  }
}
