/** What a settled round looks like in the ledger: a BET leg with its outcome, and directly after
    it a WIN leg exactly when the outcome pays, for exactly the payout of the stake. */
module Rounds {
  import opened Domain
  import opened Ledger
  import opened LedgerFacts
  import opened Protocol
  import opened ProtocolSafety
  import opened Steps
  import Game

  predicate Ends(tx: string, leg: string) { |leg| <= |tx| && tx[|tx| - |leg|..] == leg }

  function Base(tx: string): string
    requires Ends(tx, BET_LEG)
  {
    tx[..|tx| - |BET_LEG|]
  }

  function NetAll(r: Row): Money { Net(r.entries, GC) + Net(r.entries, SCUnplayed) + Net(r.entries, SCRedeemable) }

  /** `win` is written as the WIN leg of the round whose BET leg is ledger transaction `id`. */
  predicate LegOfRound(bet: Row, win: Row, id: nat) {
    && Ends(bet.key.tx, BET_LEG) && win.key == Key(bet.key.op, Base(bet.key.tx) + WIN_LEG)
    && win.kind == Win && win.reference == Some(id) && win.player == bet.player && win.meta == bet.meta
  }

  /** And pays the round's outcome. */
  predicate WinOf(bet: Row, win: Row, id: nat) {
    LegOfRound(bet, win, id) && NetAll(win) == Game.WinFor(-NetAll(bet), bet.meta) && NetAll(win) > 0
  }

  predicate RoundAt(rows: seq<Row>, i: nat)
    requires i < |rows|
  {
    && (Ends(rows[i].key.tx, BET_LEG) ==>
          && rows[i].kind == Bet && NetAll(rows[i]) < 0
          && (Game.WinFor(-NetAll(rows[i]), rows[i].meta) > 0 ==> i + 1 < |rows| && WinOf(rows[i], rows[i + 1], i)))
    && (Ends(rows[i].key.tx, WIN_LEG) ==> i > 0 && WinOf(rows[i - 1], rows[i], i - 1))
  }

  ghost predicate RoundsOk(rows: seq<Row>) { forall i :: 0 <= i < |rows| ==> RoundAt(rows, i) }

  /** Only spins write keys that end in a leg suffix. */
  ghost predicate SuffixFree(procs: map<nat, Proc>) {
    forall j :: j in procs && !procs[j].req.body.SpinBody? ==>
      !Ends(procs[j].req.tx, BET_LEG) && !Ends(procs[j].req.tx, WIN_LEG)
  }

  lemma LegEnds(tx: string)
    ensures Ends(tx + BET_LEG, BET_LEG) && !Ends(tx + BET_LEG, WIN_LEG) && Base(tx + BET_LEG) == tx
    ensures Ends(tx + WIN_LEG, WIN_LEG) && !Ends(tx + WIN_LEG, BET_LEG)
  {
    assert (tx + BET_LEG)[|tx|..] == BET_LEG && (tx + WIN_LEG)[|tx|..] == WIN_LEG;
    assert BET_LEG[1] != WIN_LEG[1];
  }

  lemma RowsAppend(rows: seq<Row>, extra: seq<Row>)
    requires RoundsOk(rows)
    requires forall i :: |rows| <= i < |rows + extra| ==> RoundAt(rows + extra, i)
    ensures RoundsOk(rows + extra)
  {
    forall i | 0 <= i < |rows| ensures RoundAt(rows + extra, i) { assert RoundAt(rows, i); }
  }

  lemma BetLegNet(key: Key, meta: Game.Outcome, snap: Wallet, family: Family, amount: Money, r: Row)
    requires snap.NonNegative() && PlanBet(key, meta, snap, family, amount).Ok?
    requires r.entries == PlanBet(key, meta, snap, family, amount).value.entries
    ensures NetAll(r) == -amount && amount > 0
  {
    var debits := AllocateBet(snap, family, amount).value;
    AllocateBetExact(snap, family, amount);
    EntriesForOk(debits, Debit, HouseBetPool, Debited(snap, debits).value);
  }

  lemma WinLegNet(key: Key, reference: Reference, meta: Game.Outcome, snap: Wallet, family: Family, amount: Money, r: Row)
    requires PlanWin(key, reference, meta, snap, family, amount).Ok?
    requires r.entries == PlanWin(key, reference, meta, snap, family, amount).value.entries
    ensures NetAll(r) == amount
  {
    var credit := AllocateWin(family, amount).value;
    SumOfOne(credit);
    EntriesForOk([credit], Credit, HouseWinPool, ApplyWin(snap, credit));
  }

  lemma AppendUnpaid(rows: seq<Row>, bet: Row)
    requires RoundsOk(rows) && Ends(bet.key.tx, BET_LEG) && !Ends(bet.key.tx, WIN_LEG)
    requires bet.kind == Bet && NetAll(bet) < 0 && Game.WinFor(-NetAll(bet), bet.meta) <= 0
    ensures RoundsOk(rows + [bet])
  {
    assert (rows + [bet])[|rows|] == bet;
    RowsAppend(rows, [bet]);
  }

  lemma AppendPaid(rows: seq<Row>, bet: Row, win: Row)
    requires RoundsOk(rows) && bet.kind == Bet && NetAll(bet) < 0 && !Ends(bet.key.tx, WIN_LEG)
    requires WinOf(bet, win, |rows|) && !Ends(win.key.tx, BET_LEG)
    ensures RoundsOk(rows + [bet, win])
  {
    var all := rows + [bet, win];
    assert all[|rows|] == bet && all[|rows| + 1] == win;
    RowsAppend(rows, [bet, win]);
  }

  lemma NewRowsOfTwo(rows: seq<Row>, player: Player, a: Leg, b: Leg)
    ensures NewRows(rows, player, [a]) == [ToRow(rows, player, a)]
    ensures NewRows(rows, player, [a, b]) == [ToRow(rows, player, a), ToRow(rows + [ToRow(rows, player, a)], player, b)]
  {
    assert [a][1..] == [] && [a, b][1..] == [b] && [b][1..] == [];
    var rows1 := rows + [ToRow(rows, player, a)];
    assert NewRows(rows1, player, [b]) == [ToRow(rows1, player, b)] + NewRows(rows1 + [ToRow(rows1, player, b)], player, [b][1..]);
  }

  /** The BET row of a planned round. */
  lemma BetRowOf(rows: seq<Row>, snap: Wallet, req: Request, outcome: Game.Outcome, bet: Row)
    requires snap.NonNegative() && req.body.SpinBody? && PlanSpin(req, snap, outcome).Ok?
    requires bet == ToRow(rows, req.player, PlanSpin(req, snap, outcome).value[0])
    ensures bet.key == Key(req.op, req.tx + BET_LEG) && bet.kind == Bet && bet.player == req.player && bet.meta == outcome
    ensures NetAll(bet) == -req.body.amount && req.body.amount > 0
  {
    BetLegNet(bet.key, outcome, snap, req.body.family, req.body.amount, bet);
  }

  /** The WIN row of a planned round that pays. */
  lemma WinRowOf(rows: seq<Row>, snap: Wallet, req: Request, outcome: Game.Outcome, win: Row)
    requires req.body.SpinBody? && rows != [] && PlanSpin(req, snap, outcome).Ok? && |PlanSpin(req, snap, outcome).value| == 2
    requires win == ToRow(rows, req.player, PlanSpin(req, snap, outcome).value[1])
    ensures win.key == Key(req.op, req.tx + WIN_LEG) && win.kind == Win && win.player == req.player && win.meta == outcome
    ensures win.reference == Some(|rows| - 1) && NetAll(win) == Game.WinFor(req.body.amount, outcome) && NetAll(win) > 0
  {
    var legs := PlanSpin(req, snap, outcome).value;
    WinLegNet(win.key, RefPrevious, outcome, legs[0].after, req.body.family, Game.WinFor(req.body.amount, outcome), win);
  }

  lemma RowsMatch(bet: Row, win: Row, id: nat, tx: string)
    requires bet.key.tx == tx + BET_LEG && win.key == Key(bet.key.op, tx + WIN_LEG) && win.kind == Win && win.reference == Some(id)
    requires win.player == bet.player && win.meta == bet.meta
    requires NetAll(win) == Game.WinFor(-NetAll(bet), bet.meta) && NetAll(win) > 0
    ensures WinOf(bet, win, id)
  {
    LegEnds(tx);
  }

  lemma StakeWins(bet: Row, stake: Money)
    requires NetAll(bet) == -stake
    ensures Game.WinFor(-NetAll(bet), bet.meta) == Game.WinFor(stake, bet.meta)
  {
    assert -NetAll(bet) == stake;
  }

  lemma SpinAppends(rows: seq<Row>, snap: Wallet, req: Request, outcome: Game.Outcome)
    requires RoundsOk(rows) && snap.NonNegative() && req.body.SpinBody? && PlanSpin(req, snap, outcome).Ok?
    ensures RoundsOk(rows + NewRows(rows, req.player, PlanSpin(req, snap, outcome).value))
  {
    var legs := PlanSpin(req, snap, outcome).value;
    LegEnds(req.tx);
    var bet := ToRow(rows, req.player, legs[0]);
    BetRowOf(rows, snap, req, outcome, bet);
    if |legs| == 1 {
      assert legs == [legs[0]] && -NetAll(bet) == req.body.amount;
      NewRowsOfTwo(rows, req.player, legs[0], legs[0]);
      AppendUnpaid(rows, bet);
    } else {
      assert legs == [legs[0], legs[1]];
      NewRowsOfTwo(rows, req.player, legs[0], legs[1]);
      var win := ToRow(rows + [bet], req.player, legs[1]);
      WinRowOf(rows + [bet], snap, req, outcome, win);
      StakeWins(bet, req.body.amount);
      RowsMatch(bet, win, |rows|, req.tx);
      AppendPaid(rows, bet, win);
    }
  }

  lemma PlainAppends(rows: seq<Row>, snap: Wallet, req: Request, g: Guards, drawn: Game.Outcome)
    requires RoundsOk(rows) && !req.body.SpinBody? && Plan(rows, snap, req, g, drawn).Ok?
    requires !Ends(req.tx, BET_LEG) && !Ends(req.tx, WIN_LEG)
    ensures RoundsOk(rows + NewRows(rows, req.player, Plan(rows, snap, req, g, drawn).value))
  {
    var legs := Plan(rows, snap, req, g, drawn).value;
    PlanShape(rows, snap, req, g, drawn);
    NewRowsShape(rows, req.player, legs);
    RowsAppend(rows, NewRows(rows, req.player, legs));
  }

  lemma CommitKeepsRounds(db: Db, p: Proc)
    requires DbOk(db) && RoundsOk(db.rows) && p.pc.Staged? && ProcOk(db, p)
    requires !p.req.body.SpinBody? ==> !Ends(p.req.tx, BET_LEG) && !Ends(p.req.tx, WIN_LEG)
    ensures RoundsOk(ApplyLegs(db, p.req.player, p.pc.legs).rows)
  {
    ApplyLegsRows(db, p.req.player, p.pc.legs);
    if p.req.body.SpinBody? {
      SpinAppends(db.rows, p.pc.snap, p.req, p.pc.drawn);
    } else {
      PlainAppends(db.rows, p.pc.snap, p.req, p.pc.guards, p.pc.drawn);
    }
  }

  lemma {:induction false} RunKeepsRounds(start: State, labels: seq<Label>, s: State)
    requires Init(start) && RunFrom(start, labels) == Some(s) && SuffixFree(s.procs)
    ensures RoundsOk(s.db.rows)
    decreases |labels|
  {
    if labels != [] {
      var n := |labels| - 1;
      var before := RunFrom(start, labels[..n]).value;
      RunKeeps(start, labels[..n], before);
      OnlySubjectMoves(before, labels[n], s);
      RunKeepsRounds(start, labels[..n], before);
      RowsChange(before, labels[n], s);
      if s.db.rows != before.db.rows {
        assert ProcOk(before.db, before.procs[labels[n].id]);
        CommitKeepsRounds(before.db, before.procs[labels[n].id]);
      }
    }
  }

  /** In every run whose other calls leave the leg suffixes alone, the BET leg of a round is
      directly followed by its WIN leg exactly when the recorded outcome pays, the WIN leg
      credits exactly the payout of the stake for that outcome, and no WIN leg stands alone. */
  lemma RoundsAreWhole(s: State, i: nat)
    requires Reachable(s) && SuffixFree(s.procs) && i < |s.db.rows|
    ensures Ends(s.db.rows[i].key.tx, BET_LEG) ==>
      && s.db.rows[i].kind == Bet
      && (Game.WinFor(-NetAll(s.db.rows[i]), s.db.rows[i].meta) > 0 <==>
            i + 1 < |s.db.rows| && WinOf(s.db.rows[i], s.db.rows[i + 1], i))
    ensures Ends(s.db.rows[i].key.tx, WIN_LEG) ==> i > 0 && WinOf(s.db.rows[i - 1], s.db.rows[i], i - 1)
  {
    var start, labels :| Init(start) && RunFrom(start, labels) == Some(s);
    RunKeepsRounds(start, labels, s);
    assert RoundAt(s.db.rows, i);
  }

  /** The transaction after a BET leg pays exactly `win`, or is not its WIN leg when that is 0. */
  predicate PaysNext(rows: seq<Row>, id: nat, win: Money)
    requires id < |rows|
  {
    if win > 0 then id + 1 < |rows| && NetAll(rows[id + 1]) == win && WinOf(rows[id], rows[id + 1], id)
    else id + 1 >= |rows| || !WinOf(rows[id], rows[id + 1], id)
  }

  lemma StakePaid(s: State, id: nat, stake: Money, win: Money)
    requires Reachable(s) && SuffixFree(s.procs) && id < |s.db.rows| && Ends(s.db.rows[id].key.tx, BET_LEG)
    requires stake == -NetAll(s.db.rows[id]) && win == Game.WinFor(stake, s.db.rows[id].meta)
    ensures PaysNext(s.db.rows, id, win)
  {
    RoundsAreWhole(s, id);
  }

  /** The win reported by any reply for the settled stake is the win the ledger paid. */
  lemma ReportedWinWasPaid(s: State, id: nat)
    requires Reachable(s) && SuffixFree(s.procs) && id in s.procs && s.procs[id].pc.Replied?
    requires s.procs[id].pc.payload.endpoint.ESpin?
    ensures var p := s.procs[id].pc.payload;
      && p.ledgerId < |s.db.rows|
      && (p.amount == -NetAll(s.db.rows[p.ledgerId]) ==> PaysNext(s.db.rows, p.ledgerId, p.win))
  {
    SpinReplyNamesRow(s, id);
    var p := s.procs[id].pc.payload;
    LegEnds(p.key.tx);
    if p.amount == -NetAll(s.db.rows[p.ledgerId]) { StakePaid(s, p.ledgerId, p.amount, p.win); }
  }

  lemma SpinReplyNamesRow(s: State, id: nat)
    requires Reachable(s) && id in s.procs && s.procs[id].pc.Replied? && s.procs[id].pc.payload.endpoint.ESpin?
    ensures var p := s.procs[id].pc.payload;
      && p.ledgerId < |s.db.rows| && s.db.rows[p.ledgerId].key.tx == p.key.tx + BET_LEG
      && p.win == Game.WinFor(p.amount, s.db.rows[p.ledgerId].meta)
  {
    ReachableInv(s);
    assert ProcOk(s.db, s.procs[id]);
  }
}
