/** What a retry of a settled request is told once its cached reply is gone.  The transaction is
    planned before it meets its own anchor, so it is recovered only if it could settle again. */
module Retries {
  import opened Domain
  import opened Ledger
  import opened LedgerFacts
  import opened Protocol
  import opened ProtocolSafety
  import opened Guarantees
  import opened Engine
  import opened Runs
  import opened Requests
  import opened Payouts
  import opened Reversals
  import Game

  /** The ledger holds a transaction of the request's type; a spin takes whatever its BET leg's key
      names. */
  predicate SameType(body: Body, kind: Kind) {
    match body
    case BetBody(_, _) => kind == Bet
    case WinBody(_, _, _) => kind == Win
    case RollbackBody(_) => kind == Rollback
    case PurchaseBody(_, _) => kind == Deposit
    case RedeemBody(_) => kind == Withdrawal
    case PromoBody(_, _) => kind == PromoCredit
    case SpinBody(_, _) => true
  }

  /** The transaction under the request's key was settled, once, and its anchor stands. */
  ghost predicate SettledBefore(s: State, req: Request) {
    && Reachable(s) && req.player in s.db.wallets
    && AnchorKey(req) in s.db.dedup && KeyCount(s.db.rows, AnchorKey(req)) <= 1
  }

  /** The amount a recovered reply names: the retry's own, and zero for a rollback. */
  function OwnAmount(body: Body): Money {
    match body
    case BetBody(_, amount) => amount
    case WinBody(_, amount, _) => amount
    case RollbackBody(_) => 0
    case PurchaseBody(gc, _) => gc
    case RedeemBody(amount) => amount
    case PromoBody(gc, sc) => if gc > 0 then gc else sc
    case SpinBody(_, amount) => amount
  }

  /** The recovered reply: the settled transaction, its recorded outcome, the retry's amount, what that
      wins on a spin, and the wallet as it is now. */
  predicate Recovered(db: Db, req: Request, id: nat, r: Result<TxResult>)
    requires id < |db.rows| && req.player in db.wallets
  {
    && r.Ok? && r.value.status == GhostRecovered && r.value.balances == db.wallets[req.player]
    && r.value.payload.ledgerId == id && r.value.payload.key == Key(req.op, req.tx) && r.value.payload.player == req.player
    && r.value.payload.outcome == db.rows[id].meta && r.value.payload.amount == OwnAmount(req.body)
    && (req.body.SpinBody? ==> CutOff(r.value.payload.win, req.body.amount, db.rows[id].meta.multiplier))
  }

  /** In every reachable state in which the request's key is settled, a transaction for it is recovered
      exactly when it names a transaction of its own player and type and it could settle once more: a
      retry whose plan no longer stands is told the plan's refusal, settled or not. */
  lemma RetryToldExactly(s: State, req: Request, g: Guards, drawn: Game.Outcome, r: Result<TxResult>)
    requires SettledBefore(s, req) && Answered(s.db, req, g, drawn, r)
    ensures s.db.dedup[AnchorKey(req)] < |s.db.rows|
    ensures var id := s.db.dedup[AnchorKey(req)];
      var plan := Plan(s.db.rows, s.db.wallets[req.player], req, g, drawn);
      && (r.Ok? <==> plan.Ok? && s.db.rows[id].player == req.player && SameType(req.body, s.db.rows[id].kind))
      && (r.Ok? ==> Recovered(s.db, req, id, r))
      && (plan.Err? ==> r == Err(plan.error))
      && (plan.Ok? && r.Err? ==> r == Err(TransactionConflict))
    ensures AfterTx(s.db, req, g, drawn) == s.db
  {
    AnchorNamesRow(s, AnchorKey(req));
    MeetsAnchor(s.db, req, g, drawn);
    if Plan(s.db.rows, s.db.wallets[req.player], req, g, drawn).Ok? {
      RecoveredRowIs(s, req, s.db.dedup[AnchorKey(req)], r);
      if req.body.SpinBody? { PayIsCutOff(req.body.amount, s.db.rows[s.db.dedup[AnchorKey(req)]].meta); }
    }
  }

  lemma AnchorNamesRow(s: State, k: Key)
    requires Reachable(s) && k in s.db.dedup
    ensures s.db.dedup[k] < |s.db.rows| && s.db.rows[s.db.dedup[k]].key == k
  {
    ReachableInv(s);
  }

  /** A plan for an anchored request meets its anchor. */
  lemma MeetsAnchor(db: Db, req: Request, g: Guards, drawn: Game.Outcome)
    requires req.player in db.wallets && AnchorKey(req) in db.dedup
    ensures var plan := Plan(db.rows, db.wallets[req.player], req, g, drawn);
      Judge(db, req, g, drawn) == if plan.Ok? then Collides else Rejects(plan.error)
  {
    var plan := Plan(db.rows, db.wallets[req.player], req, g, drawn);
    if plan.Ok? {
      PlanShape(db.rows, db.wallets[req.player], req, g, drawn);
      assert plan.value[0].key in KeysOf(plan.value);
    }
  }

  lemma RecoveredRowIs(s: State, req: Request, id: nat, r: Result<TxResult>)
    requires req.player in s.db.wallets && Recovers(s.db, req, r)
    requires id < |s.db.rows| && s.db.rows[id].key == AnchorKey(req) && KeyCount(s.db.rows, AnchorKey(req)) <= 1
    ensures RecoversAs(s.db, req, id, r)
  {
    assert !NoSuchRow(s.db.rows, AnchorKey(req));
    var i :| 0 <= i < |s.db.rows| && RecoversAs(s.db, req, i, r);
    UniqueRow(s.db.rows, AnchorKey(req), i, id);
  }

  predicate OwnBet(db: Db, req: Request)
    requires AnchorKey(req) in db.dedup
  {
    var id := db.dedup[AnchorKey(req)];
    id < |db.rows| && db.rows[id].player == req.player && db.rows[id].kind == Bet
  }

  /** So a settled stake is only reported again while the wallet covers it a second time. */
  lemma BetRetryToldExactly(s: State, req: Request, r: Result<TxResult>)
    requires SettledBefore(s, req) && req.body.BetBody? && Answered(s.db, req, OPEN, req.meta, r) && OwnBet(s.db, req)
    requires req.body.family != FamilyUnknown && req.body.amount > 0
    ensures r.Ok? <==> req.body.amount <= s.db.wallets[req.player].Liquidity(req.body.family)
    ensures r.Err? ==> r == Err(InsufficientFunds)
  {
    ReachableInv(s);
    RetryToldExactly(s, req, OPEN, req.meta, r);
    BetExactly(s.db.rows, s.db.wallets[req.player], req, req.meta);
  }

  /** A bet of everything the wallet holds, as a whole call. */
  lemma BetTen(s: State, bet: Request) returns (t: State)
    requires Reachable(s) && Quiet(s) && s.redis == map[] && s.maxWin == 0 && s.procs.Keys == {0}
    requires s.db.wallets == map[1 := Wallet(10, 0, 0)] && |s.db.rows| == 1 && s.db.dedup.Keys == {Key("op", "p")}
    requires bet == Call("b", BetBody(FamilyGC, 10), bet.meta)
    ensures Reachable(t) && Quiet(t) && t.redis == map[] && t.maxWin == 0 && t.procs.Keys == {0, 1}
    ensures t.db.wallets == map[1 := ZERO_WALLET] && |t.db.rows| == 2
    ensures t.db.rows[1].key == Key("op", "b") && t.db.rows[1].kind == Bet && t.db.rows[1].player == 1
    ensures t.procs[1].req == bet && t.procs[1].pc.Replied? && t.procs[1].pc.status == Processed
  {
    BetExactly(s.db.rows, s.db.wallets[1], bet, bet.meta);
    var leg := Plan(s.db.rows, s.db.wallets[1], bet, OPEN, bet.meta).value[0];
    assert Plan(s.db.rows, s.db.wallets[1], bet, OPEN, bet.meta) == Ok([leg]);
    OneLegCall(s, 1, bet, leg);
    t := OneLegDone(s, 1, bet, leg);
  }

  /** A player buys 10 and bets 10; the cached reply lapses, the operator retries the very same bet,
      and is told the funds do not suffice although the ledger took the stake. */
  lemma SettledBetIsRefusedRun(meta: Game.Outcome) returns (t: State, bet: Request)
    ensures Reachable(t) && bet == Call("b", BetBody(FamilyGC, 10), meta)
    ensures |t.db.rows| == 2 && t.db.rows[1].key == Key("op", "b") && t.db.rows[1].kind == Bet && t.db.rows[1].player == 1
    ensures t.db.wallets == map[1 := ZERO_WALLET]
    ensures t.procs.Keys == {0, 1, 2} && t.procs[1].req == bet && t.procs[1].pc.Replied? && t.procs[1].pc.status == Processed
    ensures t.procs[2] == Proc(bet, Refused(InsufficientFunds))
  {
    OnePlayerIsReachable(1, 0);
    var buy, leg := BuyTen(OnePlayer(1, 0), meta);
    bet := Call("b", BetBody(FamilyGC, 10), meta);
    var s := BetTen(OneLegDone(OnePlayer(1, 0), 0, buy, leg), bet);
    NothingLeft(s.db, bet);
    CallIsRefused(s, 2, bet, OPEN, meta, InsufficientFunds);
    t := Arrived(s, 2, bet, Refused(InsufficientFunds));
  }

  lemma NothingLeft(db: Db, bet: Request)
    requires db.wallets == map[1 := ZERO_WALLET] && bet == Call("b", BetBody(FamilyGC, 10), bet.meta)
    ensures Judge(db, bet, OPEN, bet.meta) == Rejects(InsufficientFunds)
  {
    BetExactly(db.rows, db.wallets[1], bet, bet.meta);
  }
}
