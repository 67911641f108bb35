/** What each kind of request does to a locked wallet, in amounts: when it goes through, what it is
    refused for, and the wallet and ledger transaction it leaves. */
module Requests {
  import opened Domain
  import opened Ledger
  import opened LedgerFacts
  import opened SameGame
  import opened Payouts
  import Game

  // --------------------------------------------------------------------------
  // Guards
  // --------------------------------------------------------------------------

  predicate IsStake(body: Body) { body.BetBody? || body.SpinBody? }

  /** Nothing but a reversal goes through for an inactive player.  An exclusion stops stakes, purchases
      and grants, a limit stops stakes and purchases, and neither ever stops a win, a redemption or a
      reversal.  Beyond that a guard changes nothing about a plan. */
  lemma GuardsDecideExactly(rows: seq<Row>, snap: Wallet, req: Request, g: Guards, drawn: Game.Outcome)
    ensures Plan(rows, snap, req, g, drawn).Ok? <==>
      && Plan(rows, snap, req, OPEN, drawn).Ok?
      && (g.active || req.body.RollbackBody?)
      && !(g.excluded && (IsStake(req.body) || req.body.PurchaseBody? || req.body.PromoBody?))
      && !(g.overLimit && (IsStake(req.body) || req.body.PurchaseBody?))
      && (g.fits || !req.body.SpinBody?)
    ensures Plan(rows, snap, req, g, drawn).Ok? ==> Plan(rows, snap, req, g, drawn) == Plan(rows, snap, req, OPEN, drawn)
    ensures !g.active && !req.body.RollbackBody? ==> Plan(rows, snap, req, g, drawn) == Err(PlayerNotActive)
    ensures g.active && g.excluded && (IsStake(req.body) || req.body.PurchaseBody? || req.body.PromoBody?) ==>
      Plan(rows, snap, req, g, drawn) == Err(Restricted)
    ensures g.active && g.overLimit && (IsStake(req.body) || req.body.PurchaseBody?) ==>
      Plan(rows, snap, req, g, drawn) == Err(Restricted)
  {
  }

  // --------------------------------------------------------------------------
  // One transaction
  // --------------------------------------------------------------------------

  function Least(a: Money, b: Money): Money { if a < b then a else b }

  /** The plan writes this one transaction and leaves this wallet. */
  predicate WritesOne(plan: Result<seq<Leg>>, req: Request, kind: Kind, reference: Reference, after: Wallet) {
    && plan.Ok? && |plan.value| == 1
    && plan.value[0].key == Key(req.op, req.tx) && plan.value[0].kind == kind && plan.value[0].reference == reference
    && plan.value[0].meta == req.meta && plan.value[0].after == after
  }

  /** Gold coins win gold coins; sweeps coins win redeemable ones. */
  function Won(w: Wallet, family: Family, amount: Money): Wallet {
    if family == FamilyGC then Wallet(w.gc + amount, w.scUnplayed, w.scRedeemable)
    else Wallet(w.gc, w.scUnplayed, w.scRedeemable + amount)
  }

  /** What the family's columns hold once a stake is taken: gold coins fall by it, and of the sweeps
      coins the unplayed ones go first. */
  function Staked(w: Wallet, family: Family, amount: Money): Wallet {
    if family == FamilyGC then Wallet(w.gc - amount, w.scUnplayed, w.scRedeemable)
    else
      var unplayed := Least(w.scUnplayed, amount);
      Wallet(w.gc, w.scUnplayed - unplayed, w.scRedeemable - (amount - unplayed))
  }

  lemma DebitedIsStaked(snap: Wallet, family: Family, amount: Money)
    requires snap.NonNegative() && AllocateBet(snap, family, amount).Ok?
    ensures Debited(snap, AllocateBet(snap, family, amount).value) == Ok(Staked(snap, family, amount))
  {
    var debits := AllocateBet(snap, family, amount).value;
    AllocateBetExact(snap, family, amount);
    DebitedExact(snap, debits);
    var post := Debited(snap, debits).value;
    assert post.BalanceFor(GC) == snap.gc - SumOf(debits, GC);
    assert post.BalanceFor(SCUnplayed) == snap.scUnplayed - SumOf(debits, SCUnplayed);
    assert post.BalanceFor(SCRedeemable) == snap.scRedeemable - SumOf(debits, SCRedeemable);
  }

  /** A bet settles exactly when it is positive, in a known family, and covered. */
  lemma BetExactly(rows: seq<Row>, snap: Wallet, req: Request, drawn: Game.Outcome)
    requires snap.NonNegative() && req.body.BetBody?
    ensures var (plan, family, amount) := (Plan(rows, snap, req, OPEN, drawn), req.body.family, req.body.amount);
      && (plan.Ok? <==> family != FamilyUnknown && 0 < amount <= snap.Liquidity(family))
      && (plan.Ok? ==> WritesOne(plan, req, Bet, NoRef, Staked(snap, family, amount)))
      && (amount <= 0 ==> plan == Err(InvalidAmount))
      && (amount > 0 && family == FamilyUnknown ==> plan == Err(UnsupportedCurrency))
      && (family != FamilyUnknown && amount > 0 && amount > snap.Liquidity(family) ==> plan == Err(InsufficientFunds))
  {
    AllocateBetExact(snap, req.body.family, req.body.amount);
    if AllocateBet(snap, req.body.family, req.body.amount).Ok? { DebitedIsStaked(snap, req.body.family, req.body.amount); }
  }

  /** A positive win in a known family always settles, whatever the wallet, and keeps the caller's
      reference. */
  lemma WinExactly(rows: seq<Row>, snap: Wallet, req: Request, drawn: Game.Outcome)
    requires req.body.WinBody?
    ensures var (plan, family, amount) := (Plan(rows, snap, req, OPEN, drawn), req.body.family, req.body.amount);
      && (plan.Ok? <==> family != FamilyUnknown && amount > 0)
      && (plan.Ok? ==>
            WritesOne(plan, req, Win, if req.body.winReference.Some? then RefTo(req.body.winReference.value) else NoRef,
              Won(snap, family, amount)))
      && (amount <= 0 ==> plan == Err(InvalidAmount))
  {
  }

  /** A purchase or a grant settles exactly when neither part is negative and one is positive, and
      adds gold coins and unplayed sweeps coins. */
  lemma IssueExactly(rows: seq<Row>, snap: Wallet, req: Request, drawn: Game.Outcome)
    requires req.body.PurchaseBody? || req.body.PromoBody?
    ensures var plan := Plan(rows, snap, req, OPEN, drawn);
      var sc := if req.body.PurchaseBody? then req.body.promo else req.body.sc;
      && (plan.Ok? <==> req.body.gc >= 0 && sc >= 0 && req.body.gc + sc > 0)
      && (plan.Ok? ==> WritesOne(plan, req, if req.body.PurchaseBody? then Deposit else PromoCredit, NoRef,
            Wallet(snap.gc + req.body.gc, snap.scUnplayed + sc, snap.scRedeemable)))
      && (plan.Err? ==> plan.error == InvalidAmount)
  {
    IssuanceNeverMintsRedeemable(snap, req.body.gc, if req.body.PurchaseBody? then req.body.promo else req.body.sc);
  }

  /** A redemption settles exactly when SC_REDEEMABLE alone covers it. */
  lemma RedeemExactly(rows: seq<Row>, snap: Wallet, req: Request, drawn: Game.Outcome)
    requires req.body.RedeemBody?
    ensures var (plan, amount) := (Plan(rows, snap, req, OPEN, drawn), req.body.amount);
      && (plan.Ok? <==> 0 < amount <= snap.scRedeemable)
      && (plan.Ok? ==> WritesOne(plan, req, Withdrawal, NoRef, Wallet(snap.gc, snap.scUnplayed, snap.scRedeemable - amount)))
      && (amount <= 0 ==> plan == Err(InvalidAmount)) && (amount > snap.scRedeemable && amount > 0 ==> plan == Err(InsufficientFunds))
  {
  }

  /** What a rollback is refused for, and the wallet it leaves: every column back by what the BET took
      from it. */
  lemma RollbackExactly(rows: seq<Row>, snap: Wallet, req: Request, drawn: Game.Outcome, b: nat)
    requires RowsOk(rows) && req.body == RollbackBody(Some(b))
    ensures var plan := Plan(rows, snap, req, OPEN, drawn);
      var known := b < |rows| && rows[b].player == req.player;
      && (plan.Ok? <==> known && rows[b].kind == Bet && !RollbackExists(rows, b, Key(req.op, req.tx)))
      && (plan.Ok? ==> WritesOne(plan, req, Rollback, RefTo(b),
            Wallet(snap.gc - Net(rows[b].entries, GC), snap.scUnplayed - Net(rows[b].entries, SCUnplayed),
              snap.scRedeemable - Net(rows[b].entries, SCRedeemable))))
      && (b >= |rows| ==> plan == Err(RollbackNotFound))
      && (b < |rows| && rows[b].player != req.player ==> plan == Err(TransactionConflict))
      && (known && rows[b].kind != Bet ==> plan == Err(RollbackUnsupported))
      && (known && rows[b].kind == Bet && RollbackExists(rows, b, Key(req.op, req.tx)) ==> plan == Err(RollbackAlready))
  {
    if b < |rows| {
      RowsOkAt(rows, b);
      if rows[b].kind == Bet {
        var lines := PlayerLines(rows[b].entries);
        forall c: Currency ensures SumOf(lines, c) == -Net(rows[b].entries, c) { PlayerLinesNet(rows[b].entries, c); }
        CreditedExact(snap, lines);
        var post := Credited(snap, lines);
        assert post.BalanceFor(GC) == snap.gc + SumOf(lines, GC);
        assert post.BalanceFor(SCUnplayed) == snap.scUnplayed + SumOf(lines, SCUnplayed);
        assert post.BalanceFor(SCRedeemable) == snap.scRedeemable + SumOf(lines, SCRedeemable);
      }
    }
  }

  /** A spin settles exactly when a bet of its stake would, and leaves the staked wallet with the whole
      units in stake times multiplier on top, in a second transaction that references the first. */
  lemma SpinExactly(rows: seq<Row>, snap: Wallet, req: Request, drawn: Game.Outcome, pay: Money)
    requires snap.NonNegative() && req.body.SpinBody? && CutOff(pay, req.body.amount, drawn.multiplier)
    ensures var (plan, family, amount) := (Plan(rows, snap, req, OPEN, drawn), req.body.family, req.body.amount);
      && (plan.Ok? <==> family != FamilyUnknown && 0 < amount <= snap.Liquidity(family))
      && (plan.Ok? ==>
            && pay >= 0 && |plan.value| == (if pay > 0 then 2 else 1)
            && plan.value[0].key == Key(req.op, req.tx + BET_LEG) && plan.value[0].kind == Bet
            && plan.value[0].reference == NoRef && plan.value[0].meta == drawn
            && plan.value[0].after == Staked(snap, family, amount)
            && (pay > 0 ==>
                  && plan.value[1].key == Key(req.op, req.tx + WIN_LEG) && plan.value[1].kind == Win
                  && plan.value[1].reference == RefPrevious && plan.value[1].meta == drawn
                  && plan.value[1].after == Won(Staked(snap, family, amount), family, pay)))
  {
    AllocateBetExact(snap, req.body.family, req.body.amount);
    PayIsCutOff(req.body.amount, drawn);
    CutOffIsUnique(pay, Game.WinFor(req.body.amount, drawn), req.body.amount, drawn.multiplier);
    if AllocateBet(snap, req.body.family, req.body.amount).Ok? { DebitedIsStaked(snap, req.body.family, req.body.amount); }
  }

  // --------------------------------------------------------------------------
  // Validation
  // --------------------------------------------------------------------------

  /** Some ledger, wallet and outcome would settle it. */
  ghost predicate CouldSettle(req: Request) {
    exists rows, snap: Wallet, drawn :: snap.NonNegative() && Plan(rows, snap, req, OPEN, drawn).Ok?
  }

  predicate Named(req: Request) { req.op != "" && req.tx != "" && req.player != NIL }

  /** The ceilings on a win and on a spin's stake. */
  predicate UnderCeiling(body: Body, maxWin: Money) {
    && (body.WinBody? && maxWin > 0 ==> body.amount <= maxWin)
    && (body.SpinBody? ==> body.amount < MAX_UNITS)
  }

  /** A ledger whose transaction `b` is a BET of the player. */
  function LedgerWithBet(player: Player, b: nat, meta: Game.Outcome): seq<Row> {
    seq(b + 1, _ => Row(Key("", ""), player, Bet, None, meta, [Entry(PlayerWallet, GC, Debit, 1, None)]))
  }

  lemma BetCanBeReversed(req: Request, b: nat, drawn: Game.Outcome)
    requires req.body == RollbackBody(Some(b))
    ensures Plan(LedgerWithBet(req.player, b, drawn), ZERO_WALLET, req, OPEN, drawn).Ok?
  {
    var rows := LedgerWithBet(req.player, b, drawn);
    assert PlayerLines(rows[b].entries) == [Line(GC, 1)] by { assert rows[b].entries[1..] == []; }
    assert !RollbackExists(rows, b, Key(req.op, req.tx));
  }

  /** Validation lets through exactly the named requests under the ceilings that some ledger, wallet
      and outcome would settle. */
  lemma ValidationExactly(req: Request, maxWin: Money)
    ensures Validate(req, maxWin).None? <==> Named(req) && UnderCeiling(req.body, maxWin) && CouldSettle(req)
    ensures Validate(req, maxWin) == Some(WinExceedsCeiling) <==>
      Named(req) && req.body.WinBody? && CouldSettle(req) && !UnderCeiling(req.body, maxWin)
    ensures Validate(req, maxWin) == Some(PlayerNotFound) <==> req.op != "" && req.tx != "" && req.player == NIL
    ensures Validate(req, maxWin) == Some(RollbackNotFound) <==> Named(req) && req.body == RollbackBody(None)
    ensures Validate(req, maxWin) == Some(UnsupportedCurrency) <==>
      Named(req) && (IsStake(req.body) || req.body.WinBody?) && req.body.family == FamilyUnknown
  {
    var rich := if req.body.BetBody? || req.body.SpinBody? || req.body.RedeemBody?
      then Wallet(Abs(req.body.amount), 0, Abs(req.body.amount)) else ZERO_WALLET;
    match req.body
    case BetBody(_, _) =>
      AnyWallet(req);
      BetExactly([], rich, req, req.meta);
    case WinBody(_, _, _) => WinExactly([], rich, req, req.meta);
    case RollbackBody(reference) => if reference.Some? { BetCanBeReversed(req, reference.value, req.meta); }
    case PurchaseBody(_, _) =>
      AnyWallet(req);
      IssueExactly([], rich, req, req.meta);
    case RedeemBody(_) => RedeemExactly([], rich, req, req.meta);
    case PromoBody(_, _) =>
      AnyWallet(req);
      IssueExactly([], rich, req, req.meta);
    case SpinBody(_, amount) =>
      AnyWallet(req);
      PayIsCutOff(amount, req.meta);
      SpinExactly([], rich, req, req.meta, Game.WinFor(amount, req.meta));
  }

  /** What no wallet can settle. */
  lemma AnyWallet(req: Request)
    requires req.body.BetBody? || req.body.SpinBody? || req.body.PurchaseBody? || req.body.PromoBody?
    ensures CouldSettle(req) ==>
      match req.body
      case BetBody(family, amount) => family != FamilyUnknown && amount > 0
      case SpinBody(family, amount) => family != FamilyUnknown && amount > 0
      case PurchaseBody(gc, promo) => gc >= 0 && promo >= 0 && gc + promo > 0
      case PromoBody(gc, sc) => gc >= 0 && sc >= 0 && gc + sc > 0
      case _ => true
  {
    if CouldSettle(req) {
      var rows, snap: Wallet, drawn :| snap.NonNegative() && Plan(rows, snap, req, OPEN, drawn).Ok?;
      if req.body.BetBody? || req.body.SpinBody? { AllocateBetExact(snap, req.body.family, req.body.amount); }
      else { IssueExactly(rows, snap, req, drawn); }
    }
  }
}
