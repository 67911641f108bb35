/** A PROCESSED reply reports the amount its ledger transaction actually moved. */
module Amounts {
  import opened Domain
  import opened Ledger
  import opened LedgerFacts
  import opened Protocol
  import opened ProtocolSafety
  import opened Steps
  import opened Replies
  import opened Rounds
  import Game

  /** The reported amount is what the entries moved: the stake out, the win or reversal in, the
      issued coins, or the redeemed ones. */
  predicate MovesAmount(r: Row, p: Payload) {
    match p.endpoint
    case EBet => NetAll(r) == -p.amount
    case EWin => NetAll(r) == p.amount
    case ERollback => NetAll(r) == p.amount
    case EPurchase => Net(r.entries, GC) == p.amount
    case ERedeem => NetAll(r) == -p.amount
    case EPromo => p.amount == if Net(r.entries, GC) > 0 then Net(r.entries, GC) else Net(r.entries, SCUnplayed)
    case ESpin => NetAll(r) == -p.amount
  }

  ghost predicate ProcessedExact(s: State) {
    forall i :: i in s.procs && ClaimsProcessed(s.procs[i]) ==> Reports(s.db.rows, s.procs[i].pc.payload)
  }

  predicate Reports(rows: seq<Row>, p: Payload) { p.ledgerId < |rows| && MovesAmount(rows[p.ledgerId], p) }

  lemma {:induction false} TotalIsSums(lines: seq<Line>)
    ensures Total(lines) == SumOf(lines, GC) + SumOf(lines, SCUnplayed) + SumOf(lines, SCRedeemable)
  {
    if lines != [] { TotalIsSums(lines[1..]); }
  }

  lemma IssueMoves(snap: Wallet, gc: Money, sc: Money, house: Account)
    requires AllocatePurchase(gc, sc).Ok? && house != PlayerWallet
    ensures var es := EntriesFor(AllocatePurchase(gc, sc).value, Credit, house, Credited(snap, AllocatePurchase(gc, sc).value));
      Net(es, GC) == gc && Net(es, SCUnplayed) == sc
  {
    var credits := AllocatePurchase(gc, sc).value;
    IssuanceNeverMintsRedeemable(snap, gc, sc);
    EntriesForOk(credits, Credit, house, Credited(snap, credits));
  }

  lemma RedeemMoves(snap: Wallet, amount: Money)
    requires AllocateRedeem(snap, amount).Ok?
    ensures var d := AllocateRedeem(snap, amount).value;
      forall c: Currency :: Net(EntriesFor([d], Debit, HouseRedemptionPool, ApplyRedeem(snap, d)), c) == if c == SCRedeemable then -amount else 0
  {
    var d := AllocateRedeem(snap, amount).value;
    SumOfOne(d);
    EntriesForOk([d], Debit, HouseRedemptionPool, ApplyRedeem(snap, d));
  }

  lemma RollbackMoves(rows: seq<Row>, key: Key, player: Player, meta: Game.Outcome, snap: Wallet, reference: nat, r: Row)
    requires RowsOk(rows) && PlanRollback(rows, key, player, meta, snap, reference).Ok?
    requires r.entries == PlanRollback(rows, key, player, meta, snap, reference).value.entries
    ensures NetAll(r) == Total(PlayerLines(r.entries))
  {
    RowsOkAt(rows, reference);
    var lines := PlayerLines(rows[reference].entries);
    PlayerLinesPositive(rows[reference].entries);
    EntriesForOk(lines, Credit, HouseBetPool, Credited(snap, lines));
    EntriesForShape(lines, Credit, HouseBetPool, Credited(snap, lines));
    TotalIsSums(lines);
  }

  /** The receipt of a plan reports what its first transaction moves. */
  lemma PlanReports(rows: seq<Row>, snap: Wallet, req: Request, g: Guards, drawn: Game.Outcome, r: Row, id: nat, outcome: Game.Outcome)
    requires RowsOk(rows) && snap.NonNegative() && Plan(rows, snap, req, g, drawn).Ok?
    requires r.entries == Plan(rows, snap, req, g, drawn).value[0].entries
    ensures MovesAmount(r, Receipt(req, id, outcome, Plan(rows, snap, req, g, drawn).value))
  {
    var key := Key(req.op, req.tx);
    match req.body
    case BetBody(family, amount) => BetLegNet(key, req.meta, snap, family, amount, r);
    case WinBody(family, amount, reference) =>
      WinLegNet(key, if reference.Some? then RefTo(reference.value) else NoRef, req.meta, snap, family, amount, r);
    case RollbackBody(reference) => RollbackMoves(rows, key, req.player, req.meta, snap, reference.value, r);
    case PurchaseBody(gc, promo) => IssueMoves(snap, gc, promo, HouseIssuancePool);
    case RedeemBody(amount) => RedeemMoves(snap, amount);
    case PromoBody(gc, sc) =>
      IssuanceNeverMintsRedeemable(snap, gc, sc);
      IssueMoves(snap, gc, sc, HousePromoPool);
    case SpinBody(family, amount) => BetLegNet(Key(req.op, req.tx + BET_LEG), drawn, snap, family, amount, r);
  }

  lemma CommitReports(s: State, id: nat, s': State)
    requires Inv(s) && Exec(s, Commit(id)) == Some(s')
    ensures id in s'.procs && s'.procs[id].pc.Finishing? && Reports(s'.db.rows, s'.procs[id].pc.payload)
  {
    var p := s.procs[id];
    assert ProcOk(s.db, p);
    assert ExecProc(s, Commit(id), p) == Some(s');
    ApplyLegsRows(s.db, p.req.player, p.pc.legs);
    NewRowsShape(s.db.rows, p.req.player, p.pc.legs);
    PlanShape(s.db.rows, p.pc.snap, p.req, p.pc.guards, p.pc.drawn);
    PlanReports(s.db.rows, p.pc.snap, p.req, p.pc.guards, p.pc.drawn, s'.db.rows[|s.db.rows|], |s.db.rows|,
      if p.req.body.SpinBody? then p.pc.drawn else p.req.meta);
  }

  lemma StepKeepsExact(s: State, l: Label, s': State)
    requires Inv(s) && ProcessedExact(s) && Exec(s, l) == Some(s')
    ensures ProcessedExact(s')
  {
    RowsOnlyGrow(s, l, s');
    OnlySubjectMoves(s, l, s');
    if l.Commit? { CommitReports(s, l.id, s'); }
    if Subject(l).Some? && l.id in s'.procs && ClaimsProcessed(s'.procs[l.id]) { ClaimSource(s, l, s'); }
    ExactKept(s, s', Subject(l));
  }

  lemma ExactKept(s: State, s': State, subject: Option<nat>)
    requires ProcessedExact(s) && s.db.rows <= s'.db.rows
    requires forall i :: i in s'.procs && subject != Some(i) ==> i in s.procs && s'.procs[i] == s.procs[i]
    requires subject.Some? && subject.value in s'.procs && ClaimsProcessed(s'.procs[subject.value]) ==>
      || Reports(s'.db.rows, s'.procs[subject.value].pc.payload)
      || (subject.value in s.procs && ClaimsProcessed(s.procs[subject.value])
          && s.procs[subject.value].pc.payload == s'.procs[subject.value].pc.payload)
    ensures ProcessedExact(s')
  {
    forall i | i in s'.procs && ClaimsProcessed(s'.procs[i]) ensures Reports(s'.db.rows, s'.procs[i].pc.payload) {
      assert subject != Some(i) ==> ClaimsProcessed(s.procs[i]);
    }
  }

  lemma {:induction false} RunKeepsExact(start: State, labels: seq<Label>, s: State)
    requires Init(start) && RunFrom(start, labels) == Some(s)
    ensures ProcessedExact(s)
    decreases |labels|
  {
    if labels != [] {
      var n := |labels| - 1;
      var before := RunFrom(start, labels[..n]).value;
      RunKeeps(start, labels[..n], before);
      RunKeepsExact(start, labels[..n], before);
      StepKeepsExact(before, labels[n], s);
    }
  }

  /** In every reachable state, every PROCESSED reply names the committed transaction that moved
      exactly the reported amount in or out of that player's wallet. */
  lemma ProcessedAmountWasMoved(s: State, id: nat)
    requires Reachable(s) && id in s.procs && s.procs[id].pc.Replied? && s.procs[id].pc.status == Processed
    ensures var p := s.procs[id].pc.payload;
      Backed(s.db.rows, p) && Answers(s.procs[id].req, p) && MovesAmount(s.db.rows[p.ledgerId], p)
  {
    ReachableInv(s);
    assert ProcOk(s.db, s.procs[id]);
    var start, labels :| Init(start) && RunFrom(start, labels) == Some(s);
    RunKeepsExact(start, labels, s);
    assert ClaimsProcessed(s.procs[id]);
  }
}
