/** The double-entry ledger, the wallet cache, the dedup anchor, and the plan every money
    operation makes while it holds the wallet row lock. */
module Ledger {
  import opened Domain
  import Game

  type Player = nat
  const NIL: nat := 0

  datatype Key = Key(op: string, tx: string)

  datatype Kind = Bet | Win | Rollback | Deposit | Withdrawal | PromoCredit

  datatype Account =
    | PlayerWallet | HouseBetPool | HouseWinPool | HouseIssuancePool | HouseRedemptionPool | HousePromoPool

  datatype Direction = Debit | Credit

  datatype Entry = Entry(
    account: Account, currency: Currency, direction: Direction, amount: Money, balanceAfter: Option<Money>)

  /** A ledger transaction header with the entries inserted beside it.  Its id is its position. */
  datatype Row = Row(
    key: Key, player: Player, kind: Kind, reference: Option<nat>, meta: Game.Outcome, entries: seq<Entry>)

  datatype Db = Db(wallets: map<Player, Wallet>, rows: seq<Row>, dedup: map<Key, nat>)

  // --------------------------------------------------------------------------
  // Requests
  // --------------------------------------------------------------------------

  datatype Body =
    | BetBody(family: Family, amount: Money)
    | WinBody(family: Family, amount: Money, winReference: Option<nat>)
    | RollbackBody(reference: Option<nat>)
    | PurchaseBody(gc: Money, promo: Money)
    | RedeemBody(amount: Money)
    | PromoBody(gc: Money, sc: Money)
    | SpinBody(family: Family, amount: Money)

  /** `meta` is the outcome the request's own metadata would decode to. */
  datatype Request = Request(op: string, tx: string, player: Player, bodyHash: string, body: Body, meta: Game.Outcome)

  /** The answers of the compliance and responsible-gaming guards, read under the lock; `fits` is
      whether a spin's metadata and drawn outcome encode within the column's cap. */
  datatype Guards = Guards(active: bool, excluded: bool, overLimit: bool, fits: bool)

  /** Every guard lets the request through. */
  const OPEN := Guards(true, false, false, true)

  const BET_LEG := ":bet"
  const WIN_LEG := ":win"
  const MAX_UNITS: Money := 100_000_000_000_000 * 10_000

  function Abs(m: Money): Money { if m < 0 then -m else m }

  function Validate(req: Request, maxWin: Money): Option<Error> {
    if req.op == "" || req.tx == "" then Some(InvalidAmount)
    else if req.player == NIL then Some(PlayerNotFound)
    else match req.body
      case BetBody(family, amount) =>
        if family == FamilyUnknown then Some(UnsupportedCurrency)
        else if amount <= 0 then Some(InvalidAmount) else None
      case WinBody(family, amount, _) =>
        if family == FamilyUnknown then Some(UnsupportedCurrency)
        else if amount <= 0 then Some(InvalidAmount)
        else if maxWin > 0 && amount > maxWin then Some(WinExceedsCeiling) else None
      case RollbackBody(reference) => if reference == None then Some(RollbackNotFound) else None
      case PurchaseBody(gc, promo) =>
        if gc < 0 || promo < 0 then Some(InvalidAmount)
        else if gc <= 0 && promo <= 0 then Some(InvalidAmount) else None
      case RedeemBody(amount) => if amount <= 0 then Some(InvalidAmount) else None
      case PromoBody(gc, sc) =>
        if gc < 0 || sc < 0 then Some(InvalidAmount)
        else if gc <= 0 && sc <= 0 then Some(InvalidAmount) else None
      case SpinBody(family, amount) =>
        if family == FamilyUnknown then Some(UnsupportedCurrency)
        else if amount <= 0 then Some(InvalidAmount)
        else if Abs(amount) >= MAX_UNITS then Some(InvalidAmount) else None
  }

  function Refusal(g: Guards, body: Body): Option<Error> {
    match body
    case RollbackBody(_) => None
    case WinBody(_, _, _) => if g.active then None else Some(PlayerNotActive)
    case RedeemBody(_) => if g.active then None else Some(PlayerNotActive)
    case PromoBody(_, _) =>
      if !g.active then Some(PlayerNotActive) else if g.excluded then Some(Restricted) else None
    case _ =>
      if !g.active then Some(PlayerNotActive) else if g.excluded || g.overLimit then Some(Restricted) else None
  }

  // --------------------------------------------------------------------------
  // Sums over entries and rows
  // --------------------------------------------------------------------------

  function Signed(e: Entry, c: Currency): Money {
    if e.currency != c then 0 else if e.direction == Credit then e.amount else -e.amount
  }

  /** What the entries add to the player's column. */
  function Net(entries: seq<Entry>, c: Currency): Money {
    if entries == [] then 0
    else (if entries[0].account == PlayerWallet then Signed(entries[0], c) else 0) + Net(entries[1..], c)
  }

  /** Credits minus debits over every account. */
  function Imbalance(entries: seq<Entry>, c: Currency): Money {
    if entries == [] then 0 else Signed(entries[0], c) + Imbalance(entries[1..], c)
  }

  /** The ledger-derived balance. */
  function Sum(rows: seq<Row>, p: Player, c: Currency): Money {
    if rows == [] then 0
    else
      var last := rows[|rows| - 1];
      Sum(rows[..|rows| - 1], p, c) + if last.player == p then Net(last.entries, c) else 0
  }

  // --------------------------------------------------------------------------
  // Plans
  // --------------------------------------------------------------------------

  datatype Reference = NoRef | RefTo(id: nat) | RefPrevious

  /** One ledger transaction to be written, with the wallet it leaves behind. */
  datatype Leg = Leg(key: Key, kind: Kind, reference: Reference, meta: Game.Outcome, entries: seq<Entry>, after: Wallet)

  function Opposite(d: Direction): Direction { if d == Debit then Credit else Debit }

  /** Two lines per movement: the player's, and its balancing house line. */
  function EntriesFor(lines: seq<Line>, d: Direction, house: Account, after: Wallet): seq<Entry> {
    if lines == [] then []
    else
      var l := lines[0];
      [Entry(PlayerWallet, l.currency, d, l.amount, Some(after.BalanceFor(l.currency))),
       Entry(house, l.currency, Opposite(d), l.amount, None)]
      + EntriesFor(lines[1..], d, house, after)
  }

  predicate PlayerDebitsOnly(entries: seq<Entry>) {
    forall i :: 0 <= i < |entries| && entries[i].account == PlayerWallet ==> entries[i].direction == Debit
  }

  /** The player's lines of a transaction. */
  function PlayerLines(entries: seq<Entry>): seq<Line> {
    if entries == [] then []
    else (if entries[0].account == PlayerWallet then [Line(entries[0].currency, entries[0].amount)] else [])
         + PlayerLines(entries[1..])
  }

  ghost predicate RollbackExists(rows: seq<Row>, reference: nat, key: Key) {
    exists i :: 0 <= i < |rows| && IsOtherRollback(rows[i], reference, key)
  }

  predicate IsOtherRollback(r: Row, reference: nat, key: Key) {
    r.kind == Rollback && r.reference == Some(reference) && r.key != key
  }

  function PlanBet(key: Key, meta: Game.Outcome, snap: Wallet, family: Family, amount: Money): Result<Leg> {
    var debits :- AllocateBet(snap, family, amount);
    var post :- Debited(snap, debits);
    Ok(Leg(key, Bet, NoRef, meta, EntriesFor(debits, Debit, HouseBetPool, post), post))
  }

  function PlanWin(key: Key, reference: Reference, meta: Game.Outcome, snap: Wallet, family: Family, amount: Money): Result<Leg> {
    var credit :- AllocateWin(family, amount);
    var post := ApplyWin(snap, credit);
    Ok(Leg(key, Win, reference, meta, EntriesFor([credit], Credit, HouseWinPool, post), post))
  }

  function PlanIssue(key: Key, kind: Kind, house: Account, meta: Game.Outcome, snap: Wallet, alloc: Result<seq<Line>>): Result<Leg> {
    var credits :- alloc;
    var post := Credited(snap, credits);
    Ok(Leg(key, kind, NoRef, meta, EntriesFor(credits, Credit, house, post), post))
  }

  function PlanRedeem(key: Key, meta: Game.Outcome, snap: Wallet, amount: Money): Result<Leg> {
    var debit :- AllocateRedeem(snap, amount);
    var post := ApplyRedeem(snap, debit);
    Ok(Leg(key, Withdrawal, NoRef, meta, EntriesFor([debit], Debit, HouseRedemptionPool, post), post))
  }

  ghost function PlanRollback(
    rows: seq<Row>, key: Key, player: Player, meta: Game.Outcome, snap: Wallet, reference: nat): Result<Leg>
  {
    if reference >= |rows| then Err(RollbackNotFound)
    else if rows[reference].player != player then Err(TransactionConflict)
    else if rows[reference].kind != Bet then Err(RollbackUnsupported)
    else if RollbackExists(rows, reference, key) then Err(RollbackAlready)
    else
      var lines := PlayerLines(rows[reference].entries);
      if lines == [] || !PlayerDebitsOnly(rows[reference].entries) then Err(TransactionConflict)
      else
        var post := Credited(snap, lines);
        Ok(Leg(key, Rollback, RefTo(reference), meta, EntriesFor(lines, Credit, HouseBetPool, post), post))
  }

  /** The win of a round, credited on top of the post-bet wallet. */
  function PlanSpin(req: Request, snap: Wallet, outcome: Game.Outcome): Result<seq<Leg>>
    requires req.body.SpinBody?
  {
    var bet :- PlanBet(Key(req.op, req.tx + BET_LEG), outcome, snap, req.body.family, req.body.amount);
    var win := Game.WinFor(req.body.amount, outcome);
    if win <= 0 then Ok([bet])
    else
      var credit :- PlanWin(Key(req.op, req.tx + WIN_LEG), RefPrevious, outcome, bet.after, req.body.family, win);
      Ok([bet, credit])
  }

  function Single(r: Result<Leg>): Result<seq<Leg>> {
    var leg :- r;
    Ok([leg])
  }

  /** What a request does to a locked wallet: the transactions to write, or the refusal.
      `outcome` is the round drawn inside the lock (spins only). */
  ghost function Plan(rows: seq<Row>, snap: Wallet, req: Request, g: Guards, outcome: Game.Outcome): Result<seq<Leg>> {
    var key := Key(req.op, req.tx);
    if Refusal(g, req.body).Some? then Err(Refusal(g, req.body).value)
    else match req.body
      case BetBody(family, amount) => Single(PlanBet(key, req.meta, snap, family, amount))
      case WinBody(family, amount, reference) =>
        Single(PlanWin(key, if reference.Some? then RefTo(reference.value) else NoRef, req.meta, snap, family, amount))
      case RollbackBody(reference) =>
        if reference.None? then Err(RollbackNotFound)
        else Single(PlanRollback(rows, key, req.player, req.meta, snap, reference.value))
      case PurchaseBody(gc, promo) =>
        Single(PlanIssue(key, Deposit, HouseIssuancePool, req.meta, snap, AllocatePurchase(gc, promo)))
      case RedeemBody(amount) => Single(PlanRedeem(key, req.meta, snap, amount))
      case PromoBody(gc, sc) =>
        Single(PlanIssue(key, PromoCredit, HousePromoPool, req.meta, snap, AllocatePromoGrant(gc, sc)))
      case SpinBody(_, _) =>
        var legs :- PlanSpin(req, snap, outcome);
        if g.fits then Ok(legs) else Err(InvalidAmount)
  }

  /** The row a leg becomes when it is appended to the ledger. */
  function ToRow(rows: seq<Row>, player: Player, leg: Leg): Row {
    var reference := match leg.reference
      case NoRef => None
      case RefTo(id) => Some(id)
      case RefPrevious => if |rows| > 0 then Some(|rows| - 1) else None;
    Row(leg.key, player, leg.kind, reference, leg.meta, leg.entries)
  }

  function ApplyLeg(db: Db, player: Player, leg: Leg): Db {
    Db(db.wallets[player := leg.after], db.rows + [ToRow(db.rows, player, leg)], db.dedup[leg.key := |db.rows|])
  }

  function ApplyLegs(db: Db, player: Player, legs: seq<Leg>): Db
    decreases |legs|
  {
    if legs == [] then db else ApplyLegs(ApplyLeg(db, player, legs[0]), player, legs[1..])
  }

  /** The rows a batch of legs appends. */
  function NewRows(rows: seq<Row>, player: Player, legs: seq<Leg>): seq<Row>
    decreases |legs|
  {
    if legs == [] then []
    else
      var r := ToRow(rows, player, legs[0]);
      [r] + NewRows(rows + [r], player, legs[1..])
  }

  function KeysOf(legs: seq<Leg>): set<Key> { set i | 0 <= i < |legs| :: legs[i].key }

  // --------------------------------------------------------------------------
  // What a good ledger is
  // --------------------------------------------------------------------------

  predicate EntriesOk(entries: seq<Entry>) {
    && (forall i :: 0 <= i < |entries| ==> entries[i].amount > 0)
    && (forall i :: 0 <= i < |entries| ==> (entries[i].balanceAfter.Some? <==> entries[i].account == PlayerWallet))
    && (forall c: Currency :: Imbalance(entries, c) == 0)
  }

  /** The house account across from the player's in each kind of transaction. */
  function HouseOf(kind: Kind): Account {
    match kind
    case Bet => HouseBetPool
    case Win => HouseWinPool
    case Rollback => HouseBetPool
    case Deposit => HouseIssuancePool
    case Withdrawal => HouseRedemptionPool
    case PromoCredit => HousePromoPool
  }

  /** Stakes and redemptions are taken from the player; everything else is given. */
  function DirectionOf(kind: Kind): Direction { if kind == Bet || kind == Withdrawal then Debit else Credit }

  /** Player lines go the way of the kind, and house lines are on its account. */
  predicate SidesOk(entries: seq<Entry>, kind: Kind) {
    && (forall i :: 0 <= i < |entries| && entries[i].account == PlayerWallet ==> entries[i].direction == DirectionOf(kind))
    && (forall i :: 0 <= i < |entries| ==> entries[i].account == PlayerWallet || entries[i].account == HouseOf(kind))
  }

  /** The effect each kind of transaction may have on its player. */
  ghost predicate KindOk(rows: seq<Row>, r: Row) {
    match r.kind
    case Bet => PlayerDebitsOnly(r.entries) && PlayerLines(r.entries) != [] && forall c: Currency :: Net(r.entries, c) <= 0
    case Win =>
      && Net(r.entries, SCUnplayed) == 0 && Net(r.entries, GC) + Net(r.entries, SCRedeemable) > 0
      && forall c: Currency :: Net(r.entries, c) >= 0
    case Deposit => Net(r.entries, SCRedeemable) == 0 && forall c: Currency :: Net(r.entries, c) >= 0
    case PromoCredit => Net(r.entries, SCRedeemable) == 0 && forall c: Currency :: Net(r.entries, c) >= 0
    case Withdrawal => Net(r.entries, GC) == 0 && Net(r.entries, SCUnplayed) == 0 && Net(r.entries, SCRedeemable) < 0
    case Rollback =>
      && r.reference.Some? && r.reference.value < |rows|
      && rows[r.reference.value].kind == Bet && rows[r.reference.value].player == r.player
      && !RollbackExists(rows, r.reference.value, r.key)
      && forall c: Currency :: Net(r.entries, c) == -Net(rows[r.reference.value].entries, c)
  }

  /** Every player line's balance_after is the running ledger balance. */
  predicate TrailOk(rows: seq<Row>, r: Row) {
    forall i :: 0 <= i < |r.entries| && r.entries[i].account == PlayerWallet ==>
      r.entries[i].balanceAfter == Some(Sum(rows, r.player, r.entries[i].currency) + Net(r.entries, r.entries[i].currency))
  }

  ghost predicate RowGood(rows: seq<Row>, r: Row) {
    EntriesOk(r.entries) && SidesOk(r.entries, r.kind) && KindOk(rows, r) && TrailOk(rows, r)
  }

  ghost predicate RowsOk(rows: seq<Row>) {
    rows == [] || (RowsOk(rows[..|rows| - 1]) && RowGood(rows[..|rows| - 1], rows[|rows| - 1]))
  }

  /** The wallet cache is the ledger. */
  predicate CacheOk(db: Db) {
    forall p :: p in db.wallets ==>
      db.wallets[p].NonNegative() && forall c: Currency :: db.wallets[p].BalanceFor(c) == Sum(db.rows, p, c)
  }

  predicate PlayersKnown(db: Db) { forall i :: 0 <= i < |db.rows| ==> db.rows[i].player in db.wallets }

  predicate AnchorsOk(db: Db) {
    forall k :: k in db.dedup ==> db.dedup[k] < |db.rows| && db.rows[db.dedup[k]].key == k
  }

  ghost predicate DbOk(db: Db) { RowsOk(db.rows) && CacheOk(db) && PlayersKnown(db) && AnchorsOk(db) }

  ghost predicate LegOk(rows: seq<Row>, player: Player, before: Wallet, leg: Leg) {
    && EntriesOk(leg.entries) && SidesOk(leg.entries, leg.kind) && KindOk(rows, ToRow(rows, player, leg))
    && leg.after.NonNegative()
    && (forall c: Currency :: leg.after.BalanceFor(c) == before.BalanceFor(c) + Net(leg.entries, c))
    && forall i :: 0 <= i < |leg.entries| && leg.entries[i].account == PlayerWallet ==>
         leg.entries[i].balanceAfter == Some(leg.after.BalanceFor(leg.entries[i].currency))
  }

  ghost predicate LegsOk(rows: seq<Row>, player: Player, before: Wallet, legs: seq<Leg>)
    decreases |legs|
  {
    legs == [] ||
    (LegOk(rows, player, before, legs[0]) &&
     LegsOk(rows + [ToRow(rows, player, legs[0])], player, legs[0].after, legs[1..]))
  }
}
