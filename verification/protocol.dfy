/** The money protocol as a state machine: any number of request processes, each with a program
    counter, over the committed database, the Redis barrier and the row locks.  Every step can
    fail, crash, or lose its cache write; markers expire and dedup rows are pruned at any time. */
module Protocol {
  import opened Domain
  import opened Ledger
  import Idempotency
  import Game

  datatype Endpoint = EBet | EWin | ERollback | EPurchase | ERedeem | EPromo | ESpin

  function EndpointOf(body: Body): Endpoint {
    match body
    case BetBody(_, _) => EBet
    case WinBody(_, _, _) => EWin
    case RollbackBody(_) => ERollback
    case PurchaseBody(_, _) => EPurchase
    case RedeemBody(_) => ERedeem
    case PromoBody(_, _) => EPromo
    case SpinBody(_, _) => ESpin
  }

  function KindFor(e: Endpoint): Kind {
    match e
    case EBet => Bet
    case EWin => Win
    case ERollback => Rollback
    case EPurchase => Deposit
    case ERedeem => Withdrawal
    case EPromo => PromoCredit
    case ESpin => Bet
  }

  datatype Status = Processed | CachedReply | GhostRecovered

  /** The success payload cached in Redis and returned to the caller. */
  datatype Payload = Payload(
    key: Key, endpoint: Endpoint, player: Player, ledgerId: nat, amount: Money, win: Money, outcome: Game.Outcome)

  /** The hash of the player id and the body hash, by its pre-image. */
  datatype Fingerprint = Fingerprint(player: Player, bodyHash: string)

  datatype SlotBody = InFlight | Complete(payload: Payload)

  datatype Slot = Slot(fp: Fingerprint, body: SlotBody)

  datatype Pc =
    | Start
    | Acquired
    | Locked(snap: Wallet)
    | Staged(snap: Wallet, guards: Guards, drawn: Game.Outcome, legs: seq<Leg>)
    | Conflict
    | Finishing(status: Status, payload: Payload)
    | Failing(error: Error)
    | Replied(status: Status, payload: Payload)
    | Refused(error: Error)
    | Crashed

  datatype Proc = Proc(req: Request, pc: Pc) {
    predicate HoldsLock() { pc.Locked? || pc.Staged? }

    predicate InTransaction() { pc.Acquired? || pc.Locked? || pc.Staged? || pc.Conflict? }
  }

  /** `prunes` counts, per key, how often retention has dropped its dedup row. */
  datatype State = State(
    db: Db, redis: map<string, Slot>, procs: map<nat, Proc>, prunes: map<Key, nat>, maxWin: Money)

  function Prunes(s: State, k: Key): nat { if k in s.prunes then s.prunes[k] else 0 }

  function RequestKey(req: Request): Key { Key(req.op, req.tx) }

  /** The dedup key the request's first transaction is written under. */
  function AnchorKey(req: Request): Key { if req.body.SpinBody? then Key(req.op, req.tx + BET_LEG) else RequestKey(req) }

  function RedisKey(req: Request): string { Idempotency.IdempotencyKey(req.op, req.tx) }

  function FingerprintOf(req: Request): Fingerprint { Fingerprint(req.player, req.bodyHash) }

  function Headline(req: Request, legs: seq<Leg>): Money {
    match req.body
    case BetBody(_, amount) => amount
    case WinBody(_, amount, _) => amount
    case RollbackBody(_) => if legs == [] then 0 else Total(PlayerLines(legs[0].entries))
    case PurchaseBody(gc, _) => gc
    case RedeemBody(amount) => amount
    case PromoBody(gc, sc) => if gc > 0 then gc else sc
    case SpinBody(_, amount) => amount
  }

  /** The receipt for ledger transaction `id`.  A recovery passes no legs: it takes the amount
      from the retry, and the round from the stored metadata. */
  function Receipt(req: Request, id: nat, outcome: Game.Outcome, legs: seq<Leg>): Payload {
    Payload(RequestKey(req), EndpointOf(req.body), req.player, id, Headline(req, legs),
      if req.body.SpinBody? then Game.WinFor(req.body.amount, outcome) else 0, outcome)
  }

  datatype Label =
    | CreatePlayer(player: Player)
    | Spawn(id: nat, req: Request)
    | Acquire(id: nat)
    | AcquireFails(id: nat)
    | Lock(id: nat)
    | Stage(id: nat, guards: Guards, drawn: Game.Outcome)
    | DbFails(id: nat)
    | Commit(id: nat)
    | CommitUnseen(id: nat)
    | Recover(id: nat, row: nat)
    | RecoverMisses(id: nat)
    | Store(id: nat)
    | Reply(id: nat)
    | ReleaseDone(id: nat)
    | ReleaseLost(id: nat)
    | Crash(id: nat)
    | Expire(key: string)
    | Prune(anchor: Key)

  function At(s: State, id: nat, pc: Pc): State
    requires id in s.procs
  {
    s.(procs := s.procs[id := s.procs[id].(pc := pc)])
  }

  ghost predicate LockFree(s: State, player: Player) {
    forall j :: j in s.procs && s.procs[j].HoldsLock() ==> s.procs[j].req.player != player
  }

  /** A unique insert waits for the transaction that already inserted the same key. */
  ghost predicate KeysFree(s: State, id: nat, keys: set<Key>) {
    forall j :: j in s.procs && j != id && s.procs[j].pc.Staged? ==> KeysOf(s.procs[j].pc.legs) !! keys
  }

  predicate NoSuchRow(rows: seq<Row>, k: Key) { forall i :: 0 <= i < |rows| ==> rows[i].key != k }

  function AcquirePc(s: State, req: Request): Pc {
    if Validate(req, s.maxWin).Some? then Refused(Validate(req, s.maxWin).value)
    else if RedisKey(req) !in s.redis then Acquired
    else
      var slot := s.redis[RedisKey(req)];
      if slot.fp != FingerprintOf(req) then Refused(IdempotencyMismatch)
      else if slot.body.InFlight? then Refused(TransactionPending)
      else Replied(CachedReply, slot.body.payload)
  }

  /** The state after a step, or nothing when the step is not enabled. */
  ghost function Exec(s: State, l: Label): Option<State> {
    match l
    case CreatePlayer(p) =>
      if p == NIL || p in s.db.wallets then None else Some(s.(db := s.db.(wallets := s.db.wallets[p := ZERO_WALLET])))
    case Spawn(id, req) =>
      if id in s.procs then None else Some(s.(procs := s.procs[id := Proc(req, Start)]))
    case Expire(key) => Some(s.(redis := s.redis - {key}))
    case Prune(k) =>
      if k !in s.db.dedup then None
      else Some(s.(db := s.db.(dedup := s.db.dedup - {k}), prunes := s.prunes[k := Prunes(s, k) + 1]))
    case _ => if l.id !in s.procs then None else ExecProc(s, l, s.procs[l.id])
  }

  ghost function ExecProc(s: State, l: Label, p: Proc): Option<State>
    requires !l.CreatePlayer? && !l.Spawn? && !l.Expire? && !l.Prune? && l.id in s.procs && p == s.procs[l.id]
  {
    match l
    case Acquire(id) =>
      if !p.pc.Start? then None
      else
        var pc := AcquirePc(s, p.req);
        var s' := At(s, id, pc);
        Some(if pc.Acquired? then s'.(redis := s.redis[RedisKey(p.req) := Slot(FingerprintOf(p.req), InFlight)]) else s')
    case AcquireFails(id) => if p.pc.Start? then Some(At(s, id, Refused(Unavailable))) else None
    case Lock(id) =>
      if !p.pc.Acquired? then None
      else if p.req.player !in s.db.wallets then Some(At(s, id, Failing(PlayerNotFound)))
      else if !LockFree(s, p.req.player) then None
      else Some(At(s, id, Locked(s.db.wallets[p.req.player])))
    case Stage(id, g, drawn) =>
      if !p.pc.Locked? then None
      else
        var plan := Plan(s.db.rows, p.pc.snap, p.req, g, drawn);
        if plan.Err? then Some(At(s, id, Failing(plan.error)))
        else if !KeysFree(s, id, KeysOf(plan.value)) then None
        else if KeysOf(plan.value) !! s.db.dedup.Keys then Some(At(s, id, Staged(p.pc.snap, g, drawn, plan.value)))
        else Some(At(s, id, Conflict))
    case DbFails(id) => if p.InTransaction() then Some(At(s, id, Failing(Unavailable))) else None
    case Commit(id) =>
      if !p.pc.Staged? then None
      else
        var receipt := Receipt(p.req, |s.db.rows|, if p.req.body.SpinBody? then p.pc.drawn else p.req.meta, p.pc.legs);
        Some(At(s, id, Finishing(Processed, receipt)).(db := ApplyLegs(s.db, p.req.player, p.pc.legs)))
    case CommitUnseen(id) =>
      if !p.pc.Staged? then None
      else Some(At(s, id, Failing(Unavailable)).(db := ApplyLegs(s.db, p.req.player, p.pc.legs)))
    case Recover(id, i) =>
      if !p.pc.Conflict? || i >= |s.db.rows| || s.db.rows[i].key != AnchorKey(p.req) then None
      else
        var r := s.db.rows[i];
        if r.player != p.req.player || (!p.req.body.SpinBody? && r.kind != KindFor(EndpointOf(p.req.body)))
        then Some(At(s, id, Failing(TransactionConflict)))
        else Some(At(s, id, Finishing(GhostRecovered, Receipt(p.req, i, r.meta, []))))
    case RecoverMisses(id) =>
      if p.pc.Conflict? && NoSuchRow(s.db.rows, AnchorKey(p.req)) then Some(At(s, id, Failing(TransactionConflict))) else None
    case Store(id) =>
      if !p.pc.Finishing? then None
      else if RedisKey(p.req) !in s.redis then Some(s)
      else Some(s.(redis := s.redis[RedisKey(p.req) := Slot(FingerprintOf(p.req), Complete(p.pc.payload))]))
    case Reply(id) => if p.pc.Finishing? then Some(At(s, id, Replied(p.pc.status, p.pc.payload))) else None
    case ReleaseDone(id) =>
      if p.pc.Failing? then Some(At(s, id, Refused(p.pc.error)).(redis := s.redis - {RedisKey(p.req)})) else None
    case ReleaseLost(id) => if p.pc.Failing? then Some(At(s, id, Refused(p.pc.error))) else None
    case Crash(id) => if p.pc.Replied? || p.pc.Refused? then None else Some(At(s, id, Crashed))
  }

  ghost predicate Init(s: State) {
    s.db == Db(map[], [], map[]) && s.redis == map[] && s.procs == map[] && s.prunes == map[]
  }

  /** A run: the labels taken from an initial state, and the state they lead to. */
  ghost function RunFrom(s: State, labels: seq<Label>): Option<State>
    decreases |labels|
  {
    if labels == [] then Some(s)
    else
      var before := RunFrom(s, labels[..|labels| - 1]);
      if before.None? then None else Exec(before.value, labels[|labels| - 1])
  }

  ghost predicate Reachable(s: State) {
    exists start, labels :: Init(start) && RunFrom(start, labels) == Some(s)
  }
}
