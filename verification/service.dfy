/** The request path around a transaction: validate, claim the key, settle, then cache the reply
    or release the key.  Every call is shown to be a run of the concurrent protocol, so all the
    protocol's guarantees hold of the tables this code writes. */
module Service {
  import opened Domain
  import opened Ledger
  import opened Protocol
  import opened ProtocolSafety
  import opened Engine
  import opened Runs
  import Game
  import Rng

  // --------------------------------------------------------------------------
  // The service
  // --------------------------------------------------------------------------

  datatype Reply = Success(status: Status, payload: Payload) | Failure(error: Error)

  function Final(r: Reply): Pc {
    match r
    case Success(status, payload) => Replied(status, payload)
    case Failure(error) => Refused(error)
  }

  /** The round a call would settle: a spin's draw from the generator's stream. */
  function RoundOf(table: Game.Paytable, req: Request, src: seq<Rng.Byte>): Game.Scored
    requires 0 < Game.Weight(table.symbols) < Rng.WORDS
  {
    if req.body.SpinBody? then Game.Drawn(table, src, []).0 else Game.Scored(req.meta)
  }

  predicate Draws(db: Db, req: Request, g: Guards) {
    req.body.SpinBody? && req.player in db.wallets && Refusal(g, req.body).None?
  }

  /** The tables and the result of a transaction are the plan's verdict on the round; a failed draw
      is unavailable and writes nothing. */
  ghost predicate Served(before: Db, after: Db, req: Request, g: Guards, caller: Metadata, codec: Codec, round: Game.Scored,
                         r: Result<TxResult>)
  {
    if Draws(before, req, g) && round.Refused? then r == Err(Unavailable) && after == before
    else
      var outcome := if round.Scored? then round.outcome else req.meta;
      var answers := if req.body.SpinBody? then WithFit(g, caller, codec, outcome) else g;
      after == AfterTx(before, req, answers, outcome) && Answered(before, req, answers, outcome, r)
  }

  lemma ServedIsRun(s: State, id: nat, g: Guards, caller: Metadata, codec: Codec, round: Game.Scored, r: Result<TxResult>, t: State)
    requires Reachable(s) && id in s.procs && s.procs[id].pc.Acquired? && Quiet(s)
    requires Served(s.db, t.db, s.procs[id].req, g, caller, codec, round, r) && t == At(s, id, PcOf(r)).(db := t.db)
    ensures Reachable(t)
    ensures r.Err? || r.value.status != Processed ==> t.db == s.db
    ensures r.Ok? ==> r.value.status != CachedReply
  {
    var req := s.procs[id].req;
    if Draws(s.db, req, g) && round.Refused? {
      DrawFailureIsRun(s, id, t);
    } else {
      var outcome := if round.Scored? then round.outcome else req.meta;
      var answers := if req.body.SpinBody? then WithFit(g, caller, codec, outcome) else g;
      TransactionIsRun(s, id, answers, outcome, r);
      OnlyProcessedWrites(s.db, req, answers, outcome, r);
    }
  }

  function ReplyTo(done: Result<TxResult>): Reply {
    if done.Ok? then Success(done.value.status, done.value.payload) else Failure(done.error)
  }

  ghost predicate ServedAs(before: Db, after: Db, req: Request, g: Guards, caller: Metadata, codec: Codec, round: Game.Scored, r: Reply) {
    exists done :: Served(before, after, req, g, caller, codec, round, done) && r == ReplyTo(done)
  }

  /** What a served call leaves at its key: its marker when the closing write is lost, its reply when
      it settled, and nothing when it was refused. */
  function SlotsAfter(slots: map<string, Slot>, req: Request, kept: bool, r: Reply): map<string, Slot> {
    if !kept then slots[RedisKey(req) := Slot(FingerprintOf(req), InFlight)]
    else if r.Success? then slots[RedisKey(req) := Slot(FingerprintOf(req), Complete(r.payload))]
    else slots
  }

  lemma SlotsClosed(slots: map<string, Slot>, key: string, marker: Slot, slot: Slot)
    requires key !in slots
    ensures slots[key := marker] - {key} == slots && slots[key := marker][key := slot] == slots[key := slot]
  {
  }

  class Service {
    const engine: Engine
    const table: Game.Paytable
    const codec: Codec
    const maxWin: Money
    var redis: map<string, Slot>
    ghost var run: State
    ghost var next: nat

    /** The tables and the barrier are the state of some run of the protocol, with no call in
        flight. */
    ghost predicate Valid() reads this, engine {
      && Reachable(run) && run.db == engine.Contents() && run.redis == redis && run.maxWin == maxWin
      && AllAnswered(run.procs, next)
      && Game.ValidTable(table) && Game.Weight(table.symbols) < Rng.WORDS
    }

    constructor (table: Game.Paytable, codec: Codec, maxWin: Money)
      requires Game.ValidTable(table) && Game.Weight(table.symbols) < Rng.WORDS
      ensures Valid() && fresh(engine) && engine.Contents() == Db(map[], [], map[]) && redis == map[]
    {
      engine := new Engine();
      this.table, this.codec, this.maxWin, redis, next := table, codec, maxWin, map[], 0;
      run := State(Db(map[], [], map[]), map[], map[], map[], maxWin);
      new;
      assert Init(run) && RunFrom(run, []) == Some(run);
    }

    method CreatePlayer(player: Player) returns (ok: bool)
      requires Valid()
      modifies this, engine
      ensures Valid()
      ensures ok <==> player != NIL && player !in old(engine.wallets)
      ensures engine.Contents() == if ok then old(engine.Contents()).(wallets := old(engine.wallets)[player := ZERO_WALLET]) else old(engine.Contents())
    {
      if player == NIL || player in engine.wallets { return false; }
      ghost var t := run.(db := run.db.(wallets := run.db.wallets[player := ZERO_WALLET]));
      ReachableStep(run, Protocol.CreatePlayer(player), t);
      engine.UpdateWalletBalances(player, ZERO_WALLET);
      run := t;
      return true;
    }

    /** The marker or cached reply under a key lapses. */
    method Lapse(key: string)
      requires Valid()
      modifies this`redis, this`run
      ensures Valid() && redis == old(redis) - {key}
    {
      ghost var t := run.(redis := run.redis - {key});
      ReachableStep(run, Expire(key), t);
      redis := redis - {key};
      run := t;
    }

    /** The transaction of the request's own endpoint. */
    method Dispatch(req: Request, g: Guards, caller: Metadata, rng: Rng.CryptoRNG) returns (r: Result<TxResult>)
      requires Validate(req, maxWin).None? && Game.ValidTable(table) && Game.Weight(table.symbols) < Rng.WORDS
      modifies engine, rng
      ensures Served(old(engine.Contents()), engine.Contents(), req, g, caller, codec, RoundOf(table, req, old(rng.src)), r)
      ensures rng.src == if Draws(old(engine.Contents()), req, g) then Game.Drawn(table, old(rng.src), []).1 else old(rng.src)
    {
      match req.body {
        case BetBody(_, _) => r := engine.ProcessBetTx(req, g);
        case WinBody(_, _, _) => r := engine.ProcessWinTx(req, g);
        case RollbackBody(_) => r := engine.ProcessRollbackTx(req);
        case PurchaseBody(_, _) => r := engine.ProcessPurchaseTx(req, g);
        case RedeemBody(_) => r := engine.ProcessRedeemTx(req, g);
        case PromoBody(_, _) => r := engine.ProcessPromoGrantTx(req, g);
        case SpinBody(_, _) => r := engine.ProcessSpinTx(req, g, caller, codec, table, rng);
      }
    }

    method RunTx(req: Request, g: Guards, caller: Metadata, rng: Rng.CryptoRNG, ghost id: nat) returns (r: Result<TxResult>)
      requires Reachable(run) && run.db == engine.Contents() && Quiet(run)
      requires id in run.procs && run.procs[id] == Proc(req, Acquired)
      requires Validate(req, maxWin).None? && Game.ValidTable(table) && Game.Weight(table.symbols) < Rng.WORDS
      modifies this`run, engine, rng
      ensures Reachable(run) && run.db == engine.Contents()
      ensures run == At(old(run), id, PcOf(r)).(db := run.db)
      ensures Served(old(run).db, run.db, req, g, caller, codec, RoundOf(table, req, old(rng.src)), r)
      ensures rng.src == if Draws(old(run).db, req, g) then Game.Drawn(table, old(rng.src), []).1 else old(rng.src)
      ensures r.Err? || r.value.status != Processed ==> run.db == old(run).db
      ensures r.Ok? ==> r.value.status != CachedReply
    {
      ghost var s, round := run, RoundOf(table, req, rng.src);
      r := Dispatch(req, g, caller, rng);
      run := At(s, id, PcOf(r)).(db := engine.Contents());
      ServedIsRun(s, id, g, caller, codec, round, r, run);
    }

    /** Caches the reply of a settled transaction, or releases the key. */
    method Close(req: Request, done: Result<TxResult>, kept: bool, ghost id: nat, ghost before: State) returns (r: Reply)
      requires Reachable(run) && RedisKey(req) in redis
      requires run == Arrived(before, id, req, PcOf(done)).(db := run.db, redis := redis)
      modifies this`redis, this`run
      ensures Reachable(run) && run == Arrived(before, id, req, Final(r)).(db := old(run).db, redis := redis)
      ensures r == ReplyTo(done)
      ensures redis == if !kept then old(redis)
        else if done.Ok? then old(redis)[RedisKey(req) := Slot(FingerprintOf(req), Complete(done.value.payload))]
        else old(redis) - {RedisKey(req)}
    {
      var key := RedisKey(req);
      r := ReplyTo(done);
      if kept {
        redis := if done.Ok? then redis[key := Slot(FingerprintOf(req), Complete(done.value.payload))] else redis - {key};
      }
      ghost var settled := run;
      run := Arrived(before, id, req, Final(r)).(db := settled.db, redis := redis);
      assert run == At(settled, id, Final(r)).(redis := redis);
      CloseIsRun(settled, id, done, kept, run);
    }

    /** A call that claims its key: the transaction, then the cached reply or the release. */
    method Settle(req: Request, g: Guards, caller: Metadata, rng: Rng.CryptoRNG, kept: bool) returns (r: Reply)
      requires Valid() && Validate(req, maxWin).None? && RedisKey(req) !in redis
      modifies this, engine, rng
      ensures Valid() && next == old(next) + 1
      ensures run == Arrived(old(run), old(next), req, Final(r)).(db := run.db, redis := redis)
      ensures ServedAs(old(run).db, run.db, req, g, caller, codec, RoundOf(table, req, old(rng.src)), r)
      ensures rng.src == if Draws(old(run).db, req, g) then Game.Drawn(table, old(rng.src), []).1 else old(rng.src)
      ensures r.Failure? || r.status != Processed ==> run.db == old(run).db
      ensures r.Success? ==> r.status != CachedReply
      ensures redis == SlotsAfter(old(redis), req, kept, r)
    {
      ghost var id, before := next, run;
      var key := RedisKey(req);
      redis := redis[key := Slot(FingerprintOf(req), InFlight)];
      run := Arrived(before, id, req, Acquired).(redis := redis);
      OneMoreAnswered(before.procs, id, Proc(req, Acquired));
      ClaimIsRun(before, id, req, run);
      var done := RunTx(req, g, caller, rng, id);
      assert run == Arrived(before, id, req, PcOf(done)).(db := run.db, redis := redis);
      assert Served(before.db, run.db, req, g, caller, codec, RoundOf(table, req, old(rng.src)), done);
      r := Close(req, done, kept, id, before);
      SlotsClosed(before.redis, key, Slot(FingerprintOf(req), InFlight), if r.Success? then redis[key] else Slot(FingerprintOf(req), InFlight));
      OneMoreAnswered(before.procs, id, Proc(req, Final(r)));
      next := next + 1;
    }

    /** One call, start to finish.  `up` says whether the barrier answers; `kept` whether the
        closing cache write or release reaches it.  A valid call that finds its key free is served:
        its tables and its reply are the plan's verdict.  Any other call writes nothing, draws
        nothing, and is answered by the first of validation, the barrier and the slot. */
    method Process(req: Request, g: Guards, caller: Metadata, rng: Rng.CryptoRNG, up: bool, kept: bool) returns (r: Reply)
      requires Valid()
      modifies this, engine, rng
      ensures Valid() && old(next) in run.procs && run.procs[old(next)] == Proc(req, Final(r))
      ensures run.procs == old(run).procs[old(next) := run.procs[old(next)]] && run.prunes == old(run).prunes
      ensures Validate(req, maxWin).None? && up && RedisKey(req) !in old(redis) ==>
        && ServedAs(old(engine.Contents()), engine.Contents(), req, g, caller, codec, RoundOf(table, req, old(rng.src)), r)
        && rng.src == (if Draws(old(engine.Contents()), req, g) then Game.Drawn(table, old(rng.src), []).1 else old(rng.src))
        && redis == SlotsAfter(old(redis), req, kept, r)
      ensures !(Validate(req, maxWin).None? && up && RedisKey(req) !in old(redis)) ==>
        && engine.Contents() == old(engine.Contents()) && redis == old(redis) && rng.src == old(rng.src)
        && r == (if Validate(req, maxWin).Some? then Failure(Validate(req, maxWin).value)
                 else if !up then Failure(Unavailable)
                 else
                   var slot := old(redis)[RedisKey(req)];
                   if slot.fp != FingerprintOf(req) then Failure(IdempotencyMismatch)
                   else if slot.body.InFlight? then Failure(TransactionPending)
                   else Success(CachedReply, slot.body.payload))
    {
      ghost var id, before := next, run;
      var invalid := Validate(req, maxWin);
      var key := RedisKey(req);
      if invalid.Some? {
        r := Failure(invalid.value);
      } else if !up {
        r := Failure(Unavailable);
      } else if key in redis {
        var slot := redis[key];
        if slot.fp != FingerprintOf(req) { r := Failure(IdempotencyMismatch); }
        else if slot.body.InFlight? { r := Failure(TransactionPending); }
        else { r := Success(CachedReply, slot.body.payload); }
      } else {
        r := Settle(req, g, caller, rng, kept);
        return;
      }
      next := next + 1;
      run := Arrived(before, id, req, Final(r));
      OneMoreAnswered(before.procs, id, Proc(req, Final(r)));
      AnsweredAtOnceIsRun(before, id, req, up, run);
    }
  }
}
