/** One call at a time as a run of the concurrent protocol. */
module Runs {
  import opened Domain
  import opened Ledger
  import opened Protocol
  import opened ProtocolSafety
  import opened Engine
  import Game

  // --------------------------------------------------------------------------
  // Calls as runs
  // --------------------------------------------------------------------------

  lemma ReachableStep(s: State, l: Label, t: State)
    requires Reachable(s) && Exec(s, l) == Some(t)
    ensures Reachable(t)
  {
    var start, labels :| Init(start) && RunFrom(start, labels) == Some(s);
    var more := labels + [l];
    assert more[..|more| - 1] == labels;
    assert RunFrom(start, more) == Some(t);
  }

  function PcOf(r: Result<TxResult>): Pc {
    if r.Ok? then Finishing(r.value.status, r.value.payload) else Failing(r.error)
  }

  ghost predicate Quiet(s: State) { forall j :: j in s.procs ==> !s.procs[j].HoldsLock() }

  /** The step-by-step transaction is the protocol's lock, stage and commit (or recover). */
  lemma TransactionIsRun(s: State, id: nat, g: Guards, drawn: Game.Outcome, r: Result<TxResult>)
    requires Reachable(s) && id in s.procs && s.procs[id].pc.Acquired? && Quiet(s)
    requires Answered(s.db, s.procs[id].req, g, drawn, r)
    ensures Reachable(At(s, id, PcOf(r)).(db := AfterTx(s.db, s.procs[id].req, g, drawn)))
  {
    var req := s.procs[id].req;
    if req.player !in s.db.wallets {
      var end := At(s, id, Failing(PlayerNotFound));
      assert ExecProc(s, Lock(id), s.procs[id]) == Some(end);
      ReachableStep(s, Lock(id), end);
    } else {
      var locked := At(s, id, Locked(s.db.wallets[req.player]));
      assert ExecProc(s, Lock(id), s.procs[id]) == Some(locked);
      ReachableStep(s, Lock(id), locked);
      LockedIsRun(locked, id, g, drawn, r);
      assert At(locked, id, PcOf(r)).procs == At(s, id, PcOf(r)).procs;
    }
  }

  lemma LockedIsRun(locked: State, id: nat, g: Guards, drawn: Game.Outcome, r: Result<TxResult>)
    requires Reachable(locked) && id in locked.procs && locked.procs[id].req.player in locked.db.wallets
    requires locked.procs[id].pc == Locked(locked.db.wallets[locked.procs[id].req.player])
    requires forall j :: j in locked.procs && j != id ==> !locked.procs[j].HoldsLock()
    requires Answered(locked.db, locked.procs[id].req, g, drawn, r)
    ensures Reachable(At(locked, id, PcOf(r)).(db := AfterTx(locked.db, locked.procs[id].req, g, drawn)))
  {
    var end := At(locked, id, PcOf(r)).(db := AfterTx(locked.db, locked.procs[id].req, g, drawn));
    match Judge(locked.db, locked.procs[id].req, g, drawn)
    case Rejects(error) =>
      assert ExecProc(locked, Stage(id, g, drawn), locked.procs[id]) == Some(end);
      ReachableStep(locked, Stage(id, g, drawn), end);
    case Settles(legs) =>
      CommitIsRun(locked, id, g, drawn, legs, r, end);
    case Collides =>
      ConflictIsRun(locked, id, g, drawn);
      RecoveryIsRun(At(locked, id, Conflict), id, r);
      assert At(At(locked, id, Conflict), id, PcOf(r)) == end;
  }

  lemma OnlyProcessedWrites(db: Db, req: Request, g: Guards, drawn: Game.Outcome, r: Result<TxResult>)
    requires Answered(db, req, g, drawn, r)
    ensures r.Ok? ==> r.value.status != CachedReply
    ensures r.Err? || r.value.status != Processed ==> AfterTx(db, req, g, drawn) == db
  {
    if Judge(db, req, g, drawn).Collides? && !NoSuchRow(db.rows, AnchorKey(req)) {
      var i :| 0 <= i < |db.rows| && RecoversAs(db, req, i, r);
    }
  }

  lemma CommitIsRun(locked: State, id: nat, g: Guards, drawn: Game.Outcome, legs: seq<Leg>, r: Result<TxResult>, end: State)
    requires Reachable(locked) && id in locked.procs && locked.procs[id].pc.Locked?
    requires forall j :: j in locked.procs && j != id ==> !locked.procs[j].HoldsLock()
    requires var p := locked.procs[id];
      && Plan(locked.db.rows, p.pc.snap, p.req, g, drawn) == Ok(legs) && KeysOf(legs) !! locked.db.dedup.Keys
      && r.Ok? && r.value.status == Processed
      && r.value.payload == Receipt(p.req, |locked.db.rows|, if p.req.body.SpinBody? then drawn else p.req.meta, legs)
      && end == At(locked, id, PcOf(r)).(db := ApplyLegs(locked.db, p.req.player, legs))
    ensures Reachable(end)
  {
    var staged := At(locked, id, Staged(locked.procs[id].pc.snap, g, drawn, legs));
    assert ExecProc(locked, Stage(id, g, drawn), locked.procs[id]) == Some(staged);
    ReachableStep(locked, Stage(id, g, drawn), staged);
    assert ExecProc(staged, Commit(id), staged.procs[id]).Some?;
    assert ExecProc(staged, Commit(id), staged.procs[id]).value == end;
    ReachableStep(staged, Commit(id), end);
  }

  lemma ConflictIsRun(locked: State, id: nat, g: Guards, drawn: Game.Outcome)
    requires Reachable(locked) && id in locked.procs && locked.procs[id].pc.Locked?
    requires forall j :: j in locked.procs && j != id ==> !locked.procs[j].HoldsLock()
    requires var p := locked.procs[id];
      var plan := Plan(locked.db.rows, p.pc.snap, p.req, g, drawn);
      plan.Ok? && !(KeysOf(plan.value) !! locked.db.dedup.Keys)
    ensures Reachable(At(locked, id, Conflict))
  {
    var met := At(locked, id, Conflict);
    assert ExecProc(locked, Stage(id, g, drawn), locked.procs[id]) == Some(met);
    ReachableStep(locked, Stage(id, g, drawn), met);
  }

  lemma RecoveryIsRun(met: State, id: nat, r: Result<TxResult>)
    requires Reachable(met) && id in met.procs && met.procs[id].pc.Conflict?
    requires met.procs[id].req.player in met.db.wallets && Recovers(met.db, met.procs[id].req, r)
    ensures Reachable(At(met, id, PcOf(r)))
  {
    var req, end := met.procs[id].req, At(met, id, PcOf(r));
    if NoSuchRow(met.db.rows, AnchorKey(req)) {
      assert ExecProc(met, RecoverMisses(id), met.procs[id]) == Some(end);
      ReachableStep(met, RecoverMisses(id), end);
    } else {
      var i :| 0 <= i < |met.db.rows| && RecoversAs(met.db, req, i, r);
      RecoveredRow(met, id, i, r);
    }
  }

  lemma RecoveredRow(met: State, id: nat, i: nat, r: Result<TxResult>)
    requires Reachable(met) && id in met.procs && met.procs[id].pc.Conflict? && i < |met.db.rows|
    requires met.procs[id].req.player in met.db.wallets && RecoversAs(met.db, met.procs[id].req, i, r)
    ensures Reachable(At(met, id, PcOf(r)))
  {
    var end := At(met, id, PcOf(r));
    assert ExecProc(met, Recover(id, i), met.procs[id]) == Some(end);
    ReachableStep(met, Recover(id, i), end);
  }

  function Arrived(s: State, id: nat, req: Request, pc: Pc): State { s.(procs := s.procs[id := Proc(req, pc)]) }

  /** The pc of a call that is answered before any transaction. */
  function AnsweredAtOnce(s: State, req: Request, up: bool): Pc {
    if up || Validate(req, s.maxWin).Some? then AcquirePc(s, req) else Refused(Unavailable)
  }

  lemma ArrivalIsRun(s: State, id: nat, req: Request)
    requires Reachable(s) && id !in s.procs
    ensures Reachable(Arrived(s, id, req, Start))
  {
    ReachableStep(s, Spawn(id, req), Arrived(s, id, req, Start));
  }

  lemma AnsweredAtOnceIsRun(s: State, id: nat, req: Request, up: bool, t: State)
    requires Reachable(s) && id !in s.procs && !AnsweredAtOnce(s, req, up).Acquired?
    requires t == Arrived(s, id, req, AnsweredAtOnce(s, req, up))
    ensures Reachable(t)
  {
    ArrivalIsRun(s, id, req);
    var s1 := Arrived(s, id, req, Start);
    var l := if up || Validate(req, s.maxWin).Some? then Acquire(id) else AcquireFails(id);
    assert At(s1, id, AnsweredAtOnce(s, req, up)) == t;
    assert ExecProc(s1, l, s1.procs[id]) == Some(t);
    ReachableStep(s1, l, t);
  }

  lemma ClaimIsRun(s: State, id: nat, req: Request, t: State)
    requires Reachable(s) && id !in s.procs && AcquirePc(s, req).Acquired?
    requires t == Arrived(s, id, req, Acquired).(redis := s.redis[RedisKey(req) := Slot(FingerprintOf(req), InFlight)])
    ensures Reachable(t)
  {
    ArrivalIsRun(s, id, req);
    var s1 := Arrived(s, id, req, Start);
    assert At(s1, id, Acquired) == Arrived(s, id, req, Acquired);
    assert ExecProc(s1, Acquire(id), s1.procs[id]) == Some(t);
    ReachableStep(s1, Acquire(id), t);
  }

  function Closed(s: State, req: Request, done: Result<TxResult>, kept: bool): map<string, Slot> {
    if !kept then s.redis
    else if done.Err? then s.redis - {RedisKey(req)}
    else if RedisKey(req) in s.redis then s.redis[RedisKey(req) := Slot(FingerprintOf(req), Complete(done.value.payload))]
    else s.redis
  }

  /** Caching the reply or releasing the key, and answering. */
  lemma CloseIsRun(s: State, id: nat, done: Result<TxResult>, kept: bool, t: State)
    requires Reachable(s) && id in s.procs && s.procs[id].pc == PcOf(done)
    requires t == At(s, id, if done.Ok? then Replied(done.value.status, done.value.payload) else Refused(done.error))
                    .(redis := Closed(s, s.procs[id].req, done, kept))
    ensures Reachable(t)
  {
    if done.Err? {
      var l := if kept then ReleaseDone(id) else ReleaseLost(id);
      assert ExecProc(s, l, s.procs[id]) == Some(t);
      ReachableStep(s, l, t);
    } else {
      var s1 := s.(redis := Closed(s, s.procs[id].req, done, kept));
      if kept {
        assert ExecProc(s, Store(id), s.procs[id]) == Some(s1);
        ReachableStep(s, Store(id), s1);
      }
      assert ExecProc(s1, Protocol.Reply(id), s1.procs[id]) == Some(t);
      ReachableStep(s1, Protocol.Reply(id), t);
    }
  }

  ghost predicate AllAnswered(procs: map<nat, Proc>, next: nat) {
    forall j :: j in procs ==> j < next && (procs[j].pc.Replied? || procs[j].pc.Refused?)
  }

  lemma OneMoreAnswered(procs: map<nat, Proc>, next: nat, p: Proc)
    requires AllAnswered(procs, next)
    ensures next !in procs
    ensures p.pc.Replied? || p.pc.Refused? ==> AllAnswered(procs[next := p], next + 1)
    ensures forall s: State :: s.procs == procs[next := p] && !p.HoldsLock() ==> Quiet(s)
  {
  }

  lemma DrawFailureIsRun(s: State, id: nat, t: State)
    requires Reachable(s) && id in s.procs && s.procs[id].pc.Acquired? && t == At(s, id, Failing(Unavailable))
    ensures Reachable(t)
  {
    assert ExecProc(s, DbFails(id), s.procs[id]) == Some(t);
    ReachableStep(s, DbFails(id), t);
  }

  // --------------------------------------------------------------------------
  // A whole call
  // --------------------------------------------------------------------------

  /** What a settled call is told. */
  function SettledReceipt(s: State, req: Request, drawn: Game.Outcome, legs: seq<Leg>): Payload {
    Receipt(req, |s.db.rows|, if req.body.SpinBody? then drawn else req.meta, legs)
  }

  /** The state after a call that settled and cached its reply. */
  function CallDone(s: State, id: nat, req: Request, drawn: Game.Outcome, legs: seq<Leg>): State {
    var receipt := SettledReceipt(s, req, drawn, legs);
    s.(db := ApplyLegs(s.db, req.player, legs), procs := s.procs[id := Proc(req, Replied(Processed, receipt))],
       redis := s.redis[RedisKey(req) := Slot(FingerprintOf(req), Complete(receipt))])
  }

  /** Nothing is in flight, and the call's id and Redis key are free. */
  ghost predicate ReadyFor(s: State, id: nat, req: Request) {
    Reachable(s) && Quiet(s) && id !in s.procs && Validate(req, s.maxWin).None? && RedisKey(req) !in s.redis
  }

  /** The call's transaction has committed and its marker stands. */
  function CallCommitted(s: State, id: nat, req: Request, drawn: Game.Outcome, legs: seq<Leg>): State {
    Arrived(s, id, req, Finishing(Processed, SettledReceipt(s, req, drawn, legs)))
      .(db := ApplyLegs(s.db, req.player, legs), redis := s.redis[RedisKey(req) := Slot(FingerprintOf(req), InFlight)])
  }

  lemma CallCommits(s: State, id: nat, req: Request, g: Guards, drawn: Game.Outcome, legs: seq<Leg>)
    requires ReadyFor(s, id, req) && Judge(s.db, req, g, drawn) == Settles(legs) && legs != []
    ensures Reachable(CallCommitted(s, id, req, drawn, legs))
  {
    var s1 := Arrived(s, id, req, Acquired).(redis := s.redis[RedisKey(req) := Slot(FingerprintOf(req), InFlight)]);
    ClaimIsRun(s, id, req, s1);
    var done: Result<TxResult> := Ok(TxResult(Processed, SettledReceipt(s, req, drawn, legs), legs[|legs| - 1].after));
    TransactionIsRun(s1, id, g, drawn, done);
    assert At(s1, id, PcOf(done)).procs == CallCommitted(s, id, req, drawn, legs).procs;
  }

  /** In a quiet state a call runs to its verdict. */
  lemma CallSettles(s: State, id: nat, req: Request, g: Guards, drawn: Game.Outcome, legs: seq<Leg>)
    requires ReadyFor(s, id, req) && Judge(s.db, req, g, drawn) == Settles(legs) && legs != []
    ensures Reachable(CallDone(s, id, req, drawn, legs)) && Quiet(CallDone(s, id, req, drawn, legs))
  {
    CallCommits(s, id, req, g, drawn, legs);
    var receipt := SettledReceipt(s, req, drawn, legs);
    CommittedCloses(CallCommitted(s, id, req, drawn, legs), id, receipt, legs[0].after, CallDone(s, id, req, drawn, legs));
  }

  lemma CommittedCloses(s: State, id: nat, receipt: Payload, balances: Wallet, t: State)
    requires Reachable(s) && id in s.procs && s.procs[id].pc == Finishing(Processed, receipt) && RedisKey(s.procs[id].req) in s.redis
    requires t == s.(procs := s.procs[id := Proc(s.procs[id].req, Replied(Processed, receipt))],
      redis := s.redis[RedisKey(s.procs[id].req) := Slot(FingerprintOf(s.procs[id].req), Complete(receipt))])
    ensures Reachable(t)
  {
    CloseIsRun(s, id, Ok(TxResult(Processed, receipt, balances)), true, t);
  }

  /** The same call once its cached reply has lapsed. */
  lemma CallSettlesAndLapses(s: State, id: nat, req: Request, g: Guards, drawn: Game.Outcome, legs: seq<Leg>)
    requires ReadyFor(s, id, req) && Judge(s.db, req, g, drawn) == Settles(legs) && legs != []
    ensures Reachable(CallDone(s, id, req, drawn, legs).(redis := s.redis))
    ensures Quiet(CallDone(s, id, req, drawn, legs).(redis := s.redis))
  {
    CallSettles(s, id, req, g, drawn, legs);
    var t := CallDone(s, id, req, drawn, legs);
    assert t.redis - {RedisKey(req)} == s.redis;
    ReachableStep(t, Expire(RedisKey(req)), t.(redis := s.redis));
  }

  /** In a quiet state a call whose transaction is refused is told so, and nothing else changes. */
  lemma CallIsRefused(s: State, id: nat, req: Request, g: Guards, drawn: Game.Outcome, error: Error)
    requires ReadyFor(s, id, req) && Judge(s.db, req, g, drawn) == Rejects(error)
    ensures Reachable(Arrived(s, id, req, Refused(error))) && Quiet(Arrived(s, id, req, Refused(error)))
  {
    var s1 := Arrived(s, id, req, Acquired).(redis := s.redis[RedisKey(req) := Slot(FingerprintOf(req), InFlight)]);
    ClaimIsRun(s, id, req, s1);
    var done: Result<TxResult> := Err(error);
    TransactionIsRun(s1, id, g, drawn, done);
    var s2 := At(s1, id, Failing(error)).(db := s.db);
    assert AfterTx(s1.db, req, g, drawn) == s.db && PcOf(done) == Failing(error);
    var t := Arrived(s, id, req, Refused(error));
    assert s2.redis - {RedisKey(req)} == s.redis;
    assert At(s2, id, Refused(error)).procs == t.procs;
    CloseIsRun(s2, id, done, true, t);
  }

  /** The first state with a player. */
  function OnePlayer(player: Player, maxWin: Money): State {
    State(Db(map[player := ZERO_WALLET], [], map[]), map[], map[], map[], maxWin)
  }

  lemma OnePlayerIsReachable(player: Player, maxWin: Money)
    requires player != NIL
    ensures Reachable(OnePlayer(player, maxWin)) && Quiet(OnePlayer(player, maxWin))
  {
    var start := State(Db(map[], [], map[]), map[], map[], map[], maxWin);
    assert Init(start) && RunFrom(start, []) == Some(start);
    assert map[][player := ZERO_WALLET] == map[player := ZERO_WALLET];
    ReachableStep(start, CreatePlayer(player), OnePlayer(player, maxWin));
  }
}
