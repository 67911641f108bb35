/** What every step of the money protocol keeps, and therefore what holds in every reachable
    state under any interleaving of requests, crashes, expiries and prunes. */
module ProtocolSafety {
  import opened Domain
  import opened Ledger
  import opened LedgerFacts
  import opened Protocol
  import Idempotency
  import Game

  // --------------------------------------------------------------------------
  // The invariant
  // --------------------------------------------------------------------------

  function KeyCount(rows: seq<Row>, k: Key): nat {
    if rows == [] then 0 else KeyCount(rows[..|rows| - 1], k) + if rows[|rows| - 1].key == k then 1 else 0
  }

  /** Conservation of keys: a key has been settled once per prune of its anchor, plus once if
      the anchor stands. */
  ghost predicate KeysConserved(s: State) {
    forall k: Key :: KeyCount(s.db.rows, k) == Prunes(s, k) + if k in s.db.dedup then 1 else 0
  }

  predicate RowBacks(r: Row, p: Payload) {
    && r.player == p.player
    && r.key == (if p.endpoint.ESpin? then Key(p.key.op, p.key.tx + BET_LEG) else p.key)
    && (!p.endpoint.ESpin? ==> r.kind == KindFor(p.endpoint))
    && (p.endpoint.ESpin? ==> p.outcome == r.meta && p.win == Game.WinFor(p.amount, r.meta))
  }

  /** The payload reports a committed ledger transaction. */
  predicate Backed(rows: seq<Row>, p: Payload) { p.ledgerId < |rows| && RowBacks(rows[p.ledgerId], p) }

  /** A fresh or recovered result answers the request itself. */
  predicate Answers(req: Request, p: Payload) {
    p.key == RequestKey(req) && p.player == req.player && p.endpoint == EndpointOf(req.body)
    && (req.body.SpinBody? ==> p.amount == req.body.amount)
  }

  /** A cached result answers some request of the same player under the same Redis key. */
  predicate AnswersCached(req: Request, p: Payload) {
    Idempotency.IdempotencyKey(p.key.op, p.key.tx) == RedisKey(req) && p.player == req.player
  }

  ghost predicate PlanStands(db: Db, p: Proc)
    requires p.pc.Staged?
  {
    && Plan(db.rows, p.pc.snap, p.req, p.pc.guards, p.pc.drawn) == Ok(p.pc.legs)
    && KeysOf(p.pc.legs) !! db.dedup.Keys
  }

  /** The lock holder's snapshot is the committed wallet. */
  predicate SnapshotCurrent(db: Db, p: Proc)
    requires p.HoldsLock()
  {
    p.req.player in db.wallets && db.wallets[p.req.player] == p.pc.snap
  }

  ghost predicate ProcOk(db: Db, p: Proc) {
    && (p.HoldsLock() ==> SnapshotCurrent(db, p))
    && (p.pc.Staged? ==> PlanStands(db, p))
    && (p.pc.Finishing? ==> p.pc.status != CachedReply && Backed(db.rows, p.pc.payload) && Answers(p.req, p.pc.payload))
    && (p.pc.Replied? ==>
          && Backed(db.rows, p.pc.payload)
          && (p.pc.status == CachedReply ==> AnswersCached(p.req, p.pc.payload))
          && (p.pc.status != CachedReply ==> Answers(p.req, p.pc.payload)))
  }

  ghost predicate ProcsOk(db: Db, procs: map<nat, Proc>) { forall i :: i in procs ==> ProcOk(db, procs[i]) }

  /** Two processes never hold the same row lock nor the same uncommitted key. */
  ghost predicate Apart(p: Proc, q: Proc) {
    && (p.HoldsLock() && q.HoldsLock() ==> p.req.player != q.req.player)
    && (p.pc.Staged? && q.pc.Staged? ==> KeysOf(p.pc.legs) !! KeysOf(q.pc.legs))
  }

  ghost predicate AllApart(procs: map<nat, Proc>) {
    forall i, j :: i in procs && j in procs && i != j ==> Apart(procs[i], procs[j])
  }

  predicate SlotOk(rows: seq<Row>, key: string, slot: Slot) {
    slot.body.Complete? ==>
      && Backed(rows, slot.body.payload)
      && Idempotency.IdempotencyKey(slot.body.payload.key.op, slot.body.payload.key.tx) == key
      && slot.fp.player == slot.body.payload.player
  }

  predicate SlotsOk(rows: seq<Row>, redis: map<string, Slot>) { forall k :: k in redis ==> SlotOk(rows, k, redis[k]) }

  ghost predicate Inv(s: State) {
    DbOk(s.db) && KeysConserved(s) && ProcsOk(s.db, s.procs) && AllApart(s.procs) && SlotsOk(s.db.rows, s.redis)
  }

  // --------------------------------------------------------------------------
  // Committing
  // --------------------------------------------------------------------------

  lemma KeyCountSnoc(rows: seq<Row>, r: Row, k: Key)
    ensures KeyCount(rows + [r], k) == KeyCount(rows, k) + if r.key == k then 1 else 0
  {
    assert (rows + [r])[..|rows|] == rows;
  }

  lemma SuffixesDiffer(tx: string)
    ensures tx + BET_LEG != tx + WIN_LEG
  {
    assert (tx + BET_LEG)[|tx| + 1] == 'b' && (tx + WIN_LEG)[|tx| + 1] == 'w';
  }

  /** The keys and kinds a plan writes. */
  lemma PlanShape(rows: seq<Row>, snap: Wallet, req: Request, g: Guards, outcome: Game.Outcome)
    requires Plan(rows, snap, req, g, outcome).Ok?
    ensures var legs := Plan(rows, snap, req, g, outcome).value;
      && 1 <= |legs| <= 2
      && legs[0].key == AnchorKey(req) && legs[0].kind == KindFor(EndpointOf(req.body))
      && legs[0].meta == (if req.body.SpinBody? then outcome else req.meta)
      && (|legs| == 2 ==>
            && req.body.SpinBody? && legs[1].key == Key(req.op, req.tx + WIN_LEG)
            && legs[1].kind == Win && legs[1].key != legs[0].key)
  {
    if req.body.SpinBody? { SuffixesDiffer(req.tx); }
  }

  /** Per-key conservation across one written leg. */
  ghost predicate Conserves(db: Db, db': Db) {
    forall k: Key :: KeyCount(db'.rows, k) - (if k in db'.dedup then 1 else 0)
      == KeyCount(db.rows, k) - (if k in db.dedup then 1 else 0)
  }

  lemma ApplyLegConserves(db: Db, player: Player, leg: Leg)
    requires leg.key !in db.dedup
    ensures Conserves(db, ApplyLeg(db, player, leg))
  {
    forall k: Key ensures KeyCount(ApplyLeg(db, player, leg).rows, k) == KeyCount(db.rows, k) + if leg.key == k then 1 else 0 {
      KeyCountSnoc(db.rows, ToRow(db.rows, player, leg), k);
    }
  }

  lemma CommitConserves(db: Db, player: Player, legs: seq<Leg>)
    requires 1 <= |legs| <= 2 && (|legs| == 2 ==> legs[0].key != legs[1].key) && KeysOf(legs) !! db.dedup.Keys
    ensures Conserves(db, ApplyLegs(db, player, legs))
  {
    var db1 := ApplyLeg(db, player, legs[0]);
    assert legs[0].key in KeysOf(legs);
    ApplyLegConserves(db, player, legs[0]);
    if |legs| == 1 {
      assert legs[1..] == [];
    } else {
      assert legs[1].key in KeysOf(legs);
      assert legs[1..] == [legs[1]] && legs[1..][1..] == [];
      ApplyLegConserves(db1, player, legs[1]);
      var db2 := ApplyLeg(db1, player, legs[1]);
      assert ApplyLegs(db1, player, legs[1..]) == db2;
      forall k: Key ensures KeyCount(db2.rows, k) - (if k in db2.dedup then 1 else 0)
        == KeyCount(db.rows, k) - (if k in db.dedup then 1 else 0)
      {
        assert KeyCount(db2.rows, k) - (if k in db2.dedup then 1 else 0)
          == KeyCount(db1.rows, k) - (if k in db1.dedup then 1 else 0);
      }
    }
  }

  lemma BackedGrows(rows: seq<Row>, extra: seq<Row>, p: Payload)
    requires Backed(rows, p)
    ensures Backed(rows + extra, p)
  {
  }

  /** Another process's state survives a commit. */
  lemma OtherSurvivesCommit(db: Db, p: Proc, q: Proc)
    requires p.pc.Staged? && ProcOk(db, p) && ProcOk(db, q) && Apart(p, q) && DbOk(db)
    requires DbOk(ApplyLegs(db, p.req.player, p.pc.legs))
    ensures ProcOk(ApplyLegs(db, p.req.player, p.pc.legs), q)
  {
    var legs := p.pc.legs;
    var db' := ApplyLegs(db, p.req.player, legs);
    var extra := NewRows(db.rows, p.req.player, legs);
    PlanShape(db.rows, p.pc.snap, p.req, p.pc.guards, p.pc.drawn);
    ApplyLegsRows(db, p.req.player, legs);
    ApplyLegsWallets(db, p.req.player, legs);
    ApplyLegsKeys(db, p.req.player, legs);
    NewRowsShape(db.rows, p.req.player, legs);
    if q.pc.Staged? {
      PlanStable(db.rows, extra, q.pc.snap, q.req, q.pc.guards, q.pc.drawn);
    }
    if q.pc.Finishing? || q.pc.Replied? { BackedGrows(db.rows, extra, q.pc.payload); }
  }

  lemma CommitDbOk(db: Db, p: Proc)
    requires p.pc.Staged? && ProcOk(db, p) && DbOk(db)
    ensures DbOk(ApplyLegs(db, p.req.player, p.pc.legs))
    ensures Conserves(db, ApplyLegs(db, p.req.player, p.pc.legs))
  {
    PlanSound(db.rows, p.pc.snap, p.req, p.pc.guards, p.pc.drawn);
    ApplyLegsOk(db, p.req.player, p.pc.legs);
    PlanShape(db.rows, p.pc.snap, p.req, p.pc.guards, p.pc.drawn);
    CommitConserves(db, p.req.player, p.pc.legs);
  }

  function CommitReceipt(db: Db, p: Proc): Payload
    requires p.pc.Staged?
  {
    Receipt(p.req, |db.rows|, if p.req.body.SpinBody? then p.pc.drawn else p.req.meta, p.pc.legs)
  }

  lemma ReceiptBacked(db: Db, p: Proc)
    requires p.pc.Staged? && ProcOk(db, p)
    ensures Backed(ApplyLegs(db, p.req.player, p.pc.legs).rows, CommitReceipt(db, p))
    ensures Answers(p.req, CommitReceipt(db, p))
  {
    PlanShape(db.rows, p.pc.snap, p.req, p.pc.guards, p.pc.drawn);
    ApplyLegsRows(db, p.req.player, p.pc.legs);
    NewRowsShape(db.rows, p.req.player, p.pc.legs);
  }

  lemma CommitKeeps(s: State, id: nat, pc: Pc, s': State)
    requires Inv(s) && id in s.procs && s.procs[id].pc.Staged?
    requires s' == At(s, id, pc).(db := ApplyLegs(s.db, s.procs[id].req.player, s.procs[id].pc.legs))
    requires pc == Finishing(Processed, CommitReceipt(s.db, s.procs[id])) || pc == Failing(Unavailable)
    ensures Inv(s')
  {
    var p := s.procs[id];
    CommitDbOk(s.db, p);
    ReceiptBacked(s.db, p);
    forall i | i in s'.procs ensures ProcOk(s'.db, s'.procs[i]) {
      if i != id { OtherSurvivesCommit(s.db, p, s.procs[i]); }
    }
    ApplyLegsRows(s.db, p.req.player, p.pc.legs);
    forall k | k in s'.redis ensures SlotOk(s'.db.rows, k, s'.redis[k]) {
      assert SlotOk(s.db.rows, k, s.redis[k]);
      if s.redis[k].body.Complete? {
        BackedGrows(s.db.rows, NewRows(s.db.rows, p.req.player, p.pc.legs), s.redis[k].body.payload);
      }
    }
  }

  // --------------------------------------------------------------------------
  // The other steps
  // --------------------------------------------------------------------------

  /** A step that only moves one program counter, to somewhere that holds no lock. */
  lemma MoveKeeps(s: State, id: nat, pc: Pc, s': State)
    requires Inv(s) && id in s.procs && s' == At(s, id, pc)
    requires ProcOk(s.db, s.procs[id].(pc := pc)) && !pc.Locked? && !pc.Staged?
    ensures Inv(s')
  {
  }

  lemma LockKeeps(s: State, id: nat, s': State)
    requires Inv(s) && Exec(s, Lock(id)) == Some(s')
    ensures Inv(s')
  {
    var p := s.procs[id];
    if p.req.player !in s.db.wallets { MoveKeeps(s, id, Failing(PlayerNotFound), s'); }
  }

  lemma StageKeeps(s: State, id: nat, g: Guards, drawn: Game.Outcome, s': State)
    requires Inv(s) && Exec(s, Stage(id, g, drawn)) == Some(s')
    ensures Inv(s')
  {
    var p := s.procs[id];
    assert ProcOk(s.db, p);
    var plan := Plan(s.db.rows, p.pc.snap, p.req, g, drawn);
    if plan.Err? {
      MoveKeeps(s, id, Failing(plan.error), s');
    } else if KeysOf(plan.value) !! s.db.dedup.Keys {
      assert ProcOk(s.db, s'.procs[id]);
      forall i, j | i in s'.procs && j in s'.procs && i != j ensures Apart(s'.procs[i], s'.procs[j]) {
        assert Apart(s.procs[i], s.procs[j]);
      }
    } else {
      MoveKeeps(s, id, Conflict, s');
    }
  }

  lemma AcquireKeeps(s: State, id: nat, s': State)
    requires Inv(s) && Exec(s, Acquire(id)) == Some(s')
    ensures Inv(s')
  {
    var p := s.procs[id];
    var pc := AcquirePc(s, p.req);
    if pc.Replied? { assert SlotOk(s.db.rows, RedisKey(p.req), s.redis[RedisKey(p.req)]); }
    MoveKeeps(s, id, pc, At(s, id, pc));
  }

  lemma StoreKeeps(s: State, id: nat, s': State)
    requires Inv(s) && Exec(s, Store(id)) == Some(s')
    ensures Inv(s')
  {
    assert ProcOk(s.db, s.procs[id]);
  }

  lemma RecoverKeeps(s: State, id: nat, row: nat, s': State)
    requires Inv(s) && Exec(s, Recover(id, row)) == Some(s')
    ensures Inv(s')
  {
    var p, r := s.procs[id], s.db.rows[row];
    if r.player != p.req.player || (!p.req.body.SpinBody? && r.kind != KindFor(EndpointOf(p.req.body))) {
      MoveKeeps(s, id, Failing(TransactionConflict), s');
    } else {
      var receipt := Receipt(p.req, row, r.meta, []);
      assert RowBacks(r, receipt) && Answers(p.req, receipt);
      MoveKeeps(s, id, Finishing(GhostRecovered, receipt), s');
    }
  }

  lemma ReplyKeeps(s: State, id: nat, s': State)
    requires Inv(s) && Exec(s, Reply(id)) == Some(s')
    ensures Inv(s')
  {
    var p := s.procs[id];
    assert ProcOk(s.db, p);
    MoveKeeps(s, id, Replied(p.pc.status, p.pc.payload), s');
  }

  lemma NewWalletOk(db: Db, player: Player)
    requires DbOk(db) && player !in db.wallets
    ensures DbOk(db.(wallets := db.wallets[player := ZERO_WALLET]))
  {
    forall i | 0 <= i < |db.rows| ensures db.rows[i].player != player { }
    forall c: Currency ensures Sum(db.rows, player, c) == 0 {
      SumFrame([], db.rows, player, c);
      assert [] + db.rows == db.rows;
    }
    var db' := db.(wallets := db.wallets[player := ZERO_WALLET]);
    forall p | p in db'.wallets
      ensures db'.wallets[p].NonNegative() && forall c: Currency :: db'.wallets[p].BalanceFor(c) == Sum(db'.rows, p, c)
    {
    }
  }

  lemma CreatePlayerKeeps(s: State, player: Player, s': State)
    requires Inv(s) && Exec(s, CreatePlayer(player)) == Some(s')
    ensures Inv(s')
  {
    NewWalletOk(s.db, player);
    forall i | i in s'.procs ensures ProcOk(s'.db, s'.procs[i]) { assert ProcOk(s.db, s.procs[i]); }
  }

  lemma PruneKeeps(s: State, k: Key, s': State)
    requires Inv(s) && Exec(s, Prune(k)) == Some(s')
    ensures Inv(s')
  {
    forall i | i in s'.procs ensures ProcOk(s'.db, s'.procs[i]) { assert ProcOk(s.db, s.procs[i]); }
  }

  lemma SpawnKeeps(s: State, id: nat, req: Request, s': State)
    requires Inv(s) && Exec(s, Spawn(id, req)) == Some(s')
    ensures Inv(s')
  {
    forall i, j | i in s'.procs && j in s'.procs && i != j ensures Apart(s'.procs[i], s'.procs[j]) {
      if i != id && j != id { assert Apart(s.procs[i], s.procs[j]); }
    }
  }

  /** Every step of the protocol keeps the invariant. */
  lemma StepKeeps(s: State, l: Label, s': State)
    requires Inv(s) && Exec(s, l) == Some(s')
    ensures Inv(s')
  {
    match l
    case CreatePlayer(p) => CreatePlayerKeeps(s, p, s');
    case Spawn(id, req) => SpawnKeeps(s, id, req, s');
    case Acquire(id) => AcquireKeeps(s, id, s');
    case AcquireFails(id) => MoveKeeps(s, id, Refused(Unavailable), s');
    case Lock(id) => LockKeeps(s, id, s');
    case Stage(id, g, drawn) => StageKeeps(s, id, g, drawn, s');
    case DbFails(id) => MoveKeeps(s, id, Failing(Unavailable), s');
    case Commit(id) => CommitKeeps(s, id, Finishing(Processed, CommitReceipt(s.db, s.procs[id])), s');
    case CommitUnseen(id) => CommitKeeps(s, id, Failing(Unavailable), s');
    case Recover(id, row) => RecoverKeeps(s, id, row, s');
    case RecoverMisses(id) => MoveKeeps(s, id, Failing(TransactionConflict), s');
    case Store(id) => StoreKeeps(s, id, s');
    case Reply(id) => ReplyKeeps(s, id, s');
    case ReleaseDone(id) => MoveKeeps(s, id, Refused(s.procs[id].pc.error), At(s, id, Refused(s.procs[id].pc.error)));
    case ReleaseLost(id) => MoveKeeps(s, id, Refused(s.procs[id].pc.error), s');
    case Crash(id) => MoveKeeps(s, id, Crashed, s');
    case Expire(key) =>
    case Prune(k) => PruneKeeps(s, k, s');
  }

  lemma {:induction false} RunKeeps(start: State, labels: seq<Label>, s: State)
    requires Inv(start) && RunFrom(start, labels) == Some(s)
    ensures Inv(s)
    decreases |labels|
  {
    if labels != [] {
      var n := |labels| - 1;
      var before := RunFrom(start, labels[..n]).value;
      RunKeeps(start, labels[..n], before);
      StepKeeps(before, labels[n], s);
    }
  }

  lemma ReachableInv(s: State)
    requires Reachable(s)
    ensures Inv(s)
  {
    var start, labels :| Init(start) && RunFrom(start, labels) == Some(s);
    RunKeeps(start, labels, s);
  }
}
