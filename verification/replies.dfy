/** What the replies of a run say about each other: at most one call is told PROCESSED, a cached
    reply was produced by a like request, and a settled round is never re-rolled. */
module Replies {
  import opened Domain
  import opened Ledger
  import opened Protocol
  import opened ProtocolSafety
  import opened Steps
  import opened Retention
  import opened Guarantees
  import Idempotency
  import Game

  // --------------------------------------------------------------------------
  // The invariant over replies
  // --------------------------------------------------------------------------

  predicate ClaimsProcessed(p: Proc) {
    (p.pc.Finishing? || p.pc.Replied?) && p.pc.status == Processed
  }

  /** No two calls report having settled the same ledger transaction. */
  ghost predicate ProcessedApart(procs: map<nat, Proc>) {
    forall i, j :: i in procs && j in procs && i != j && ClaimsProcessed(procs[i]) && ClaimsProcessed(procs[j]) ==>
      procs[i].pc.payload.ledgerId != procs[j].pc.payload.ledgerId
  }

  predicate Produced(req: Request, payload: Payload, fp: Fingerprint) {
    Answers(req, payload) && FingerprintOf(req) == fp
  }

  /** Some call of the run with this fingerprint produced the payload as its own answer. */
  ghost predicate Sourced(procs: map<nat, Proc>, payload: Payload, fp: Fingerprint) {
    exists j :: j in procs && Produced(procs[j].req, payload, fp)
  }

  ghost predicate SlotsSourced(s: State) {
    forall k :: k in s.redis && s.redis[k].body.Complete? ==> Sourced(s.procs, s.redis[k].body.payload, s.redis[k].fp)
  }

  ghost predicate RepliesSourced(procs: map<nat, Proc>) {
    forall i :: i in procs && procs[i].pc.Replied? ==> Sourced(procs, procs[i].pc.payload, FingerprintOf(procs[i].req))
  }

  ghost predicate ReplyInv(s: State) {
    Inv(s) && ProcessedApart(s.procs) && SlotsSourced(s) && RepliesSourced(s.procs)
  }

  // --------------------------------------------------------------------------
  // Every step keeps it
  // --------------------------------------------------------------------------

  lemma SourcedStays(procs: map<nat, Proc>, procs': map<nat, Proc>, payload: Payload, fp: Fingerprint)
    requires SameRequests(procs, procs') && Sourced(procs, payload, fp)
    ensures Sourced(procs', payload, fp)
  {
    var j :| j in procs && Produced(procs[j].req, payload, fp);
    assert Produced(procs'[j].req, payload, fp);
  }

  /** Only committing makes a call claim PROCESSED, with the next ledger id. */
  lemma ClaimSource(s: State, l: Label, s': State)
    requires Exec(s, l) == Some(s') && Subject(l).Some? && l.id in s'.procs && ClaimsProcessed(s'.procs[l.id])
    ensures l.Commit? ==> s'.procs[l.id].pc.payload.ledgerId == |s.db.rows|
    ensures !l.Commit? ==> l.id in s.procs && ClaimsProcessed(s.procs[l.id]) && s.procs[l.id].pc.payload == s'.procs[l.id].pc.payload
  {
    if !l.Spawn? { assert ExecProc(s, l, s.procs[l.id]) == Some(s'); }
  }

  lemma ApartKept(procs: map<nat, Proc>, procs': map<nat, Proc>, subject: Option<nat>, newId: nat)
    requires ProcessedApart(procs)
    requires forall i :: i in procs && ClaimsProcessed(procs[i]) ==> procs[i].pc.payload.ledgerId < newId
    requires forall i :: i in procs' && subject != Some(i) ==> i in procs && procs'[i] == procs[i]
    requires subject.Some? && subject.value in procs' && ClaimsProcessed(procs'[subject.value]) ==>
      || procs'[subject.value].pc.payload.ledgerId == newId
      || (subject.value in procs && ClaimsProcessed(procs[subject.value])
          && procs[subject.value].pc.payload == procs'[subject.value].pc.payload)
    ensures ProcessedApart(procs')
  {
  }

  lemma StepKeepsApart(s: State, l: Label, s': State)
    requires ReplyInv(s) && Exec(s, l) == Some(s')
    ensures ProcessedApart(s'.procs)
  {
    forall i | i in s.procs && ClaimsProcessed(s.procs[i]) ensures s.procs[i].pc.payload.ledgerId < |s.db.rows| {
      assert ProcOk(s.db, s.procs[i]);
    }
    OnlySubjectMoves(s, l, s');
    if Subject(l).Some? && l.id in s'.procs && ClaimsProcessed(s'.procs[l.id]) { ClaimSource(s, l, s'); }
    ApartKept(s.procs, s'.procs, Subject(l), |s.db.rows|);
  }

  lemma AcquireSource(s: State, id: nat, s': State)
    requires ReplyInv(s) && Exec(s, Acquire(id)) == Some(s') && s'.procs[id].pc.Replied?
    ensures id in s.procs && Sourced(s.procs, s'.procs[id].pc.payload, FingerprintOf(s'.procs[id].req))
  {
    var req := s.procs[id].req;
    assert s'.procs[id].pc == AcquirePc(s, req);
    assert Sourced(s.procs, s.redis[RedisKey(req)].body.payload, FingerprintOf(req));
  }

  lemma OwnAnswerSourced(s: State, id: nat)
    requires ReplyInv(s) && id in s.procs && s.procs[id].pc.Finishing?
    ensures Sourced(s.procs, s.procs[id].pc.payload, FingerprintOf(s.procs[id].req))
  {
    assert ProcOk(s.db, s.procs[id]);
    assert Produced(s.procs[id].req, s.procs[id].pc.payload, FingerprintOf(s.procs[id].req));
  }

  /** A call becomes replied only with the slot it found or with its own finished result. */
  lemma BecomesReplied(s: State, l: Label, s': State)
    requires Exec(s, l) == Some(s') && Subject(l).Some? && l.id in s'.procs && s'.procs[l.id].pc.Replied?
    ensures l.id in s.procs && s'.procs[l.id].req == s.procs[l.id].req
    ensures l.Acquire? || (l.Reply? && s.procs[l.id].pc.Finishing? && s'.procs[l.id].pc.payload == s.procs[l.id].pc.payload)
  {
    if !l.Spawn? { assert ExecProc(s, l, s.procs[l.id]) == Some(s'); }
  }

  /** A slot becomes complete only with the result of the call that writes it. */
  lemma BecomesComplete(s: State, l: Label, s': State, k: string)
    requires Exec(s, l) == Some(s') && k in s'.redis && s'.redis[k].body.Complete?
    ensures (k in s.redis && s'.redis[k] == s.redis[k])
      || (l.Store? && l.id in s.procs && s.procs[l.id].pc.Finishing?
          && s'.redis[k] == Slot(FingerprintOf(s.procs[l.id].req), Complete(s.procs[l.id].pc.payload)))
  {
    if Subject(l).Some? && !l.Spawn? { assert ExecProc(s, l, s.procs[l.id]) == Some(s'); }
  }

  lemma ReplySource(s: State, l: Label, s': State)
    requires ReplyInv(s) && Exec(s, l) == Some(s') && Subject(l).Some? && l.id in s'.procs && s'.procs[l.id].pc.Replied?
    ensures l.id in s.procs && Sourced(s.procs, s'.procs[l.id].pc.payload, FingerprintOf(s'.procs[l.id].req))
  {
    BecomesReplied(s, l, s');
    if l.Acquire? { AcquireSource(s, l.id, s'); } else { OwnAnswerSourced(s, l.id); }
  }

  lemma SlotSource(s: State, l: Label, s': State, k: string)
    requires ReplyInv(s) && Exec(s, l) == Some(s') && k in s'.redis && s'.redis[k].body.Complete?
    ensures (k in s.redis && s'.redis[k] == s.redis[k]) || Sourced(s.procs, s'.redis[k].body.payload, s'.redis[k].fp)
  {
    BecomesComplete(s, l, s', k);
    if l.Store? && s.procs[l.id].pc.Finishing? { OwnAnswerSourced(s, l.id); }
  }

  lemma StepKeepsSources(s: State, l: Label, s': State)
    requires ReplyInv(s) && Exec(s, l) == Some(s')
    ensures SlotsSourced(s') && RepliesSourced(s'.procs)
  {
    OnlySubjectMoves(s, l, s');
    forall k | k in s'.redis && s'.redis[k].body.Complete? ensures Sourced(s'.procs, s'.redis[k].body.payload, s'.redis[k].fp) {
      SlotSource(s, l, s', k);
      SourcedStays(s.procs, s'.procs, s'.redis[k].body.payload, s'.redis[k].fp);
    }
    forall i | i in s'.procs && s'.procs[i].pc.Replied? ensures Sourced(s'.procs, s'.procs[i].pc.payload, FingerprintOf(s'.procs[i].req)) {
      if Subject(l) == Some(i) { ReplySource(s, l, s'); }
      SourcedStays(s.procs, s'.procs, s'.procs[i].pc.payload, FingerprintOf(s'.procs[i].req));
    }
  }

  lemma StepKeepsReplies(s: State, l: Label, s': State)
    requires ReplyInv(s) && Exec(s, l) == Some(s')
    ensures ReplyInv(s')
  {
    StepKeeps(s, l, s');
    StepKeepsApart(s, l, s');
    StepKeepsSources(s, l, s');
  }

  lemma {:induction false} RunKeepsReplies(start: State, labels: seq<Label>, s: State)
    requires ReplyInv(start) && RunFrom(start, labels) == Some(s)
    ensures ReplyInv(s)
    decreases |labels|
  {
    if labels != [] {
      var n := |labels| - 1;
      var before := RunFrom(start, labels[..n]).value;
      RunKeepsReplies(start, labels[..n], before);
      StepKeepsReplies(before, labels[n], s);
    }
  }

  lemma ReachableReplies(s: State)
    requires Reachable(s)
    ensures ReplyInv(s)
  {
    var start, labels :| Init(start) && RunFrom(start, labels) == Some(s);
    RunKeepsReplies(start, labels, s);
  }

  // --------------------------------------------------------------------------
  // What callers may conclude
  // --------------------------------------------------------------------------

  /** However many calls race for one key, and whatever crashes, lapses or is released, at most
      one of them is ever told PROCESSED, as long as no call for the key outlives its anchor. */
  lemma AtMostOneProcessed(s: State, i: nat, j: nat)
    requires i in s.procs && j in s.procs && s.procs[i].pc.Replied? && s.procs[j].pc.Replied?
    requires s.procs[i].pc.status == Processed && s.procs[j].pc.status == Processed
    requires AnchorKey(s.procs[i].req) == AnchorKey(s.procs[j].req) && TimelyRun(s, AnchorKey(s.procs[i].req))
    ensures i == j
  {
    var k := AnchorKey(s.procs[i].req);
    OnceOnly(s, k);
    ReachableReplies(s);
    ProcessedRow(s, i);
    ProcessedRow(s, j);
    UniqueRow(s.db.rows, k, s.procs[i].pc.payload.ledgerId, s.procs[j].pc.payload.ledgerId);
  }

  lemma ProcessedRow(s: State, i: nat)
    requires Inv(s) && i in s.procs && s.procs[i].pc.Replied? && s.procs[i].pc.status == Processed
    ensures var id := s.procs[i].pc.payload.ledgerId; id < |s.db.rows| && s.db.rows[id].key == AnchorKey(s.procs[i].req)
  {
    assert ProcOk(s.db, s.procs[i]);
  }

  /** Every success reply's payload was computed for a call of the same player and the same body
      hash, as that call's own answer. */
  lemma ReplyHasSource(s: State, i: nat)
    requires Reachable(s) && i in s.procs && s.procs[i].pc.Replied?
    ensures exists j ::
      && j in s.procs && Produced(s.procs[j].req, s.procs[i].pc.payload, FingerprintOf(s.procs[i].req))
      && s.procs[j].req.player == s.procs[i].req.player && s.procs[j].req.bodyHash == s.procs[i].req.bodyHash
  {
    ReachableReplies(s);
  }

  /** Two calls the barrier can not tell apart. */
  predicate Alike(a: Request, b: Request) { RedisKey(a) == RedisKey(b) && FingerprintOf(a) == FingerprintOf(b) }

  /** All calls with the Redis key and the fingerprint of `req` came in on one endpoint. */
  ghost predicate OneEndpoint(s: State, req: Request) {
    forall j :: j in s.procs && Alike(s.procs[j].req, req) ==> EndpointOf(s.procs[j].req.body) == EndpointOf(req.body)
  }

  /** When no call alike came in on another endpoint, every success reply, cached or not, reports a
      committed transaction of the request's own player and endpoint. */
  lemma OneEndpointReplies(s: State, i: nat)
    requires Reachable(s) && i in s.procs && s.procs[i].pc.Replied? && OneEndpoint(s, s.procs[i].req)
    ensures var req, payload := s.procs[i].req, s.procs[i].pc.payload;
      && Backed(s.db.rows, payload) && payload.player == req.player && payload.endpoint == EndpointOf(req.body)
      && (!payload.endpoint.ESpin? ==> s.db.rows[payload.ledgerId].kind == KindFor(payload.endpoint))
  {
    ReachableReplies(s);
    var req, payload := s.procs[i].req, s.procs[i].pc.payload;
    assert ProcOk(s.db, s.procs[i]);
    var j :| j in s.procs && Produced(s.procs[j].req, payload, FingerprintOf(req));
    if s.procs[i].pc.status == CachedReply {
      assert RedisKey(s.procs[j].req) == Idempotency.IdempotencyKey(payload.key.op, payload.key.tx);
      assert Alike(s.procs[j].req, req);
    }
  }

  /** No operator code of the run contains the Redis key's separator. */
  ghost predicate PlainOperators(s: State) { forall j :: j in s.procs ==> ':' !in s.procs[j].req.op }

  lemma ReplyReportsOwnKey(s: State, i: nat)
    requires Reachable(s) && PlainOperators(s) && i in s.procs && s.procs[i].pc.Replied?
    ensures s.procs[i].pc.payload.key == RequestKey(s.procs[i].req)
  {
    ReplyHasSource(s, i);
    var j :| j in s.procs && Produced(s.procs[j].req, s.procs[i].pc.payload, FingerprintOf(s.procs[i].req));
    SuccessIsBacked(s, i);
  }

  /** A settled round is never re-rolled: all success replies ever given for one spin id carry
      the ledger's one outcome, and replies for equal stakes report the same win, however many
      fresh draws the retries made. */
  lemma SpinNeverReRolled(s: State, i: nat, j: nat)
    requires i in s.procs && j in s.procs && TimelyRun(s, AnchorKey(s.procs[i].req))
    requires PlainOperators(s) && s.procs[i].pc.Replied? && s.procs[j].pc.Replied?
    requires s.procs[i].req.body.SpinBody? && s.procs[j].req.body.SpinBody?
    requires RequestKey(s.procs[i].req) == RequestKey(s.procs[j].req)
    requires OneEndpoint(s, s.procs[i].req) && OneEndpoint(s, s.procs[j].req)
    ensures var a, b := s.procs[i].pc.payload, s.procs[j].pc.payload;
      && a.ledgerId == b.ledgerId && a.ledgerId < |s.db.rows|
      && a.outcome == b.outcome && a.outcome == s.db.rows[a.ledgerId].meta
      && (a.amount == b.amount ==> a.win == b.win)
      && a.win == Game.WinFor(a.amount, a.outcome) && b.win == Game.WinFor(b.amount, b.outcome)
  {
    var a, b := s.procs[i].pc.payload, s.procs[j].pc.payload;
    var k := AnchorKey(s.procs[i].req);
    OnceOnly(s, k);
    OneEndpointReplies(s, i);
    OneEndpointReplies(s, j);
    ReplyReportsOwnKey(s, i);
    ReplyReportsOwnKey(s, j);
    UniqueRow(s.db.rows, k, a.ledgerId, b.ledgerId);
  }
}
