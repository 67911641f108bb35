/** Retention drops dedup anchors.  Once-only settlement survives it as long as no call outlives the
    anchor it relies on. */
module Retention {
  import opened Domain
  import opened Ledger
  import opened LedgerFacts
  import opened Protocol
  import opened ProtocolSafety
  import opened Steps

  /** The keys a call may write. */
  function Writes(req: Request): set<Key> {
    if req.body.SpinBody? then {Key(req.op, req.tx + BET_LEG), Key(req.op, req.tx + WIN_LEG)} else {RequestKey(req)}
  }

  /** Some call may still write the key. */
  ghost predicate InFlightFor(s: State, k: Key) {
    exists j :: j in s.procs && k in Writes(s.procs[j].req) && CanCommit(s.procs[j].pc)
  }

  /** No call that writes k is in flight at, or arrives after, a prune of k. */
  ghost predicate Timely(start: State, labels: seq<Label>, k: Key)
    decreases |labels|
  {
    labels == [] ||
    (var n := |labels| - 1;
     && Timely(start, labels[..n], k)
     && (labels[n] == Prune(k) && RunFrom(start, labels[..n]).Some? ==> !InFlightFor(RunFrom(start, labels[..n]).value, k))
     && (labels[n].Spawn? && k in Writes(labels[n].req) ==> Prune(k) !in labels[..n]))
  }

  /** The state ends some run in which no call for k outlives its anchor. */
  ghost predicate TimelyRun(s: State, k: Key) {
    exists start, labels :: Init(start) && RunFrom(start, labels) == Some(s) && Timely(start, labels, k)
  }

  lemma PlanWrites(db: Db, p: Proc)
    requires p.pc.Staged? && ProcOk(db, p)
    ensures KeysOf(p.pc.legs) <= Writes(p.req)
  {
    PlanShape(db.rows, p.pc.snap, p.req, p.pc.guards, p.pc.drawn);
  }

  ghost predicate Retired(s: State, k: Key) { k !in s.db.dedup && !InFlightFor(s, k) }

  lemma RetiredStays(s: State, l: Label, s': State, k: Key)
    requires Inv(s) && Retired(s, k) && Exec(s, l) == Some(s') && !(l.Spawn? && k in Writes(l.req))
    ensures k !in s'.db.dedup && !InFlightFor(s', k) && (l != Prune(k))
  {
    AnchorsChange(s, l, s');
    if (l.Commit? || l.CommitUnseen?) && l.id in s.procs && s.procs[l.id].pc.Staged? {
      assert ProcOk(s.db, s.procs[l.id]) && CanCommit(s.procs[l.id].pc);
      PlanWrites(s.db, s.procs[l.id]);
      ApplyLegsKeys(s.db, s.procs[l.id].req.player, s.procs[l.id].pc.legs);
    }
    NoNewFlight(s, l, s', k);
  }

  lemma NoNewFlight(s: State, l: Label, s': State, k: Key)
    requires !InFlightFor(s, k) && Exec(s, l) == Some(s') && !(l.Spawn? && k in Writes(l.req))
    ensures !InFlightFor(s', k)
  {
    OnlySubjectMoves(s, l, s');
    forall j | j in s'.procs && k in Writes(s'.procs[j].req) ensures !CanCommit(s'.procs[j].pc) {
      if CanCommit(s'.procs[j].pc) && Subject(l) == Some(j) && !l.Spawn? { NoSecondWind(s, l, s'); }
    }
  }

  lemma {:induction false} TimelyKeeps(start: State, labels: seq<Label>, s: State, k: Key)
    requires Init(start) && RunFrom(start, labels) == Some(s) && Timely(start, labels, k)
    ensures Prunes(s, k) == 0 <==> Prune(k) !in labels
    ensures Prunes(s, k) <= 1 && (Prunes(s, k) == 1 ==> Retired(s, k))
    decreases |labels|
  {
    if labels != [] {
      var n := |labels| - 1;
      var before, l := RunFrom(start, labels[..n]).value, labels[n];
      TimelyKeeps(start, labels[..n], before, k);
      RunKeeps(start, labels[..n], before);
      assert labels == labels[..n] + [l];
      AnchorsChange(before, l, s);
      if Prunes(before, k) == 1 {
        RetiredStays(before, l, s, k);
      } else if l == Prune(k) {
        NoNewFlight(before, l, s, k);
      }
    }
  }

  /** When no call for a key outlives its anchor, retention and all, the key is settled at most
      once. */
  lemma OnceOnly(s: State, k: Key)
    requires TimelyRun(s, k)
    ensures Reachable(s) && KeyCount(s.db.rows, k) <= 1
  {
    var start, labels :| Init(start) && RunFrom(start, labels) == Some(s) && Timely(start, labels, k);
    TimelyKeeps(start, labels, s, k);
    ReachableInv(s);
  }

  lemma {:induction false} UnprunedIsTimely(start: State, labels: seq<Label>, s: State, k: Key)
    requires RunFrom(start, labels) == Some(s) && Prunes(s, k) == 0
    ensures Timely(start, labels, k) && Prune(k) !in labels
    decreases |labels|
  {
    if labels != [] {
      var n := |labels| - 1;
      var before := RunFrom(start, labels[..n]).value;
      AnchorsChange(before, labels[n], s);
      UnprunedIsTimely(start, labels[..n], before, k);
      assert labels == labels[..n] + [labels[n]];
    }
  }

  /** In particular while the anchor was never pruned. */
  lemma NeverPrunedIsTimely(s: State, k: Key)
    requires Reachable(s) && Prunes(s, k) == 0
    ensures TimelyRun(s, k)
  {
    var start, labels :| Init(start) && RunFrom(start, labels) == Some(s);
    UnprunedIsTimely(start, labels, s, k);
  }
}
