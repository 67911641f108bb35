/** What one step of the protocol can change. */
module Steps {
  import opened Domain
  import opened Ledger
  import opened LedgerFacts
  import opened Protocol
  import opened ProtocolSafety

  /** Calls keep their requests. */
  ghost predicate SameRequests(procs: map<nat, Proc>, procs': map<nat, Proc>) {
    forall j :: j in procs ==> j in procs' && procs'[j].req == procs[j].req
  }

  /** The one call a step moves, if any. */
  function Subject(l: Label): Option<nat> {
    match l
    case CreatePlayer(_) => None
    case Expire(_) => None
    case Prune(_) => None
    case _ => Some(l.id)
  }

  ghost predicate OthersUnmoved(s: State, l: Label, s': State) {
    && SameRequests(s.procs, s'.procs)
    && forall i :: i in s'.procs && Subject(l) != Some(i) ==> i in s.procs && s'.procs[i] == s.procs[i]
  }

  lemma OnlySubjectMoves(s: State, l: Label, s': State)
    requires Exec(s, l) == Some(s')
    ensures OthersUnmoved(s, l, s')
  {
    if Subject(l).Some? && !l.Spawn? { SubjectStep(s, l, s'); }
  }

  lemma SubjectStep(s: State, l: Label, s': State)
    requires Subject(l).Some? && !l.Spawn? && Exec(s, l) == Some(s')
    ensures l.id in s.procs && exists pc :: s'.procs == At(s, l.id, pc).procs
  {
    assert ExecProc(s, l, s.procs[l.id]) == Some(s');
    assert s.procs[l.id := s.procs[l.id]] == s.procs;
    var pc := s'.procs[l.id].pc;
    assert s'.procs == At(s, l.id, pc).procs;
  }

  /** Rows change only by committing a staged plan. */
  lemma RowsChange(s: State, l: Label, s': State)
    requires Exec(s, l) == Some(s')
    ensures s'.db.rows == s.db.rows ||
      ((l.Commit? || l.CommitUnseen?) && l.id in s.procs && s.procs[l.id].pc.Staged?
       && s'.db == ApplyLegs(s.db, s.procs[l.id].req.player, s.procs[l.id].pc.legs))
  {
    if Subject(l).Some? && !l.Spawn? { assert ExecProc(s, l, s.procs[l.id]) == Some(s'); }
  }

  lemma RowsOnlyGrow(s: State, l: Label, s': State)
    requires Exec(s, l) == Some(s')
    ensures s.db.rows <= s'.db.rows
  {
    RowsChange(s, l, s');
    if s'.db.rows != s.db.rows { ApplyLegsRows(s.db, s.procs[l.id].req.player, s.procs[l.id].pc.legs); }
  }

  /** A call that may still write the ledger. */
  predicate CanCommit(pc: Pc) { pc.Start? || pc.Acquired? || pc.Locked? || pc.Staged? }

  /** A call that can no longer commit never can again. */
  lemma NoSecondWind(s: State, l: Label, s': State)
    requires Exec(s, l) == Some(s') && Subject(l).Some? && !l.Spawn? && l.id in s'.procs && CanCommit(s'.procs[l.id].pc)
    ensures l.id in s.procs && CanCommit(s.procs[l.id].pc)
  {
    assert ExecProc(s, l, s.procs[l.id]) == Some(s');
  }

  /** Anchors come from commits and go by prunes. */
  lemma AnchorsChange(s: State, l: Label, s': State)
    requires Exec(s, l) == Some(s')
    ensures l.Prune? ==> s'.db.dedup == s.db.dedup - {l.anchor} && s'.prunes == s.prunes[l.anchor := Prunes(s, l.anchor) + 1]
    ensures !l.Prune? ==> s'.prunes == s.prunes
    ensures !l.Prune? ==>
      || s'.db.dedup == s.db.dedup
      || ((l.Commit? || l.CommitUnseen?) && l.id in s.procs && s.procs[l.id].pc.Staged?
          && s'.db == ApplyLegs(s.db, s.procs[l.id].req.player, s.procs[l.id].pc.legs))
  {
    if Subject(l).Some? && !l.Spawn? { assert ExecProc(s, l, s.procs[l.id]) == Some(s'); }
  }
}
