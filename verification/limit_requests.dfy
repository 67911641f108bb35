/** What a SetLimit request does, on its own fields: when it is recorded, when an exclusion it records
    excludes, and when a limit it records governs. */
module LimitRequests {
  import opened Domain
  import opened Ledger
  import opened Limits

  // --------------------------------------------------------------------------
  // When a request is recorded
  // --------------------------------------------------------------------------

  predicate NewEvent(log: seq<LimitRow>, eventId: string) { forall i :: 0 <= i < |log| ==> log[i].eventId != eventId }

  /** An exclusion has to end later; a windowed limit has to name a period and a positive amount. */
  predicate WellAsked(req: SetLimitRequest, now: int) {
    if req.limitType.IsExclusion() then req.endsAt.Some? && req.endsAt.value > now
    else req.period.Some? && req.amount.Some? && req.amount.value > 0
  }

  /** Exactly one row more than before, at the end. */
  predicate Records(log: seq<LimitRow>, log': seq<LimitRow>) { |log'| == |log| + 1 && log'[..|log|] == log }

  /** A request under a new event id is recorded exactly when it names an event and a known player and
      either asks well for something, or lifts an exclusion that is not running.  Nothing else is
      recorded, and a limit is never lifted. */
  lemma RecordedExactly(users: set<Player>, log: seq<LimitRow>, req: SetLimitRequest, now: int)
    requires LogFair(log) && CreatedBy(log, now) && NewEvent(log, req.eventId)
    ensures Records(log, Appended(users, log, req, now)) <==>
      && req.eventId != "" && req.player != NIL && req.player in users
      && (if req.active then WellAsked(req, now)
          else req.limitType.IsExclusion() && !Excluded(log, req.player, req.limitType, now))
    ensures !Records(log, Appended(users, log, req, now)) ==> Appended(users, log, req, now) == log && Decide(users, log, req, now).Err?
    ensures req.eventId != "" && WellAsked(req, now) && (req.player == NIL || req.player !in users) ==>
      Decide(users, log, req, now) == Err(PlayerNotFound)
    ensures req.player != NIL && req.active && !WellAsked(req, now) ==> Decide(users, log, req, now) == Err(InvalidAmount)
  {
    FindsNew(log, req.eventId);
    if req.limitType.IsExclusion() && !req.active {
      NewestIsLatest(log, req.player, req.limitType, now);
      NewestIs(log, req.player, req.limitType);
      var n := Newest(log, req.player, req.limitType);
      if n > 0 { assert RowFair(log[..n - 1], log[n - 1]); }
    }
  }

  lemma FindsNew(log: seq<LimitRow>, eventId: string)
    requires NewEvent(log, eventId)
    ensures FindEvent(log, eventId) == |log|
  {
  }

  /** The recorded row carries the request, and of an exclusion its end, of a limit its period and
      amount. */
  lemma RecordedRow(users: set<Player>, log: seq<LimitRow>, req: SetLimitRequest, now: int)
    requires Records(log, Appended(users, log, req, now))
    ensures var r := Appended(users, log, req, now)[|log|];
      && Decide(users, log, req, now) == Ok(r)
      && r.player == req.player && r.limitType == req.limitType && r.active == req.active && r.eventId == req.eventId && r.createdAt == now
      && (req.limitType.IsExclusion() ==>
            r.period.None? && r.amount.None? && r.endsAt == (if req.active then req.endsAt else None) && r.effectiveAt == now)
      && (!req.limitType.IsExclusion() ==> req.active && r.period == req.period && r.amount == req.amount && r.endsAt.None?)
  {
  }

  // --------------------------------------------------------------------------
  // Exclusions
  // --------------------------------------------------------------------------

  /** A recorded exclusion excludes its player until its end and not a moment longer, whatever the log
      held before; a recorded lift leaves nothing of its type; and no other type or player notices. */
  lemma ExclusionBites(users: set<Player>, log: seq<LimitRow>, req: SetLimitRequest, now: int, u: int)
    requires req.limitType.IsExclusion() && Records(log, Appended(users, log, req, now))
    ensures Excluded(Appended(users, log, req, now), req.player, req.limitType, u) <==>
      req.active && req.endsAt.Some? && u < req.endsAt.value
    ensures forall p, t :: !(p == req.player && t == req.limitType) ==>
      (Excluded(Appended(users, log, req, now), p, t, u) <==> Excluded(log, p, t, u))
  {
    NewestAfter(users, log, req, now, req.player, req.limitType);
    RecordedRow(users, log, req, now);
    forall p, t | !(p == req.player && t == req.limitType)
      ensures Excluded(Appended(users, log, req, now), p, t, u) <==> Excluded(log, p, t, u)
    {
      OtherExclusion(users, log, req, now, p, t, u);
    }
  }

  lemma OtherExclusion(users: set<Player>, log: seq<LimitRow>, req: SetLimitRequest, now: int, p: Player, t: LimitType, u: int)
    requires !(p == req.player && t == req.limitType)
    ensures Excluded(Appended(users, log, req, now), p, t, u) <==> Excluded(log, p, t, u)
  {
    NewestAfter(users, log, req, now, p, t);
  }

  // --------------------------------------------------------------------------
  // Limits
  // --------------------------------------------------------------------------

  /** The instant a recorded limit starts to govern: at once when it does not raise the amount in
      force, and a full day later when it does. */
  predicate Starts(at: int, log: seq<LimitRow>, req: SetLimitRequest, now: int) {
    var current := LatestEffectiveLimit(log, req.player, req.limitType, now);
    var raises := req.amount.Some? && current.Some? && current.value.active && current.value.amount.Some?
      && req.amount.value > current.value.amount.value;
    at == if raises then now + 24 * 60 * 60 * 1_000_000 else now
  }

  /** No row of the type from position k on has taken effect by then. */
  predicate NoneSince(log: seq<LimitRow>, k: nat, p: Player, t: LimitType, u: int) {
    forall i :: k <= i < |log| && Matches(log[i], p, t) ==> log[i].effectiveAt > u
  }

  /** The limit in force has this period and amount. */
  predicate InForce(log: seq<LimitRow>, p: Player, t: LimitType, u: int, period: Option<Period>, amount: Option<Money>) {
    var row := LatestEffectiveLimit(log, p, t, u);
    row.Some? && row.value.active && row.value.period == period && row.value.amount == amount
  }

  /** From its starting instant on, a recorded limit is the one in force, with its own period and
      amount, until a later row of the type takes effect; before that instant what governed before
      still governs. */
  lemma LimitGoverns(users: set<Player>, log: seq<LimitRow>, req: SetLimitRequest, now: int, later: seq<LimitRow>, u: int)
    requires !req.limitType.IsExclusion() && Records(log, Appended(users, log, req, now))
    requires Appended(users, log, req, now) <= later && NoneSince(later, |log| + 1, req.player, req.limitType, u)
    ensures exists at ::
      && Starts(at, log, req, now)
      && (at <= u ==> InForce(later, req.player, req.limitType, u, req.period, req.amount))
      && (u < at ==> LatestEffectiveLimit(later, req.player, req.limitType, u) == LatestEffectiveLimit(log, req.player, req.limitType, u))
  {
    var log', p, t := Appended(users, log, req, now), req.player, req.limitType;
    RecordedRow(users, log, req, now);
    var r := log'[|log|];
    assert later[|log|] == r;
    assert Starts(r.effectiveAt, log, req, now);
    if r.effectiveAt <= u {
      LatestIs(later, p, t, u);
      assert InForce(later, p, t, u, req.period, req.amount);
    } else {
      assert later[..|log|] == log;
      LatestFrame(later, |log|, p, t, u);
      LatestIs(log, p, t, u);
    }
  }
}
