/** Responsible-gaming limits: an append-only log of limit rows, each with the instant it starts
    to govern.  Times are microseconds; one instant per request. */
module Limits {
  import opened Domain
  import opened Ledger

  const DELAY := 24 * 3600 * 1_000_000

  datatype LimitType = SelfExclusion | CoolOff | LossLimit | DepositLimit {
    predicate IsExclusion() { SelfExclusion? || CoolOff? }
  }

  datatype Period = Day | Week | Month

  datatype LimitRow = LimitRow(
    player: Player, limitType: LimitType, period: Option<Period>, active: bool, amount: Option<Money>,
    endsAt: Option<int>, effectiveAt: int, eventId: string, createdAt: int)

  datatype SetLimitRequest = SetLimitRequest(
    player: Player, limitType: LimitType, active: bool, period: Option<Period>, amount: Option<Money>,
    endsAt: Option<int>, eventId: string)

  function ValidateLimit(req: SetLimitRequest, now: int): Option<Error> {
    if req.player == NIL then Some(PlayerNotFound)
    else if req.eventId == "" then Some(InvalidAmount)
    else if !req.active then None
    else if req.limitType.IsExclusion() then
      if req.endsAt.None? || req.endsAt.value <= now then Some(InvalidAmount) else None
    else if req.period.None? then Some(InvalidAmount)
    else if req.amount.None? || req.amount.value <= 0 then Some(InvalidAmount)
    else None
  }

  // --------------------------------------------------------------------------
  // Reading the log
  // --------------------------------------------------------------------------

  predicate Matches(r: LimitRow, p: Player, t: LimitType) { r.player == p && r.limitType == t }

  /** One past the position of the newest matching row that has taken effect, or 0. */
  function Latest(log: seq<LimitRow>, p: Player, t: LimitType, now: int): (n: nat)
    ensures n <= |log|
  {
    if log == [] then 0
    else
      var last := log[|log| - 1];
      if Matches(last, p, t) && last.effectiveAt <= now then |log| else Latest(log[..|log| - 1], p, t, now)
  }

  /** The row that currently governs a player's limit. */
  function LatestEffectiveLimit(log: seq<LimitRow>, p: Player, t: LimitType, now: int): Option<LimitRow> {
    var n := Latest(log, p, t, now);
    if n == 0 then None else Some(log[n - 1])
  }

  /** The governing amount; None is no limit. */
  function Governing(log: seq<LimitRow>, p: Player, t: LimitType, now: int): Option<Money> {
    var row := LatestEffectiveLimit(log, p, t, now);
    if row.Some? && row.value.active then row.value.amount else None
  }

  /** No limit counts as infinite. */
  predicate AtMost(a: Option<Money>, b: Option<Money>) { b.None? || (a.Some? && a.value <= b.value) }

  predicate Below(a: Option<Money>, b: Option<Money>) { !AtMost(b, a) }

  function IsDecreaseOrNew(newAmount: Option<Money>, current: Option<Money>): bool {
    if newAmount.None? then false
    else if current.None? then true
    else newAmount.value <= current.value
  }

  /** Position of the row an event id produced, or the length. */
  function FindEvent(log: seq<LimitRow>, eventId: string): (n: nat)
    ensures n <= |log| && (n < |log| ==> log[n].eventId == eventId)
    ensures forall i :: 0 <= i < n ==> log[i].eventId != eventId
  {
    if log == [] then 0
    else if log[0].eventId == eventId then 0
    else 1 + FindEvent(log[1..], eventId)
  }

  // --------------------------------------------------------------------------
  // Writing the log
  // --------------------------------------------------------------------------

  function LiftRefused(log: seq<LimitRow>, req: SetLimitRequest, now: int): bool {
    var current := LatestEffectiveLimit(log, req.player, req.limitType, now);
    current.Some? && current.value.active && current.value.endsAt.Some? && current.value.endsAt.value > now
  }

  function NewAmount(req: SetLimitRequest): Option<Money> { if req.active then req.amount else None }

  function EffectiveAt(log: seq<LimitRow>, req: SetLimitRequest, now: int): int {
    if req.limitType.IsExclusion() || IsDecreaseOrNew(NewAmount(req), Governing(log, req.player, req.limitType, now))
    then now else now + DELAY
  }

  function RowFor(log: seq<LimitRow>, req: SetLimitRequest, now: int): LimitRow {
    var windowed := req.active && !req.limitType.IsExclusion();
    LimitRow(req.player, req.limitType, if windowed then req.period else None, req.active, if windowed then req.amount else None,
      if req.active && req.limitType.IsExclusion() then req.endsAt else None, EffectiveAt(log, req, now), req.eventId, now)
  }

  /** The table's CHECK constraints: windowed rows name a period, dated rows do not; an amount
      stands on active windowed rows only, an end on active dated rows only. */
  predicate CheckShape(r: LimitRow) {
    && (r.period.Some? <==> !r.limitType.IsExclusion())
    && (r.amount.Some? <==> !r.limitType.IsExclusion() && r.active) && (r.amount.Some? ==> r.amount.value > 0)
    && (r.endsAt.Some? <==> r.limitType.IsExclusion() && r.active)
  }

  function Decide(users: set<Player>, log: seq<LimitRow>, req: SetLimitRequest, now: int): Result<LimitRow> {
    if ValidateLimit(req, now).Some? then Err(ValidateLimit(req, now).value)
    else if req.player !in users then Err(PlayerNotFound)
    else if req.limitType.IsExclusion() && !req.active && LiftRefused(log, req, now) then Err(InvalidAmount)
    else if !CheckShape(RowFor(log, req, now)) then Err(Unavailable)
    else
      var n := FindEvent(log, req.eventId);
      if n < |log| then Ok(log[n]) else Ok(RowFor(log, req, now))
  }

  function Appended(users: set<Player>, log: seq<LimitRow>, req: SetLimitRequest, now: int): seq<LimitRow> {
    if Decide(users, log, req, now).Ok? && FindEvent(log, req.eventId) == |log| then log + [RowFor(log, req, now)] else log
  }

  class LimitStore {
    var users: set<Player>
    var log: seq<LimitRow>

    constructor (users: set<Player>)
      ensures this.users == users && log == []
    {
      this.users, log := users, [];
    }

    method SetLimit(req: SetLimitRequest, now: int) returns (r: Result<LimitRow>)
      modifies this`log
      ensures r == Decide(users, old(log), req, now)
      ensures log == Appended(users, old(log), req, now)
    {
      var invalid := ValidateLimit(req, now);
      if invalid.Some? { return Err(invalid.value); }
      if req.player !in users { return Err(PlayerNotFound); }
      var effectiveAt := now;
      var current := LatestEffectiveLimit(log, req.player, req.limitType, now);
      match req.limitType {
        case SelfExclusion | CoolOff =>
          if !req.active {
            if current.Some? && current.value.active && current.value.endsAt.Some? && current.value.endsAt.value > now {
              return Err(InvalidAmount);
            }
          }
        case LossLimit | DepositLimit =>
          var currentAmount: Option<Money> := None;
          if current.Some? && current.value.active { currentAmount := current.value.amount; }
          var newAmount: Option<Money> := None;
          if req.active { newAmount := req.amount; }
          if !IsDecreaseOrNew(newAmount, currentAmount) { effectiveAt := now + DELAY; }
      }
      var row := LimitRow(req.player, req.limitType, None, req.active, None, None, effectiveAt, req.eventId, now);
      if req.active {
        match req.limitType {
          case LossLimit | DepositLimit => row := row.(period := req.period, amount := req.amount);
          case SelfExclusion | CoolOff => row := row.(endsAt := req.endsAt);
        }
      }
      if !CheckShape(row) { return Err(Unavailable); }
      var n := FindEvent(log, req.eventId);
      if n < |log| { return Ok(log[n]); }
      log := log + [row];
      return Ok(row);
    }
  }

  // --------------------------------------------------------------------------
  // Histories
  // --------------------------------------------------------------------------

  datatype Call = Call(req: SetLimitRequest, at: int)

  function History(users: set<Player>, calls: seq<Call>): seq<LimitRow> {
    if calls == [] then []
    else
      var c := calls[|calls| - 1];
      Appended(users, History(users, calls[..|calls| - 1]), c.req, c.at)
  }

  predicate InOrder(calls: seq<Call>) { forall i, j :: 0 <= i <= j < |calls| ==> calls[i].at <= calls[j].at }

  /** What makes a row a fair record of the log before it. */
  ghost predicate RowFair(log: seq<LimitRow>, r: LimitRow) {
    && CheckShape(r)
    && (forall i :: 0 <= i < |log| ==> log[i].createdAt <= r.createdAt && log[i].eventId != r.eventId)
    && (r.limitType.IsExclusion() ==> r.effectiveAt == r.createdAt)
    && (!r.limitType.IsExclusion() ==>
          if AtMost(r.amount, Governing(log, r.player, r.limitType, r.createdAt)) && r.amount.Some?
          then r.effectiveAt == r.createdAt else r.effectiveAt == r.createdAt + DELAY)
    && (r.limitType.IsExclusion() && !r.active ==>
          var current := LatestEffectiveLimit(log, r.player, r.limitType, r.createdAt);
          current.Some? && current.value.active ==> current.value.endsAt.Some? && current.value.endsAt.value <= r.createdAt)
  }

  ghost predicate LogFair(log: seq<LimitRow>) {
    forall i :: 0 <= i < |log| ==> RowFair(log[..i], log[i])
  }

  predicate CreatedBy(log: seq<LimitRow>, now: int) { forall i :: 0 <= i < |log| ==> log[i].createdAt <= now }

  lemma LatestIs(log: seq<LimitRow>, p: Player, t: LimitType, now: int)
    ensures var n := Latest(log, p, t, now);
      && (n > 0 ==> Matches(log[n - 1], p, t) && log[n - 1].effectiveAt <= now)
      && forall i :: n <= i < |log| && Matches(log[i], p, t) ==> log[i].effectiveAt > now
    decreases |log|
  {
    if log != [] { LatestIs(log[..|log| - 1], p, t, now); }
  }

  lemma AppendFair(users: set<Player>, log: seq<LimitRow>, req: SetLimitRequest, now: int)
    requires LogFair(log) && CreatedBy(log, now)
    ensures LogFair(Appended(users, log, req, now)) && CreatedBy(Appended(users, log, req, now), now)
  {
    var log' := Appended(users, log, req, now);
    if log' != log {
      var r := RowFor(log, req, now);
      LatestIs(log, req.player, req.limitType, now);
      var current := LatestEffectiveLimit(log, req.player, req.limitType, now);
      if current.Some? { assert CheckShape(log[Latest(log, req.player, req.limitType, now) - 1]); }
      assert RowFair(log, r);
      forall i | 0 <= i < |log'| ensures RowFair(log'[..i], log'[i]) {
        assert log'[..i] == log[..i];
        if i == |log| { assert log[..i] == log; }
      }
    }
  }

  lemma {:induction false} HistoryFair(users: set<Player>, calls: seq<Call>)
    requires InOrder(calls)
    ensures LogFair(History(users, calls))
    ensures calls != [] ==> CreatedBy(History(users, calls), calls[|calls| - 1].at)
  {
    if calls != [] {
      var n := |calls| - 1;
      HistoryFair(users, calls[..n]);
      AppendFair(users, History(users, calls[..n]), calls[n].req, calls[n].at);
    }
  }

  // --------------------------------------------------------------------------
  // Limits loosen only after the delay
  // --------------------------------------------------------------------------

  /** A row requested a full delay before it took effect, allowing at least `bound`. */
  predicate Earned(r: LimitRow, p: Player, t: LimitType, t0: int, t1: int, bound: Option<Money>) {
    && Matches(r, p, t) && t0 < r.effectiveAt <= t1 && r.createdAt == r.effectiveAt - DELAY
    && AtMost(bound, if r.active then r.amount else None)
  }

  lemma {:induction false} LatestFrame(log: seq<LimitRow>, n: nat, p: Player, t: LimitType, now: int)
    requires NotYet(log, n, p, t, now)
    ensures Latest(log, p, t, now) == Latest(log[..n], p, t, now)
    decreases |log|
  {
    if n < |log| {
      var init := log[..|log| - 1];
      assert init[..n] == log[..n];
      LatestFrame(init, n, p, t, now);
    } else {
      assert log[..n] == log;
    }
  }

  lemma GoverningFrame(log: seq<LimitRow>, n: nat, p: Player, t: LimitType, now: int)
    requires NotYet(log, n, p, t, now)
    ensures Governing(log, p, t, now) == Governing(log[..n], p, t, now)
  {
    LatestFrame(log, n, p, t, now);
    LatestIs(log[..n], p, t, now);
  }

  lemma FairPrefix(log: seq<LimitRow>, k: nat)
    requires LogFair(log) && k <= |log|
    ensures LogFair(log[..k])
  {
    forall i | 0 <= i < k ensures RowFair(log[..k][..i], log[..k][i]) { assert log[..k][..i] == log[..i]; }
  }

  /** Rows are logged in the order they were created, and take effect no earlier. */
  lemma CreatedInOrder(log: seq<LimitRow>, k: nat, i: nat)
    requires LogFair(log) && k <= i < |log|
    ensures log[k].createdAt <= log[i].createdAt <= log[i].effectiveAt
  {
    assert RowFair(log[..i], log[i]);
    if k < i { assert log[..i][k] == log[k]; }
  }

  ghost predicate NotYet(log: seq<LimitRow>, k: nat, p: Player, t: LimitType, now: int) {
    k <= |log| && forall i :: k <= i < |log| && Matches(log[i], p, t) ==> log[i].effectiveAt > now
  }

  /** Rows from position k on were not in effect before row k was created. */
  lemma BeforeRow(log: seq<LimitRow>, k: nat, p: Player, t: LimitType, t0: int)
    requires LogFair(log) && k < |log| && t0 < log[k].createdAt
    ensures NotYet(log, k, p, t, t0)
  {
    forall i | k <= i < |log| ensures log[i].effectiveAt > t0 { CreatedInOrder(log, k, i); }
  }

  /** The row in force at t1 took effect after t0 when the governing amounts differ. */
  lemma TakenOverSince(log: seq<LimitRow>, p: Player, t: LimitType, t0: int, t1: int)
    requires t0 < t1 && Below(Governing(log, p, t, t0), Governing(log, p, t, t1))
    ensures var n := Latest(log, p, t, t1); n > 0 && Matches(log[n - 1], p, t) && t0 < log[n - 1].effectiveAt <= t1
  {
    LatestIs(log, p, t, t0);
    LatestIs(log, p, t, t1);
  }

  /** However a fair history runs, the governing amount is higher at t1 than at t0 only if some
      row allowing at least as much was requested exactly the delay before it took effect in
      between. */
  lemma {:induction false} LoosensOnlyAfterDelay(log: seq<LimitRow>, p: Player, t: LimitType, t0: int, t1: int)
    requires LogFair(log) && !t.IsExclusion() && t0 < t1
    requires Below(Governing(log, p, t, t0), Governing(log, p, t, t1))
    ensures exists i :: 0 <= i < |log| && Earned(log[i], p, t, t0, t1, Governing(log, p, t, t1))
    decreases |log|
  {
    TakenOverSince(log, p, t, t0, t1);
    var k := Latest(log, p, t, t1) - 1;
    var r, before := log[k], log[..k];
    assert RowFair(before, r);
    var bound := Governing(log, p, t, t1);
    if r.effectiveAt == r.createdAt + DELAY {
      assert Earned(r, p, t, t0, t1, bound);
    } else {
      BeforeRow(log, k, p, t, t0);
      GoverningFrame(log, k, p, t, t0);
      FairPrefix(log, k);
      LoosensOnlyAfterDelay(before, p, t, t0, r.createdAt);
      var i :| 0 <= i < |before| && Earned(before[i], p, t, t0, r.createdAt, Governing(before, p, t, r.createdAt));
      assert Earned(log[i], p, t, t0, t1, bound);
    }
  }

  /** Over every serialised history of SetLimit calls. */
  lemma HistoryLoosensOnlyAfterDelay(users: set<Player>, calls: seq<Call>, p: Player, t: LimitType, t0: int, t1: int)
    requires InOrder(calls) && !t.IsExclusion() && t0 < t1
    requires var log := History(users, calls); Below(Governing(log, p, t, t0), Governing(log, p, t, t1))
    ensures var log := History(users, calls);
      exists i :: 0 <= i < |log| && Earned(log[i], p, t, t0, t1, Governing(log, p, t, t1))
  {
    HistoryFair(users, calls);
    LoosensOnlyAfterDelay(History(users, calls), p, t, t0, t1);
  }

  /** A later row that has taken effect shuts out every earlier one for good: an immediate
      decrease cancels the increases still pending before it. */
  lemma {:induction false} LaterDecreaseWins(log: seq<LimitRow>, i: nat, j: nat, now: int)
    requires i < j < |log| && Matches(log[j], log[i].player, log[i].limitType) && log[j].effectiveAt <= now
    ensures Latest(log, log[i].player, log[i].limitType, now) > j
    ensures forall later :: later >= now ==> Latest(log, log[i].player, log[i].limitType, later) != i + 1
  {
    LatestIs(log, log[i].player, log[i].limitType, now);
    forall later | later >= now ensures Latest(log, log[i].player, log[i].limitType, later) != i + 1 {
      LatestIs(log, log[i].player, log[i].limitType, later);
    }
  }

  /** A windowed limit can never be removed: the row a removal writes violates the table's period
      constraint, so the request fails and the log does not change. */
  lemma RemovalAlwaysFails(users: set<Player>, log: seq<LimitRow>, req: SetLimitRequest, now: int)
    requires !req.active && !req.limitType.IsExclusion()
    ensures Decide(users, log, req, now).Err? && Appended(users, log, req, now) == log
  {
  }

  predicate WindowedActive(r: LimitRow) { !r.limitType.IsExclusion() ==> r.active }

  lemma {:induction false} HistoryWindowedActive(users: set<Player>, calls: seq<Call>)
    ensures forall i :: 0 <= i < |History(users, calls)| ==> WindowedActive(History(users, calls)[i])
  {
    if calls != [] {
      var n := |calls| - 1;
      HistoryWindowedActive(users, calls[..n]);
      var before, c := History(users, calls[..n]), calls[n];
      var log := History(users, calls);
      assert log == Appended(users, before, c.req, c.at);
      if !c.req.active && !c.req.limitType.IsExclusion() { RemovalAlwaysFails(users, before, c.req, c.at); }
      if log != before { assert log == before + [RowFor(before, c.req, c.at)]; }
    }
  }

  /** So once a limit governs it always governs, at some amount. */
  lemma {:induction false} OnceLimitedAlwaysLimited(users: set<Player>, calls: seq<Call>, p: Player, t: LimitType, t0: int, t1: int)
    requires InOrder(calls) && !t.IsExclusion() && t0 <= t1 && Governing(History(users, calls), p, t, t0).Some?
    ensures Governing(History(users, calls), p, t, t1).Some?
  {
    var log := History(users, calls);
    HistoryFair(users, calls);
    HistoryWindowedActive(users, calls);
    LatestGrows(log, p, t, t0, t1);
    GovernsWith(log, p, t, t1, Latest(log, p, t, t1) - 1);
  }

  lemma LatestGrows(log: seq<LimitRow>, p: Player, t: LimitType, t0: int, t1: int)
    requires t0 <= t1
    ensures Latest(log, p, t, t0) <= Latest(log, p, t, t1)
  {
    LatestIs(log, p, t, t0);
    LatestIs(log, p, t, t1);
  }

  lemma GovernsWith(log: seq<LimitRow>, p: Player, t: LimitType, now: int, k: nat)
    requires LogFair(log) && k < |log| && k + 1 == Latest(log, p, t, now) && !t.IsExclusion() && WindowedActive(log[k])
    ensures Governing(log, p, t, now).Some?
  {
    LatestIs(log, p, t, now);
    assert RowFair(log[..k], log[k]);
  }

  /** The delay looks at the amount alone: exactly when the new amount is at most the governing
      one does a change bite at once, whatever the two periods are.  A limit of 100 a month may
      so become 100 a day immediately. */
  lemma PeriodIsIgnored(log: seq<LimitRow>, req: SetLimitRequest, now: int, other: Option<Period>)
    requires !req.limitType.IsExclusion() && req.active && req.amount.Some?
    ensures EffectiveAt(log, req, now) == now <==> AtMost(req.amount, Governing(log, req.player, req.limitType, now))
    ensures EffectiveAt(log, req.(period := other), now) == EffectiveAt(log, req, now)
    ensures var monthly := LimitRow(1, LossLimit, Some(Month), true, Some(100), None, 0, "a", 0);
      EffectiveAt([monthly], SetLimitRequest(1, LossLimit, true, Some(Day), Some(100), None, "b"), 1) == 1
  {
  }

  // --------------------------------------------------------------------------
  // Exclusions
  // --------------------------------------------------------------------------

  /** One past the newest row of the type, effective or not. */
  function Newest(log: seq<LimitRow>, p: Player, t: LimitType): (n: nat)
    ensures n <= |log|
  {
    if log == [] then 0
    else if Matches(log[|log| - 1], p, t) then |log| else Newest(log[..|log| - 1], p, t)
  }

  /** The guard's reading of one exclusion type: the newest row decides, until it ends. */
  predicate Excluded(log: seq<LimitRow>, p: Player, t: LimitType, now: int) {
    var n := Newest(log, p, t);
    n > 0 && log[n - 1].endsAt.Some? && log[n - 1].endsAt.value > now
  }

  lemma NewestIs(log: seq<LimitRow>, p: Player, t: LimitType)
    ensures var n := Newest(log, p, t);
      (n > 0 ==> Matches(log[n - 1], p, t)) && forall i :: n <= i < |log| ==> !Matches(log[i], p, t)
    decreases |log|
  {
    if log != [] { NewestIs(log[..|log| - 1], p, t); }
  }

  lemma NewestIsLatest(log: seq<LimitRow>, p: Player, t: LimitType, now: int)
    requires t.IsExclusion() && LogFair(log) && CreatedBy(log, now)
    ensures Newest(log, p, t) == Latest(log, p, t, now)
  {
    NewestIs(log, p, t);
    LatestIs(log, p, t, now);
    forall i | 0 <= i < |log| && Matches(log[i], p, t) ensures log[i].effectiveAt <= now { assert RowFair(log[..i], log[i]); }
  }

  /** The newest row after a request is its own row when it is of this type. */
  lemma NewestAfter(users: set<Player>, log: seq<LimitRow>, req: SetLimitRequest, now: int, p: Player, t: LimitType)
    ensures var log' := Appended(users, log, req, now);
      Newest(log', p, t) == if log' != log && req.player == p && req.limitType == t then |log'| else Newest(log, p, t)
  {
    var log' := Appended(users, log, req, now);
    if log' != log {
      var r := RowFor(log, req, now);
      assert log' == log + [r] && log'[..|log|] == log;
    }
  }

  /** A lift is refused for as long as the exclusion runs. */
  lemma LiftWaits(users: set<Player>, log: seq<LimitRow>, req: SetLimitRequest, now: int)
    requires req.limitType.IsExclusion() && !req.active && LogFair(log) && CreatedBy(log, now)
    requires Excluded(log, req.player, req.limitType, now)
    ensures Decide(users, log, req, now).Err? && Appended(users, log, req, now) == log
  {
    var n := Newest(log, req.player, req.limitType);
    NewestIsLatest(log, req.player, req.limitType, now);
    NewestIs(log, req.player, req.limitType);
    assert RowFair(log[..n - 1], log[n - 1]);
  }

  predicate EndsBy(req: SetLimitRequest, p: Player, t: LimitType, later: int) {
    req.player == p && req.limitType == t && req.active && req.endsAt.Some? && req.endsAt.value <= later
  }

  /** A request ends a running exclusion of its type only by being an active one that ends by
      then; a lift is refused for as long as the exclusion runs. */
  lemma {:induction false} ExclusionStands(users: set<Player>, log: seq<LimitRow>, req: SetLimitRequest, now: int, p: Player, t: LimitType, later: int)
    requires t.IsExclusion() && LogFair(log) && CreatedBy(log, now) && now <= later && Excluded(log, p, t, later)
    ensures var log' := Appended(users, log, req, now);
      Excluded(log', p, t, later) <==> !(log' != log && EndsBy(req, p, t, later))
    ensures req.player == p && req.limitType == t && !req.active ==> Decide(users, log, req, now).Err?
  {
    NewestAfter(users, log, req, now, p, t);
    if req.player == p && req.limitType == t && !req.active { LiftWaits(users, log, req, now); }
  }

  // --------------------------------------------------------------------------
  // Replays
  // --------------------------------------------------------------------------

  /** A redelivered event returns the row it produced the first time and changes nothing. */
  lemma {:induction false} ReplayReturnsRecorded(users: set<Player>, log: seq<LimitRow>, req: SetLimitRequest, now: int, later: seq<LimitRow>, again: int)
    requires Decide(users, log, req, now).Ok? && FindEvent(log, req.eventId) == |log|
    requires Appended(users, log, req, now) <= later && Decide(users, later, req, again).Ok?
    ensures Decide(users, later, req, again) == Decide(users, log, req, now)
    ensures Appended(users, later, req, again) == later
  {
    assert Appended(users, log, req, now) == log + [RowFor(log, req, now)];
    FindsSame(log, RowFor(log, req, now), later);
  }

  /** The first row of an event stays the first in every longer log. */
  lemma FindsSame(log: seq<LimitRow>, r: LimitRow, later: seq<LimitRow>)
    requires log + [r] <= later && FindEvent(log, r.eventId) == |log|
    ensures FindEvent(later, r.eventId) == |log| && later[|log|] == r
  {
    assert later[..|log| + 1] == log + [r];
    forall i | 0 <= i < |log| ensures later[i] == log[i] { assert (log + [r])[i] == log[i]; }
    assert later[|log|] == (log + [r])[|log|];
  }
}
