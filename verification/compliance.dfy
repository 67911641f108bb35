/** Responsible-gaming exclusions over the engine's own ledger: requests and SetLimit calls in any
    order, with the exclusion guard reading the log. */
module Compliance {
  import opened Domain
  import opened Ledger
  import opened LedgerFacts
  import opened ProtocolSafety
  import opened Engine
  import opened Limits
  import opened LimitRequests
  import opened Requests
  import Game

  /** When a ledger row was written, and how much of the limit log there was then. */
  datatype Mark = Mark(at: int, limits: nat)

  datatype Casino = Casino(users: set<Player>, db: Db, log: seq<LimitRow>, marks: seq<Mark>)

  /** A money request with the answers of the other guards and its draw, or a limit request. */
  datatype Event =
    | Ask(req: Request, answers: Guards, drawn: Game.Outcome, now: int)
    | Change(limit: SetLimitRequest, now: int)

  /** The guard's reading of the log: an exclusion or a cool-off stands. */
  predicate Barred(log: seq<LimitRow>, p: Player, now: int) {
    Excluded(log, p, SelfExclusion, now) || Excluded(log, p, CoolOff, now)
  }

  function Guarded(s: Casino, e: Event): Guards
    requires e.Ask?
  {
    e.answers.(excluded := Barred(s.log, e.req.player, e.now))
  }

  ghost function VerdictOn(s: Casino, e: Event): Verdict
    requires e.Ask?
  {
    Judge(s.db, e.req, Guarded(s, e), e.drawn)
  }

  function Marks(n: nat, m: Mark): (r: seq<Mark>)
    ensures |r| == n && forall i :: 0 <= i < n ==> r[i] == m
  {
    if n == 0 then [] else Marks(n - 1, m) + [m]
  }

  ghost function Next(s: Casino, e: Event): Casino {
    match e
    case Change(limit, now) => s.(log := Appended(s.users, s.log, limit, now))
    case Ask(req, _, _, now) =>
      var verdict := VerdictOn(s, e);
      if !verdict.Settles? then s
      else
        Casino(s.users, ApplyLegs(s.db, req.player, verdict.legs), s.log, s.marks + Marks(|verdict.legs|, Mark(now, |s.log|)))
  }

  ghost function After(s: Casino, events: seq<Event>): Casino
    decreases |events|
  {
    if events == [] then s else Next(After(s, events[..|events| - 1]), events[|events| - 1])
  }

  // --------------------------------------------------------------------------
  // Nothing is staked, bought or granted while an exclusion stands
  // --------------------------------------------------------------------------

  /** What an exclusion stops. */
  predicate Stopped(kind: Kind) { kind == Bet || kind == Deposit || kind == PromoCredit }

  /** No row from position n on was written against an exclusion standing at the time. */
  ghost predicate Clear(s: Casino, n: nat) {
    && |s.marks| == |s.db.rows| && n <= |s.db.rows|
    && forall i :: n <= i < |s.db.rows| ==>
         s.marks[i].limits <= |s.log|
         && (Stopped(s.db.rows[i].kind) ==> !Barred(s.log[..s.marks[i].limits], s.db.rows[i].player, s.marks[i].at))
  }

  /** The rows a settled request writes, none of them stopped when its player is barred. */
  lemma SettledRows(s: Casino, e: Event)
    requires e.Ask? && VerdictOn(s, e).Settles?
    ensures s.db.rows <= Next(s, e).db.rows
    ensures var extra := Next(s, e).db.rows[|s.db.rows|..];
      && |extra| == |VerdictOn(s, e).legs|
      && (forall i :: 0 <= i < |extra| ==> extra[i].player == e.req.player)
      && (Barred(s.log, e.req.player, e.now) ==> forall i :: 0 <= i < |extra| ==> !Stopped(extra[i].kind))
  {
    var legs := VerdictOn(s, e).legs;
    ApplyLegsRows(s.db, e.req.player, legs);
    NewRowsShape(s.db.rows, e.req.player, legs);
    PlanShape(s.db.rows, s.db.wallets[e.req.player], e.req, Guarded(s, e), e.drawn);
    GuardsDecideExactly(s.db.rows, s.db.wallets[e.req.player], e.req, Guarded(s, e), e.drawn);
    assert Next(s, e).db.rows[|s.db.rows|..] == NewRows(s.db.rows, e.req.player, legs);
  }

  lemma NextClear(s: Casino, e: Event, n: nat)
    requires Clear(s, n)
    ensures Clear(Next(s, e), n)
  {
    var t := Next(s, e);
    match e
    case Change(limit, now) =>
      forall i | n <= i < |s.db.rows| ensures t.log[..s.marks[i].limits] == s.log[..s.marks[i].limits] { }
    case Ask(req, _, _, now) =>
      if VerdictOn(s, e).Settles? {
        SettledRows(s, e);
        assert s.log[..|s.log|] == s.log;
        forall i | n <= i < |t.db.rows|
          ensures t.marks[i].limits <= |t.log|
          ensures Stopped(t.db.rows[i].kind) ==> !Barred(t.log[..t.marks[i].limits], t.db.rows[i].player, t.marks[i].at)
        {
          if i >= |s.db.rows| { assert t.db.rows[i] == t.db.rows[|s.db.rows|..][i - |s.db.rows|]; } else { assert t.db.rows[i] == s.db.rows[i]; }
        }
      }
  }

  /** Over every sequence of money requests of every kind and limit requests, by any players: no BET,
      spin, DEPOSIT or PROMO_CREDIT row is written while an exclusion or a cool-off of its player
      stands in the log. */
  lemma {:induction false} NothingWhileBarred(s: Casino, events: seq<Event>, i: nat)
    requires |s.marks| == |s.db.rows| && |s.db.rows| <= i < |After(s, events).db.rows|
    ensures var t := After(s, events);
      && |t.marks| == |t.db.rows| && t.marks[i].limits <= |t.log|
      && (Stopped(t.db.rows[i].kind) ==> !Barred(t.log[..t.marks[i].limits], t.db.rows[i].player, t.marks[i].at))
  {
    RunClear(s, events, |s.db.rows|);
  }

  lemma {:induction false} RunClear(s: Casino, events: seq<Event>, n: nat)
    requires Clear(s, n)
    ensures Clear(After(s, events), n)
    decreases |events|
  {
    if events != [] {
      RunClear(s, events[..|events| - 1], n);
      NextClear(After(s, events[..|events| - 1]), events[|events| - 1], n);
    }
  }

  // --------------------------------------------------------------------------
  // From one exclusion to its end
  // --------------------------------------------------------------------------

  /** Every event happens before `end`, and no recorded limit request of that player and type asks for
      an earlier end. */
  predicate Undisturbed(events: seq<Event>, since: int, end: int, p: Player, t: LimitType) {
    && (forall i :: 0 <= i < |events| ==> since <= events[i].now < end)
    && (forall i, j :: 0 <= i <= j < |events| ==> events[i].now <= events[j].now)
    && (forall i :: 0 <= i < |events| && events[i].Change? ==> KeepsUntil(events[i].limit, end, p, t))
  }

  predicate KeepsUntil(req: SetLimitRequest, end: int, p: Player, t: LimitType) {
    req.player == p && req.limitType == t && req.active ==> req.endsAt.Some? && req.endsAt.value >= end
  }

  /** The exclusion stands from now until its end. */
  ghost predicate StandsUntil(log: seq<LimitRow>, p: Player, t: LimitType, now: int, end: int) {
    LogFair(log) && CreatedBy(log, now) && forall u :: now <= u < end ==> Excluded(log, p, t, u)
  }

  lemma StillStands(users: set<Player>, log: seq<LimitRow>, req: SetLimitRequest, before: int, now: int, end: int, p: Player, t: LimitType)
    requires t.IsExclusion() && StandsUntil(log, p, t, before, end) && before <= now < end && KeepsUntil(req, end, p, t)
    ensures StandsUntil(Appended(users, log, req, now), p, t, now, end)
  {
    AppendFair(users, log, req, now);
    forall u | now <= u < end ensures Excluded(Appended(users, log, req, now), p, t, u) {
      ExclusionStands(users, log, req, now, p, t, u);
    }
  }

  /** The player's rows since position n are all wins, redemptions and reversals. */
  ghost predicate OnlyReturns(s: Casino, p: Player, n: nat) {
    n <= |s.db.rows| && forall i :: n <= i < |s.db.rows| && s.db.rows[i].player == p ==> !Stopped(s.db.rows[i].kind)
  }

  lemma NextReturns(s: Casino, e: Event, p: Player, n: nat)
    requires OnlyReturns(s, p, n) && (e.Ask? && e.req.player == p ==> Barred(s.log, p, e.now))
    ensures OnlyReturns(Next(s, e), p, n)
  {
    if e.Ask? && VerdictOn(s, e).Settles? {
      SettledRows(s, e);
      var t := Next(s, e);
      forall i | n <= i < |t.db.rows| && t.db.rows[i].player == p ensures !Stopped(t.db.rows[i].kind) {
        if i >= |s.db.rows| { assert t.db.rows[i] == t.db.rows[|s.db.rows|..][i - |s.db.rows|]; } else { assert t.db.rows[i] == s.db.rows[i]; }
      }
    }
  }

  function LastOf(events: seq<Event>, since: int): int { if events == [] then since else events[|events| - 1].now }

  lemma {:induction false} ReturnsUntilEnd(s: Casino, events: seq<Event>, p: Player, t: LimitType, since: int, end: int)
    requires t.IsExclusion() && StandsUntil(s.log, p, t, since, end) && Undisturbed(events, since, end, p, t)
    ensures StandsUntil(After(s, events).log, p, t, LastOf(events, since), end)
    ensures OnlyReturns(After(s, events), p, |s.db.rows|)
    decreases |events|
  {
    if events != [] {
      var n := |events| - 1;
      var before, e := After(s, events[..n]), events[n];
      ReturnsUntilEnd(s, events[..n], p, t, since, end);
      assert LastOf(events[..n], since) <= e.now < end;
      NextReturns(before, e, p, |s.db.rows|);
      if e.Change? { StillStands(before.users, before.log, e.limit, LastOf(events[..n], since), e.now, end, p, t); }
    }
  }

  /** Once a player's exclusion ending at E is recorded, whatever requests follow before E, and as long
      as no other exclusion of that type asked for an earlier end, the ledger takes no stake, purchase
      or grant of that player. */
  lemma NoStakeUntilEnd(s: Casino, ask: SetLimitRequest, now: int, end: int, events: seq<Event>)
    requires LogFair(s.log) && CreatedBy(s.log, now) && ask.limitType.IsExclusion() && ask.active && ask.endsAt == Some(end)
    requires Records(s.log, Appended(s.users, s.log, ask, now)) && Undisturbed(events, now, end, ask.player, ask.limitType)
    ensures var after := After(Next(s, Change(ask, now)), events);
      |s.db.rows| <= |after.db.rows|
      && forall i :: |s.db.rows| <= i < |after.db.rows| && after.db.rows[i].player == ask.player ==> !Stopped(after.db.rows[i].kind)
  {
    var s1 := Next(s, Change(ask, now));
    AppendFair(s.users, s.log, ask, now);
    forall u | now <= u < end ensures Excluded(s1.log, ask.player, ask.limitType, u) {
      ExclusionBites(s.users, s.log, ask, now, u);
    }
    ReturnsUntilEnd(s1, events, ask.player, ask.limitType, now, end);
  }

  /** What an exclusion does not stop: a win, a redemption and a reversal settle on their own terms,
      whatever the limit log holds. */
  lemma ReturnsSettleExactly(s: Casino, e: Event)
    requires e.Ask? && DbOk(s.db) && e.req.player in s.db.wallets && (e.req.body.WinBody? || e.req.body.RollbackBody? || e.req.body.RedeemBody?)
    ensures VerdictOn(s, e).Settles? <==>
      && Key(e.req.op, e.req.tx) !in s.db.dedup
      && match e.req.body
         case WinBody(family, amount, _) => e.answers.active && family != FamilyUnknown && amount > 0
         case RedeemBody(amount) => e.answers.active && 0 < amount <= s.db.wallets[e.req.player].scRedeemable
         case RollbackBody(reference) =>
           && reference.Some? && reference.value < |s.db.rows| && s.db.rows[reference.value].player == e.req.player
           && s.db.rows[reference.value].kind == Bet && !RollbackExists(s.db.rows, reference.value, Key(e.req.op, e.req.tx))
         case _ => false
  {
    var rows, snap, g := s.db.rows, s.db.wallets[e.req.player], Guarded(s, e);
    GuardsDecideExactly(rows, snap, e.req, g, e.drawn);
    match e.req.body
    case WinBody(_, _, _) => WinExactly(rows, snap, e.req, e.drawn);
    case RedeemBody(_) => RedeemExactly(rows, snap, e.req, e.drawn);
    case RollbackBody(reference) => if reference.Some? { RollbackExactly(rows, snap, e.req, e.drawn, reference.value); }
    var plan := Plan(rows, snap, e.req, g, e.drawn);
    if plan.Ok? {
      assert plan.value == [plan.value[0]] && plan.value[0].key == Key(e.req.op, e.req.tx);
      OneLegVerdict(s.db, e.req, g, e.drawn, plan.value[0]);
    }
  }
}
