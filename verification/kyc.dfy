/** Identity decisions arriving in any order and any number of times. */
module Kyc {
  import opened Domain

  datatype Status = PendingKyc | Active | Suspended | Closed

  /** A row of users: `verifiedAt` is the newest applied VERIFIED decision. */
  datatype User = User(player: nat, status: Status, verifiedAt: Option<int>)

  datatype Decision = Verified | Rejected | Unrecognised(text: string)

  datatype Delivery = Delivery(externalId: string, eventId: string, decision: Decision, decidedAt: Option<int>, reason: string)

  /** An audit row. */
  datatype Audit = Audit(player: nat, delivery: Delivery, applied: bool)

  datatype Outcome = Outcome(player: nat, eventId: string, decision: Decision, applied: bool, reason: string)

  datatype Store = Store(users: map<string, User>, log: seq<Audit>)

  function ValidateDecision(d: Delivery): Option<Error> {
    if d.externalId == "" || d.eventId == "" || d.decision.Unrecognised? || d.decidedAt.None? then Some(InvalidAmount) else None
  }

  /** Position of the audit row of an event, or the length. */
  function FindEvent(log: seq<Audit>, eventId: string): (n: nat)
    ensures n <= |log| && (n < |log| ==> log[n].delivery.eventId == eventId)
    ensures forall i :: 0 <= i < n ==> log[i].delivery.eventId != eventId
  {
    if log == [] then 0 else if log[0].delivery.eventId == eventId then 0 else 1 + FindEvent(log[1..], eventId)
  }

  function Recorded(a: Audit): Outcome {
    Outcome(a.player, a.delivery.eventId, a.delivery.decision, a.applied, a.delivery.reason)
  }

  predicate Newer(at: int, than: Option<int>) { than.None? || at > than.value }

  function Applies(u: User, d: Delivery): bool {
    d.decision == Verified && d.decidedAt.Some? && Newer(d.decidedAt.value, u.verifiedAt)
  }

  function Deliver(s: Store, d: Delivery): (Store, Result<Outcome>) {
    if ValidateDecision(d).Some? then (s, Err(InvalidAmount))
    else if d.externalId !in s.users then (s, Err(PlayerNotFound))
    else
      var n := FindEvent(s.log, d.eventId);
      if n < |s.log| then (s, Ok(Recorded(s.log[n])))
      else
        var u := s.users[d.externalId];
        var a := Audit(u.player, d, Applies(u, d));
        var users := if a.applied then s.users[d.externalId := u.(status := Active, verifiedAt := d.decidedAt)] else s.users;
        (Store(users, s.log + [a]), Ok(Recorded(a)))
  }

  class KycEngine {
    var users: map<string, User>
    var log: seq<Audit>

    constructor (users: map<string, User>)
      ensures Contents() == Store(users, [])
    {
      this.users, log := users, [];
    }

    function Contents(): Store reads this { Store(users, log) }

    method RecordDecision(d: Delivery) returns (r: Result<Outcome>)
      modifies this
      ensures (Contents(), r) == Deliver(old(Contents()), d)
    {
      var invalid := ValidateDecision(d);
      if invalid.Some? { return Err(invalid.value); }
      if d.externalId !in users { return Err(PlayerNotFound); }
      var u := users[d.externalId];
      var applied := d.decision == Verified && (u.verifiedAt.None? || d.decidedAt.value > u.verifiedAt.value);
      var n := FindEvent(log, d.eventId);
      if n < |log| {
        return Ok(Recorded(log[n]));
      }
      log := log + [Audit(u.player, d, applied)];
      if applied {
        users := users[d.externalId := u.(status := Active, verifiedAt := d.decidedAt)];
      }
      r := Ok(Outcome(u.player, d.eventId, d.decision, applied, d.reason));
    }
  }

  predicate NewEvent(log: seq<Audit>, eventId: string) { forall i :: 0 <= i < |log| ==> log[i].delivery.eventId != eventId }

  /** A delivery is answered exactly when it names a known player, an event, a recognised decision and
      its time.  A new one leaves one audit row, marked as applied exactly when it moved the user, and
      only a VERIFIED decision newer than the last moves one: to ACTIVE, at its own time. */
  lemma DeliveredExactly(s: Store, d: Delivery)
    ensures var (s', r) := Deliver(s, d);
      && (r.Ok? <==> d.externalId in s.users && d.externalId != "" && d.eventId != "" && !d.decision.Unrecognised? && d.decidedAt.Some?)
      && (r.Err? ==> s' == s && (r.error == PlayerNotFound <==>
            d.externalId !in s.users && d.externalId != "" && d.eventId != "" && !d.decision.Unrecognised? && d.decidedAt.Some?))
      && (!NewEvent(s.log, d.eventId) ==> s' == s)
      && (r.Ok? && NewEvent(s.log, d.eventId) ==>
            var u := s.users[d.externalId];
            var moves := d.decision.Verified? && (u.verifiedAt.Some? ==> d.decidedAt.value > u.verifiedAt.value);
            && (s'.users != s.users <==> moves)
            && s'.users == (if moves then s.users[d.externalId := User(u.player, Active, d.decidedAt)] else s.users)
            && s'.log == s.log + [Audit(u.player, d, moves)]
            && r.value == Outcome(u.player, d.eventId, d.decision, moves, d.reason))
  {
    var n := FindEvent(s.log, d.eventId);
    if n < |s.log| { assert s.log[n].delivery.eventId == d.eventId; }
    if d.externalId in s.users && d.decidedAt.Some? {
      var u := s.users[d.externalId];
      assert d.decidedAt != u.verifiedAt ==> s.users[d.externalId := User(u.player, Active, d.decidedAt)][d.externalId] != u;
    }
  }

  // --------------------------------------------------------------------------
  // Runs of deliveries
  // --------------------------------------------------------------------------

  function Run(s: Store, ds: seq<Delivery>): Store {
    if ds == [] then s else Deliver(Run(s, ds[..|ds| - 1]), ds[|ds| - 1]).0
  }

  /** A redelivery repeats its event: the event id fixes the content. */
  predicate EventsAgree(ds: seq<Delivery>) {
    forall i, j :: 0 <= i < |ds| && 0 <= j < |ds| && ds[i].eventId == ds[j].eventId ==> ds[i] == ds[j]
  }

  predicate CountsFor(d: Delivery, x: string) { ValidateDecision(d).None? && d.externalId == x && d.decision == Verified }

  /** The newest VERIFIED instant among a player's events, or the baseline. */
  function NewestOf(ds: seq<Delivery>, x: string, base: Option<int>): Option<int> {
    if ds == [] then base
    else
      var before := NewestOf(ds[..|ds| - 1], x, base);
      var d := ds[|ds| - 1];
      if CountsFor(d, x) && Newer(d.decidedAt.value, before) then d.decidedAt else before
  }

  predicate AtLeast(a: Option<int>, b: Option<int>) { b.None? || (a.Some? && a.value >= b.value) }

  lemma {:induction false} NewestIsMaximum(ds: seq<Delivery>, x: string, base: Option<int>)
    ensures var m := NewestOf(ds, x, base);
      && AtLeast(m, base)
      && (forall i :: 0 <= i < |ds| && CountsFor(ds[i], x) ==> AtLeast(m, ds[i].decidedAt))
      && (m == base || exists i :: 0 <= i < |ds| && CountsFor(ds[i], x) && m == ds[i].decidedAt)
  {
    if ds != [] {
      var n := |ds| - 1;
      NewestIsMaximum(ds[..n], x, base);
      var before := NewestOf(ds[..n], x, base);
      assert before != base ==> exists i :: 0 <= i < n && CountsFor(ds[..n][i], x) && before == ds[..n][i].decidedAt;
      assert forall i :: 0 <= i < n ==> ds[..n][i] == ds[i];
    }
  }

  /** What the store knows after the deliveries. */
  ghost predicate Tracks(s: Store, s0: Store, ds: seq<Delivery>) {
    && s.users.Keys == s0.users.Keys
    && (forall x :: x in s0.users ==> UserTracks(s.users[x], s0.users[x], NewestOf(ds, x, s0.users[x].verifiedAt)))
    && (forall i :: 0 <= i < |s.log| ==> ValidateDecision(s.log[i].delivery).None? && s.log[i].delivery in ds)
  }

  predicate UserTracks(u: User, u0: User, newest: Option<int>) {
    u.player == u0.player && u.verifiedAt == newest && u.status == if newest == u0.verifiedAt then u0.status else Active
  }

  lemma DuplicateChangesNothing(ds: seq<Delivery>, d: Delivery, x: string, base: Option<int>)
    requires d in ds
    ensures NewestOf(ds + [d], x, base) == NewestOf(ds, x, base)
  {
    NewestIsMaximum(ds, x, base);
    assert (ds + [d])[..|ds|] == ds;
  }

  /** A delivery of a new event. */
  lemma NewEventTracks(s: Store, s0: Store, ds: seq<Delivery>, d: Delivery)
    requires Tracks(s, s0, ds) && FindEvent(s.log, d.eventId) == |s.log|
    ensures Tracks(Deliver(s, d).0, s0, ds + [d])
  {
    var s' := Deliver(s, d).0;
    assert (ds + [d])[..|ds|] == ds;
    forall x | x in s0.users ensures UserTracks(s'.users[x], s0.users[x], NewestOf(ds + [d], x, s0.users[x].verifiedAt)) {
      NewestIsMaximum(ds, x, s0.users[x].verifiedAt);
    }
  }

  /** A redelivery. */
  lemma OldEventTracks(s: Store, s0: Store, ds: seq<Delivery>, d: Delivery)
    requires Tracks(s, s0, ds) && d in ds && Deliver(s, d).0 == s
    ensures Tracks(s, s0, ds + [d])
  {
    forall x | x in s0.users ensures UserTracks(s.users[x], s0.users[x], NewestOf(ds + [d], x, s0.users[x].verifiedAt)) {
      DuplicateChangesNothing(ds, d, x, s0.users[x].verifiedAt);
    }
  }

  lemma {:induction false} RunTracks(s0: Store, ds: seq<Delivery>)
    requires s0.log == [] && EventsAgree(ds)
    ensures Tracks(Run(s0, ds), s0, ds)
  {
    if ds != [] {
      var n := |ds| - 1;
      var d, init := ds[n], ds[..n];
      RunTracks(s0, init);
      var s := Run(s0, init);
      assert ds == init + [d];
      var at := FindEvent(s.log, d.eventId);
      if at < |s.log| {
        var k :| 0 <= k < n && init[k] == s.log[at].delivery;
        assert ds[k] == d && init[k] == d;
        OldEventTracks(s, s0, init, d);
      } else {
        NewEventTracks(s, s0, init, d);
      }
    }
  }

  /** Whatever order deliveries arrive in and however often, each player ends at the newest of
      its VERIFIED events, or at its baseline when none is newer. */
  lemma {:induction false} FinalIsNewestVerified(s0: Store, ds: seq<Delivery>, x: string)
    requires s0.log == [] && EventsAgree(ds) && x in s0.users
    ensures x in Run(s0, ds).users
    ensures var u, u0 := Run(s0, ds).users[x], s0.users[x];
      && AtLeast(u.verifiedAt, u0.verifiedAt)
      && (forall i :: 0 <= i < |ds| && CountsFor(ds[i], x) ==> AtLeast(u.verifiedAt, ds[i].decidedAt))
      && (u.verifiedAt == u0.verifiedAt || exists i :: 0 <= i < |ds| && CountsFor(ds[i], x) && u.verifiedAt == ds[i].decidedAt)
      && u.status == (if u.verifiedAt == u0.verifiedAt then u0.status else Active)
  {
    RunTracks(s0, ds);
    NewestIsMaximum(ds, x, s0.users[x].verifiedAt);
  }

  /** Two histories of the same set of events end in the same users. */
  lemma Confluent(s0: Store, ds: seq<Delivery>, es: seq<Delivery>)
    requires s0.log == [] && EventsAgree(ds) && EventsAgree(es)
    requires forall d :: d in ds <==> d in es
    ensures Run(s0, ds).users == Run(s0, es).users
  {
    RunTracks(s0, ds);
    RunTracks(s0, es);
    forall x | x in s0.users ensures Run(s0, ds).users[x] == Run(s0, es).users[x] {
      var base := s0.users[x].verifiedAt;
      SameEventsSameNewest(ds, es, x, base);
      assert UserTracks(Run(s0, ds).users[x], s0.users[x], NewestOf(ds, x, base));
      assert UserTracks(Run(s0, es).users[x], s0.users[x], NewestOf(es, x, base));
    }
  }

  lemma SameEventsSameNewest(ds: seq<Delivery>, es: seq<Delivery>, x: string, base: Option<int>)
    requires forall d :: d in ds <==> d in es
    ensures NewestOf(ds, x, base) == NewestOf(es, x, base)
  {
    OneWay(ds, es, x, base);
    OneWay(es, ds, x, base);
  }

  lemma OneWay(ds: seq<Delivery>, es: seq<Delivery>, x: string, base: Option<int>)
    requires forall d :: d in ds ==> d in es
    ensures AtLeast(NewestOf(es, x, base), NewestOf(ds, x, base))
  {
    NewestIsMaximum(ds, x, base);
    NewestIsMaximum(es, x, base);
    var m := NewestOf(ds, x, base);
    if m != base {
      var i :| 0 <= i < |ds| && CountsFor(ds[i], x) && m == ds[i].decidedAt;
      assert ds[i] in es;
    }
  }

  /** An event id reused for different content breaks this: whichever arrives first wins. */
  lemma ReusedEventIdIsOrderDependent(s0: Store)
    requires s0 == Store(map["p" := User(1, PendingKyc, None)], [])
    ensures var a, b := Delivery("p", "e", Verified, Some(1), ""), Delivery("p", "e", Verified, Some(2), "");
      && Run(s0, [a, b]).users == map["p" := User(1, Active, Some(1))]
      && Run(s0, [b, a]).users == map["p" := User(1, Active, Some(2))]
  {
    var a, b := Delivery("p", "e", Verified, Some(1), ""), Delivery("p", "e", Verified, Some(2), "");
    assert [a, b][..1] == [a] && [b, a][..1] == [b] && [a][..0] == [] && [b][..0] == [];
    assert Run(s0, [a]) == Deliver(s0, a).0 && Run(s0, [b]) == Deliver(s0, b).0;
  }

  // --------------------------------------------------------------------------
  // The audit trail
  // --------------------------------------------------------------------------

  predicate AppliedFor(a: Audit, x: string) { a.applied && a.delivery.externalId == x && a.delivery.decidedAt.Some? }

  ghost predicate TrailOk(s: Store) {
    && (forall i, j, x :: 0 <= i < j < |s.log| && AppliedFor(s.log[i], x) && AppliedFor(s.log[j], x) ==>
          s.log[i].delivery.decidedAt.value < s.log[j].delivery.decidedAt.value)
    && (forall i, x :: 0 <= i < |s.log| && AppliedFor(s.log[i], x) ==>
          x in s.users && AtLeast(s.users[x].verifiedAt, s.log[i].delivery.decidedAt))
  }

  /** Over every run the applied rows of a player have strictly increasing decision times. */
  lemma {:induction false} AppliedRowsIncrease(s0: Store, ds: seq<Delivery>)
    requires s0.log == []
    ensures TrailOk(Run(s0, ds))
  {
    if ds != [] { AppliedRowsIncrease(s0, ds[..|ds| - 1]); }
  }

  predicate OnePerEvent(log: seq<Audit>) {
    forall i, j :: 0 <= i < j < |log| ==> log[i].delivery.eventId != log[j].delivery.eventId
  }

  /** Every audited delivery was delivered. */
  predicate AllDelivered(log: seq<Audit>, ds: seq<Delivery>) {
    forall i :: 0 <= i < |log| ==> exists k :: 0 <= k < |ds| && ds[k] == log[i].delivery
  }

  /** Over every run the audit log holds at most one row per event, and only what was delivered. */
  lemma {:induction false} OneRowPerEvent(s0: Store, ds: seq<Delivery>)
    requires s0.log == []
    ensures OnePerEvent(Run(s0, ds).log) && AllDelivered(Run(s0, ds).log, ds)
  {
    if ds != [] {
      var n := |ds| - 1;
      OneRowPerEvent(s0, ds[..n]);
      RowAdded(Run(s0, ds[..n]), ds[..n], ds[n]);
      assert ds == ds[..n] + [ds[n]];
    }
  }

  lemma RowAdded(s: Store, ds: seq<Delivery>, d: Delivery)
    requires OnePerEvent(s.log) && AllDelivered(s.log, ds)
    ensures OnePerEvent(Deliver(s, d).0.log) && AllDelivered(Deliver(s, d).0.log, ds + [d])
  {
    DeliveredExactly(s, d);
    var log, all := Deliver(s, d).0.log, ds + [d];
    forall i | 0 <= i < |log| ensures exists k :: 0 <= k < |all| && all[k] == log[i].delivery {
      if i < |s.log| {
        var k :| 0 <= k < |ds| && ds[k] == s.log[i].delivery;
        assert all[k] == log[i].delivery;
      } else {
        assert all[|ds|] == log[i].delivery;
      }
    }
  }

  lemma {:induction false} LogGrows(s: Store, ds: seq<Delivery>)
    ensures s.log <= Run(s, ds).log && s.users.Keys == Run(s, ds).users.Keys
  {
    if ds != [] { LogGrows(s, ds[..|ds| - 1]); }
  }

  /** Once an event has been answered, every later delivery of it gets that answer and changes
      nothing. */
  lemma RedeliveryIsReplay(s: Store, d: Delivery, ds: seq<Delivery>)
    requires Deliver(s, d).1.Ok?
    ensures var later := Run(Deliver(s, d).0, ds); Deliver(later, d) == (later, Deliver(s, d).1)
  {
    var s1 := Deliver(s, d).0;
    LogGrows(s1, ds);
    var later := Run(s1, ds);
    var n := FindEvent(s1.log, d.eventId);
    assert n < |s1.log| by {
      if FindEvent(s.log, d.eventId) == |s.log| { assert s1.log[|s.log|].delivery == d; }
    }
    assert later.log[..|s1.log|] == s1.log;
    assert forall i :: 0 <= i <= n ==> later.log[i] == s1.log[i];
    assert FindEvent(later.log, d.eventId) == n;
  }
}
