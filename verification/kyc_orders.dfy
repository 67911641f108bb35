/** When the order of deliveries can not matter, even if event ids are reused for other content. */
module KycOrders {
  import opened Domain
  import opened Kyc

  predicate Acceptable(users: map<string, User>, d: Delivery) { ValidateDecision(d).None? && d.externalId in users }

  /** A VERIFIED decision of the player at that instant. */
  predicate TopFor(d: Delivery, x: string, at: Option<int>) { CountsFor(d, x) && d.decidedAt == at }

  /** Every order of the same deliveries ends in the same users. */
  ghost predicate OrderFree(s0: Store, ds: seq<Delivery>) {
    forall es :: multiset(es) == multiset(ds) ==> Run(s0, es).users == Run(s0, ds).users
  }

  /** The event id is used for that decision, and acceptably for nothing else. */
  ghost predicate Owns(users: map<string, User>, ds: seq<Delivery>, e: string, x: string, at: Option<int>) {
    && (exists d :: d in ds && d.eventId == e && TopFor(d, x, at))
    && (forall d :: d in ds && d.eventId == e && Acceptable(users, d) ==> TopFor(d, x, at))
  }

  /** Each player whose newest VERIFIED decision beats the baseline has an event id of its own for
      it. */
  ghost predicate NewestOwned(s0: Store, ds: seq<Delivery>) {
    forall x :: x in s0.users && NewestOf(ds, x, s0.users[x].verifiedAt) != s0.users[x].verifiedAt ==>
      exists e :: Owns(s0.users, ds, e, x, NewestOf(ds, x, s0.users[x].verifiedAt))
  }

  // --------------------------------------------------------------------------
  // What any run keeps
  // --------------------------------------------------------------------------

  /** A player's state between its baseline and the newest decision delivered. */
  predicate Bounded(u: User, u0: User, newest: Option<int>) {
    && u.player == u0.player && AtLeast(u.verifiedAt, u0.verifiedAt) && AtLeast(newest, u.verifiedAt)
    && u.status == if u.verifiedAt == u0.verifiedAt then u0.status else Active
  }

  /** Every acceptable delivery is on record. */
  ghost predicate AllFound(log: seq<Audit>, users: map<string, User>, ds: seq<Delivery>) {
    forall d :: d in ds && Acceptable(users, d) ==> FindEvent(log, d.eventId) < |log|
  }

  /** Nothing else is. */
  ghost predicate AllFrom(log: seq<Audit>, users: map<string, User>, ds: seq<Delivery>) {
    forall i :: 0 <= i < |log| ==> log[i].delivery in ds && Acceptable(users, log[i].delivery)
  }

  /** Every VERIFIED on record is reflected. */
  ghost predicate AllReflected(s: Store) {
    forall i, x :: 0 <= i < |s.log| && CountsFor(s.log[i].delivery, x) ==>
      x in s.users && AtLeast(s.users[x].verifiedAt, s.log[i].delivery.decidedAt)
  }

  ghost predicate Logged(s: Store, s0: Store, ds: seq<Delivery>) {
    s.users.Keys == s0.users.Keys && AllFound(s.log, s0.users, ds) && AllFrom(s.log, s0.users, ds) && AllReflected(s)
  }

  lemma FindStays(log: seq<Audit>, a: Audit, e: string)
    requires FindEvent(log, e) < |log| || a.delivery.eventId == e
    ensures FindEvent(log + [a], e) < |log| + 1
  {
    var all := log + [a];
    assert all[|log|] == a;
    if FindEvent(log, e) < |log| { assert all[FindEvent(log, e)] == log[FindEvent(log, e)]; }
  }

  lemma FoundSnoc(log: seq<Audit>, a: Audit, users: map<string, User>, ds: seq<Delivery>)
    requires AllFound(log, users, ds)
    ensures AllFound(log + [a], users, ds + [a.delivery])
  {
    forall d | d in ds + [a.delivery] && Acceptable(users, d) ensures FindEvent(log + [a], d.eventId) < |log| + 1 {
      FindStays(log, a, d.eventId);
    }
  }

  lemma {:induction false} RunLogged(s0: Store, ds: seq<Delivery>)
    requires s0.log == []
    ensures Logged(Run(s0, ds), s0, ds)
  {
    if ds != [] {
      var n := |ds| - 1;
      RunLogged(s0, ds[..n]);
      DeliverLogged(Run(s0, ds[..n]), s0, ds[..n], ds[n]);
      assert ds == ds[..n] + [ds[n]];
    }
  }

  lemma DeliverLogged(s: Store, s0: Store, ds: seq<Delivery>, d: Delivery)
    requires Logged(s, s0, ds)
    ensures Logged(Deliver(s, d).0, s0, ds + [d])
  {
    if Acceptable(s0.users, d) && FindEvent(s.log, d.eventId) == |s.log| {
      var a := Audit(s.users[d.externalId].player, d, Applies(s.users[d.externalId], d));
      assert Deliver(s, d).0.log == s.log + [a];
      FoundSnoc(s.log, a, s0.users, ds);
      DeliverReflects(s, d, a);
    }
  }

  lemma DeliverReflects(s: Store, d: Delivery, a: Audit)
    requires AllReflected(s) && Acceptable(s.users, d) && Deliver(s, d).0.log == s.log + [a]
    requires a == Audit(s.users[d.externalId].player, d, Applies(s.users[d.externalId], d)) && FindEvent(s.log, d.eventId) == |s.log|
    ensures AllReflected(Deliver(s, d).0)
  {
    var s' := Deliver(s, d).0;
    forall i, x | 0 <= i < |s'.log| && CountsFor(s'.log[i].delivery, x)
      ensures x in s'.users && AtLeast(s'.users[x].verifiedAt, s'.log[i].delivery.decidedAt)
    {
      if i < |s.log| { assert s'.log[i] == s.log[i]; }
    }
  }

  lemma {:induction false} RunBounded(s0: Store, ds: seq<Delivery>, x: string)
    requires s0.log == [] && x in s0.users
    ensures x in Run(s0, ds).users && Bounded(Run(s0, ds).users[x], s0.users[x], NewestOf(ds, x, s0.users[x].verifiedAt))
  {
    if ds != [] { RunBounded(s0, ds[..|ds| - 1], x); }
  }

  lemma SameMembers(ds: seq<Delivery>, es: seq<Delivery>)
    requires multiset(ds) == multiset(es)
    ensures forall d :: d in ds <==> d in es
  {
    forall d ensures d in ds <==> d in es {
      assert d in ds <==> d in multiset(ds);
      assert d in es <==> d in multiset(es);
    }
  }

  // --------------------------------------------------------------------------
  // Owned decisions always win
  // --------------------------------------------------------------------------

  lemma OwnedReached(s0: Store, ds: seq<Delivery>, es: seq<Delivery>, x: string)
    requires s0.log == [] && NewestOwned(s0, ds) && x in s0.users && multiset(es) == multiset(ds)
    ensures x in Run(s0, es).users && Bounded(Run(s0, es).users[x], s0.users[x], NewestOf(ds, x, s0.users[x].verifiedAt))
    ensures Run(s0, es).users[x].verifiedAt == NewestOf(ds, x, s0.users[x].verifiedAt)
  {
    var base := s0.users[x].verifiedAt;
    var newest := NewestOf(ds, x, base);
    SameMembers(ds, es);
    SameEventsSameNewest(ds, es, x, base);
    RunBounded(s0, es, x);
    RunLogged(s0, es);
    var s := Run(s0, es);
    if newest != base {
      var e :| Owns(s0.users, ds, e, x, newest);
      var d :| d in ds && d.eventId == e && TopFor(d, x, newest);
      assert Acceptable(s0.users, d) && d in es;
      var n := FindEvent(s.log, e);
      assert TopFor(s.log[n].delivery, x, newest);
      assert AtLeast(s.users[x].verifiedAt, newest);
    }
  }

  lemma OwnedIsOrderFree(s0: Store, ds: seq<Delivery>)
    requires s0.log == [] && NewestOwned(s0, ds)
    ensures OrderFree(s0, ds)
  {
    forall es | multiset(es) == multiset(ds) ensures Run(s0, es).users == Run(s0, ds).users {
      RunLogged(s0, es);
      RunLogged(s0, ds);
      forall x | x in s0.users ensures Run(s0, es).users[x] == Run(s0, ds).users[x] {
        OwnedReached(s0, ds, es, x);
        OwnedReached(s0, ds, ds, x);
      }
    }
  }

  // --------------------------------------------------------------------------
  // A decision without an id of its own can be lost
  // --------------------------------------------------------------------------

  function Pick(ds: seq<Delivery>, x: string, at: Option<int>, top: bool): seq<Delivery> {
    if ds == [] then []
    else
      Pick(ds[..|ds| - 1], x, at, top) + if TopFor(ds[|ds| - 1], x, at) == top then [ds[|ds| - 1]] else []
  }

  lemma {:induction false} PickHas(ds: seq<Delivery>, x: string, at: Option<int>, top: bool)
    ensures forall d :: d in Pick(ds, x, at, top) <==> d in ds && TopFor(d, x, at) == top
  {
    if ds != [] {
      var n := |ds| - 1;
      PickHas(ds[..n], x, at, top);
      assert ds == ds[..n] + [ds[n]];
    }
  }

  lemma {:induction false} PickSplits(ds: seq<Delivery>, x: string, at: Option<int>)
    ensures multiset(Pick(ds, x, at, false)) + multiset(Pick(ds, x, at, true)) == multiset(ds)
  {
    if ds != [] {
      var n := |ds| - 1;
      PickSplits(ds[..n], x, at);
      assert ds == ds[..n] + [ds[n]];
      var top := TopFor(ds[n], x, at);
      assert Pick(ds, x, at, top) == Pick(ds[..n], x, at, top) + [ds[n]];
      assert Pick(ds, x, at, !top) == Pick(ds[..n], x, at, !top) + [];
    }
  }

  lemma {:induction false} RunConcat(s: Store, first: seq<Delivery>, more: seq<Delivery>)
    ensures Run(s, first + more) == Run(Run(s, first), more)
    decreases |more|
  {
    if more == [] {
      assert first + more == first;
    } else {
      var n := |more| - 1;
      RunConcat(s, first, more[..n]);
      assert (first + more)[..|first| + n] == first + more[..n];
    }
  }

  ghost predicate AllKnown(log: seq<Audit>, ds: seq<Delivery>) {
    forall i :: 0 <= i < |ds| ==> FindEvent(log, ds[i].eventId) < |log|
  }

  /** Deliveries of events already on record change nothing. */
  lemma {:induction false} KnownChangeNothing(s: Store, more: seq<Delivery>)
    requires AllKnown(s.log, more)
    ensures Run(s, more) == s
    decreases |more|
  {
    if more != [] {
      var init, last := more[..|more| - 1], more[|more| - 1];
      KnownChangeNothing(s, init);
      assert Deliver(s, last).0 == s;
    }
  }

  /** An order of the deliveries that does, or does not, end at the player's newest decision. */
  ghost predicate Ends(s0: Store, ds: seq<Delivery>, es: seq<Delivery>, x: string, atNewest: bool)
    requires x in s0.users
  {
    && multiset(es) == multiset(ds) && x in Run(s0, es).users
    && (Run(s0, es).users[x].verifiedAt == NewestOf(ds, x, s0.users[x].verifiedAt)) == atNewest
  }

  /** Every id of the decision is on record once everything else has been delivered. */
  lemma TopsKnown(s0: Store, ds: seq<Delivery>, x: string, at: Option<int>)
    requires s0.log == [] && x in s0.users && forall e :: !Owns(s0.users, ds, e, x, at)
    ensures AllKnown(Run(s0, Pick(ds, x, at, false)).log, Pick(ds, x, at, true))
  {
    var others, tops := Pick(ds, x, at, false), Pick(ds, x, at, true);
    PickHas(ds, x, at, false);
    PickHas(ds, x, at, true);
    RunLogged(s0, others);
    var s := Run(s0, others);
    forall i | 0 <= i < |tops| ensures FindEvent(s.log, tops[i].eventId) < |s.log| {
      var d := tops[i];
      assert d in tops && !Owns(s0.users, ds, d.eventId, x, at);
      var c :| c in ds && c.eventId == d.eventId && Acceptable(s0.users, c) && !TopFor(c, x, at);
      assert c in others;
    }
  }

  /** The order that delivers the decision last loses it. */
  lemma LastIsLost(s0: Store, ds: seq<Delivery>, x: string) returns (es: seq<Delivery>)
    requires s0.log == [] && x in s0.users && NewestOf(ds, x, s0.users[x].verifiedAt) != s0.users[x].verifiedAt
    requires forall e :: !Owns(s0.users, ds, e, x, NewestOf(ds, x, s0.users[x].verifiedAt))
    ensures Ends(s0, ds, es, x, false)
  {
    var newest := NewestOf(ds, x, s0.users[x].verifiedAt);
    var others, tops := Pick(ds, x, newest, false), Pick(ds, x, newest, true);
    es := others + tops;
    PickSplits(ds, x, newest);
    PickHas(ds, x, newest, false);
    TopsKnown(s0, ds, x, newest);
    RunConcat(s0, others, tops);
    KnownChangeNothing(Run(s0, others), tops);
    OthersLower(s0, ds, others, x);
  }

  lemma OthersLower(s0: Store, ds: seq<Delivery>, others: seq<Delivery>, x: string)
    requires s0.log == [] && x in s0.users && NewestOf(ds, x, s0.users[x].verifiedAt) != s0.users[x].verifiedAt
    requires forall d :: d in others ==> d in ds && !TopFor(d, x, NewestOf(ds, x, s0.users[x].verifiedAt))
    ensures x in Run(s0, others).users && Run(s0, others).users[x].verifiedAt != NewestOf(ds, x, s0.users[x].verifiedAt)
  {
    RunBounded(s0, others, x);
    WithoutTopsLower(others, ds, x, s0.users[x].verifiedAt);
  }

  lemma WithoutTopsLower(others: seq<Delivery>, ds: seq<Delivery>, x: string, base: Option<int>)
    requires NewestOf(ds, x, base) != base
    requires forall d :: d in others ==> d in ds && !TopFor(d, x, NewestOf(ds, x, base))
    ensures NewestOf(others, x, base) != NewestOf(ds, x, base) && AtLeast(NewestOf(ds, x, base), NewestOf(others, x, base))
  {
    NewestIsMaximum(others, x, base);
    OneWay(others, ds, x, base);
    var m := NewestOf(others, x, base);
    if m != base {
      var i :| 0 <= i < |others| && CountsFor(others[i], x) && m == others[i].decidedAt;
      assert others[i] in others;
    }
  }

  /** The order that delivers it first keeps it. */
  lemma FirstIsKept(s0: Store, ds: seq<Delivery>, x: string) returns (es: seq<Delivery>)
    requires s0.log == [] && x in s0.users && NewestOf(ds, x, s0.users[x].verifiedAt) != s0.users[x].verifiedAt
    ensures Ends(s0, ds, es, x, true)
  {
    var base := s0.users[x].verifiedAt;
    NewestIsMaximum(ds, x, base);
    var i :| 0 <= i < |ds| && CountsFor(ds[i], x) && NewestOf(ds, x, base) == ds[i].decidedAt;
    es := [ds[i]] + (ds[..i] + ds[i + 1..]);
    Moved(ds, i);
    SameMembers(ds, es);
    SameEventsSameNewest(ds, es, x, base);
    RunBounded(s0, es, x);
    FirstIsReflected(s0, es, x);
  }

  lemma Moved(ds: seq<Delivery>, i: nat)
    requires i < |ds|
    ensures multiset([ds[i]] + (ds[..i] + ds[i + 1..])) == multiset(ds)
  {
    assert ds == ds[..i] + [ds[i]] + ds[i + 1..];
  }

  lemma FirstIsReflected(s0: Store, es: seq<Delivery>, x: string)
    requires s0.log == [] && x in s0.users && es != [] && CountsFor(es[0], x)
    ensures x in Run(s0, es).users && AtLeast(Run(s0, es).users[x].verifiedAt, es[0].decidedAt)
  {
    FirstIsLogged(s0, es);
    RunLogged(s0, es);
  }

  lemma {:induction false} FirstIsLogged(s0: Store, es: seq<Delivery>)
    requires s0.log == [] && es != [] && Acceptable(s0.users, es[0])
    ensures |Run(s0, es).log| > 0 && Run(s0, es).log[0].delivery == es[0]
    decreases |es|
  {
    if |es| > 1 {
      FirstIsLogged(s0, es[..|es| - 1]);
    } else {
      assert es[..0] == [];
    }
  }

  /** Deliveries end the same in every order, reused event ids and all, exactly when every player's
      newest decision has an event id of its own. */
  lemma OrderFreeExactly(s0: Store, ds: seq<Delivery>)
    requires s0.log == []
    ensures OrderFree(s0, ds) <==> NewestOwned(s0, ds)
  {
    if NewestOwned(s0, ds) {
      OwnedIsOrderFree(s0, ds);
    } else {
      var x :| x in s0.users && NewestOf(ds, x, s0.users[x].verifiedAt) != s0.users[x].verifiedAt
        && forall e :: !Owns(s0.users, ds, e, x, NewestOf(ds, x, s0.users[x].verifiedAt));
      var lost := LastIsLost(s0, ds, x);
      var kept := FirstIsKept(s0, ds, x);
    }
  }
}
