/** The sliding-window limiter: one sorted set of admitted requests per key.  Times are
    milliseconds of one clock. */
module RateLimit {
  import opened Domain

  datatype Item = Item(score: int, member: string)

  /** A sorted set with the deadline of its key. */
  datatype Zset = Zset(items: seq<Item>, deadline: int)

  datatype Reply = Admit | Refuse(retryAfter: int)

  datatype Limit = Limit(window: int, max: int)

  /** ZREMRANGEBYSCORE 0 cutoff. */
  function Purge(items: seq<Item>, cutoff: int): seq<Item> {
    if items == [] then []
    else
      var rest := Purge(items[..|items| - 1], cutoff);
      var last := items[|items| - 1];
      if 0 <= last.score <= cutoff then rest else rest + [last]
  }

  function Without(items: seq<Item>, member: string): seq<Item> {
    if items == [] then []
    else (if items[0].member == member then [] else [items[0]]) + Without(items[1..], member)
  }

  /** Position after every item with a score not above. */
  function Slot(items: seq<Item>, score: int): (n: nat)
    ensures n <= |items|
  {
    if items == [] then 0
    else if items[|items| - 1].score <= score then |items|
    else Slot(items[..|items| - 1], score)
  }

  /** ZADD: a member has one score. */
  function Zadd(items: seq<Item>, i: Item): seq<Item> {
    var others := Without(items, i.member);
    var n := Slot(others, i.score);
    others[..n] + [i] + others[n..]
  }

  /** What the key holds when a command reaches it. */
  function Live(z: Zset, now: int): seq<Item> { if now > z.deadline then [] else z.items }

  function RetryAfter(oldest: int, l: Limit, now: int): int {
    var retry := oldest + l.window - now;
    if retry < 1 then 1 else retry
  }

  function Check(z: Zset, l: Limit, now: int, member: string): (Zset, Reply) {
    var kept := Purge(Live(z, now), now - l.window);
    if |kept| >= l.max then
      (z.(items := kept), Refuse(if kept == [] then l.window else RetryAfter(kept[0].score, l, now)))
    else (Zset(Zadd(kept, Item(now, member)), now + l.window), Admit)
  }

  class Window {
    const limit: Limit
    var z: Zset

    constructor (limit: Limit)
      ensures this.limit == limit && z == Zset([], 0)
    {
      this.limit, z := limit, Zset([], 0);
    }

    /** The script, one atomic run. */
    method Allow(now: int, member: string) returns (r: Reply)
      modifies this
      ensures (z, r) == Check(old(z), limit, now, member)
    {
      if now > z.deadline { z := z.(items := []); }
      var cutoff := now - limit.window;
      z := z.(items := Purge(z.items, cutoff));
      var count := |z.items|;
      if count >= limit.max {
        var retry := limit.window;
        if |z.items| > 0 {
          retry := z.items[0].score + limit.window - now;
          if retry < 1 { retry := 1; }
        }
        return Refuse(retry);
      }
      z := Zset(Zadd(z.items, Item(now, member)), now + limit.window);
      return Admit;
    }
  }

  // --------------------------------------------------------------------------
  // Runs
  // --------------------------------------------------------------------------

  /** The sets and answers a sequence of calls produces. */
  datatype History = History(calls: seq<Item>, sets: seq<Zset>, answers: seq<Reply>)

  ghost predicate Happened(h: History, l: Limit) {
    && |h.sets| == |h.calls| + 1 && |h.answers| == |h.calls| && h.sets[0] == Zset([], 0)
    && forall i :: 0 <= i < |h.calls| ==> Step(h, l, i)
  }

  predicate Step(h: History, l: Limit, i: nat)
    requires i < |h.calls| == |h.answers| && |h.sets| == |h.calls| + 1
  {
    (h.sets[i + 1], h.answers[i]) == Check(h.sets[i], l, h.calls[i].score, h.calls[i].member)
  }

  /** The time of the call before position n. */
  function Clock(calls: seq<Item>, n: nat): int
    requires n <= |calls|
  {
    if n == 0 then 0 else calls[n - 1].score
  }

  predicate NewMember(items: seq<Item>, member: string) { forall i :: 0 <= i < |items| ==> items[i].member != member }

  predicate InTime(calls: seq<Item>, i: nat)
    requires i < |calls|
  {
    0 <= Clock(calls, i) <= calls[i].score
  }

  /** A clock that never runs backwards, and members never reused. */
  predicate Orderly(calls: seq<Item>) {
    && (forall i :: 0 <= i < |calls| ==> InTime(calls, i))
    && (forall i :: 0 <= i < |calls| ==> Unseen(calls, i))
  }

  predicate Unseen(calls: seq<Item>, n: nat)
    requires n < |calls|
  {
    forall i :: 0 <= i < n ==> calls[i].member != calls[n].member
  }

  /** The calls admitted among the first n, oldest first. */
  function Admitted(h: History, n: nat): seq<Item>
    requires n <= |h.calls| == |h.answers|
  {
    if n == 0 then [] else Admitted(h, n - 1) + if h.answers[n - 1].Admit? then [h.calls[n - 1]] else []
  }

  /** Admitted calls with lo <= time < hi. */
  function Within(items: seq<Item>, lo: int, hi: int): nat {
    if items == [] then 0
    else Within(items[..|items| - 1], lo, hi) + if lo <= items[|items| - 1].score < hi then 1 else 0
  }

  // --------------------------------------------------------------------------
  // The set holds exactly the admitted calls of the window
  // --------------------------------------------------------------------------

  lemma {:induction false} PurgeTwice(items: seq<Item>, low: int, high: int)
    requires low <= high
    ensures Purge(Purge(items, low), high) == Purge(items, high)
  {
    if items != [] {
      var init, last := items[..|items| - 1], items[|items| - 1];
      PurgeTwice(init, low, high);
      if !(0 <= last.score <= low) { PurgeSnoc(Purge(init, low), last, high); }
    }
  }

  lemma PurgeSnoc(items: seq<Item>, i: Item, cutoff: int)
    ensures Purge(items + [i], cutoff) == Purge(items, cutoff) + if 0 <= i.score <= cutoff then [] else [i]
  {
    assert (items + [i])[..|items|] == items;
  }

  lemma {:induction false} PurgeHead(items: seq<Item>, cutoff: int)
    requires items != [] && 0 <= items[0].score <= cutoff
    ensures |Purge(items, cutoff)| < |items|
  {
    if |items| > 1 { PurgeHead(items[..|items| - 1], cutoff); } else { assert items[..0] == []; }
  }

  /** Sorted, from time zero up to `clock`. */
  predicate Timeline(items: seq<Item>, clock: int) {
    items == [] || (0 <= items[|items| - 1].score <= clock && Timeline(items[..|items| - 1], items[|items| - 1].score))
  }

  lemma {:induction false} PurgeAll(items: seq<Item>, cutoff: int)
    requires Timeline(items, cutoff)
    ensures Purge(items, cutoff) == []
  {
    if items != [] {
      TimelineLater(items[..|items| - 1], items[|items| - 1].score, cutoff);
      PurgeAll(items[..|items| - 1], cutoff);
    }
  }

  lemma TimelineLater(items: seq<Item>, clock: int, later: int)
    requires Timeline(items, clock) && clock <= later
    ensures Timeline(items, later)
  {
  }

  /** What is kept is a timeline of the old items above the cutoff, and counts them. */
  lemma {:induction false} PurgeKeeps(items: seq<Item>, clock: int, cutoff: int)
    requires Timeline(items, clock)
    ensures Timeline(Purge(items, cutoff), clock)
    ensures |Purge(items, cutoff)| == Within(items, cutoff + 1, clock + 1)
    ensures Purge(items, cutoff) != [] ==> Purge(items, cutoff)[0].score >= 0
  {
    if items != [] {
      var n := |items| - 1;
      var score := items[n].score;
      PurgeKeeps(items[..n], score, cutoff);
      var rest := Purge(items[..n], cutoff);
      TimelineLater(rest, score, clock);
      assert (rest + [items[n]])[..|rest|] == rest;
      WithinUpTo(items[..n], cutoff + 1, score + 1, clock + 1);
    }
  }

  /** Nothing lies after the clock. */
  lemma {:induction false} WithinUpTo(items: seq<Item>, lo: int, hi: int, hi': int)
    requires hi <= hi' && Timeline(items, hi - 1)
    ensures Within(items, lo, hi) == Within(items, lo, hi')
  {
    if items != [] {
      var n := |items| - 1;
      TimelineLater(items[..n], items[n].score, hi - 1);
      WithinUpTo(items[..n], lo, hi, hi');
    }
  }

  lemma {:induction false} PurgeNewMember(items: seq<Item>, cutoff: int, m: string)
    requires NewMember(items, m)
    ensures NewMember(Purge(items, cutoff), m)
  {
    if items != [] { PurgeNewMember(items[..|items| - 1], cutoff, m); }
  }

  lemma {:induction false} AdmittedNewMember(h: History, n: nat, m: string)
    requires n <= |h.calls| == |h.answers| && forall i :: 0 <= i < n ==> h.calls[i].member != m
    ensures NewMember(Admitted(h, n), m)
  {
    if n > 0 { AdmittedNewMember(h, n - 1, m); }
  }

  lemma {:induction false} WithoutAbsent(items: seq<Item>, member: string)
    requires NewMember(items, member)
    ensures Without(items, member) == items
  {
    if items != [] { WithoutAbsent(items[1..], member); }
  }

  lemma ZaddAppends(items: seq<Item>, i: Item)
    requires Timeline(items, i.score) && NewMember(items, i.member)
    ensures Zadd(items, i) == items + [i]
  {
    WithoutAbsent(items, i.member);
  }

  /** The stored set is the purge of everything admitted, and the key outlives its newest item by
      one window. */
  predicate Mirrors(z: Zset, all: seq<Item>, l: Limit, clock: int) {
    && Timeline(all, clock) && z.items == Purge(all, clock - l.window)
    && (all != [] ==> z.deadline == all[|all| - 1].score + l.window)
  }

  /** Losing the key at its deadline loses nothing the purge would keep. */
  lemma ExpiryIsPurge(z: Zset, all: seq<Item>, l: Limit, clock: int, now: int)
    requires Mirrors(z, all, l, clock) && clock <= now
    ensures Purge(Live(z, now), now - l.window) == Purge(all, now - l.window)
  {
    PurgeTwice(all, clock - l.window, now - l.window);
    if now > z.deadline && all != [] { PurgeAll(all, now - l.window); }
  }

  /** The state and the history after a call. */
  lemma MirrorsNext(z: Zset, all: seq<Item>, l: Limit, clock: int, c: Item)
    requires Mirrors(z, all, l, clock) && 0 <= clock <= c.score && NewMember(all, c.member) && l.window > 0
    ensures var kept := Purge(all, c.score - l.window);
      && Mirrors(z.(items := kept), all, l, c.score)
      && Zadd(kept, c) == kept + [c]
      && Mirrors(Zset(kept + [c], c.score + l.window), all + [c], l, c.score)
  {
    var cutoff := c.score - l.window;
    TimelineLater(all, clock, c.score);
    PurgeKeeps(all, c.score, cutoff);
    PurgeNewMember(all, cutoff, c.member);
    ZaddAppends(Purge(all, cutoff), c);
    PurgeSnoc(all, c, cutoff);
    assert (all + [c])[..|all|] == all;
  }

  /** One call against the mirrored history. */
  lemma CheckMirrors(z: Zset, all: seq<Item>, l: Limit, clock: int, c: Item)
    requires Mirrors(z, all, l, clock) && 0 <= clock <= c.score && NewMember(all, c.member) && l.window > 0
    ensures var (z', r) := Check(z, l, c.score, c.member);
      var kept := Purge(all, c.score - l.window);
      && (r.Admit? <==> |kept| < l.max)
      && (r.Refuse? && kept != [] ==> r.retryAfter == RetryAfter(kept[0].score, l, c.score))
      && Mirrors(z', if r.Admit? then all + [c] else all, l, c.score)
  {
    ExpiryIsPurge(z, all, l, clock, c.score);
    MirrorsNext(z, all, l, clock, c);
    assert Item(c.score, c.member) == c;
  }

  lemma AdmittedNext(h: History, n: nat)
    requires n < |h.calls| == |h.answers|
    ensures Admitted(h, n + 1) == if h.answers[n].Admit? then Admitted(h, n) + [h.calls[n]] else Admitted(h, n)
  {
    assert Admitted(h, n) + [] == Admitted(h, n);
  }

  /** Every reached set mirrors what was admitted before it. */
  lemma {:induction false} HistoryMirrors(h: History, l: Limit, n: nat)
    requires Happened(h, l) && Orderly(h.calls) && l.window > 0 && n <= |h.calls|
    ensures Mirrors(h.sets[n], Admitted(h, n), l, Clock(h.calls, n))
  {
    if n > 0 {
      HistoryMirrors(h, l, n - 1);
      AdmittedNext(h, n - 1);
      StepSees(h, l, n - 1, Admitted(h, n - 1));
    }
  }

  /** A call, seen against everything admitted before it. */
  predicate Sees(l: Limit, all: seq<Item>, c: Item, r: Reply) {
    var kept := Purge(all, c.score - l.window);
    && Timeline(all, c.score)
    && (r.Admit? <==> |kept| < l.max)
    && (r.Refuse? && kept != [] ==> r.retryAfter == RetryAfter(kept[0].score, l, c.score))
  }

  lemma CallSees(h: History, l: Limit, n: nat)
    requires Happened(h, l) && Orderly(h.calls) && l.window > 0 && n < |h.calls|
    ensures Sees(l, Admitted(h, n), h.calls[n], h.answers[n])
  {
    HistoryMirrors(h, l, n);
    StepSees(h, l, n, Admitted(h, n));
  }

  lemma StepSees(h: History, l: Limit, n: nat, all: seq<Item>)
    requires Happened(h, l) && Orderly(h.calls) && l.window > 0 && n < |h.calls| && all == Admitted(h, n)
    requires Mirrors(h.sets[n], all, l, Clock(h.calls, n))
    ensures Sees(l, all, h.calls[n], h.answers[n])
    ensures Mirrors(h.sets[n + 1], if h.answers[n].Admit? then all + [h.calls[n]] else all, l, h.calls[n].score)
  {
    assert Step(h, l, n) && InTime(h.calls, n) && Unseen(h.calls, n);
    AdmittedNewMember(h, n, h.calls[n].member);
    CheckMirrors(h.sets[n], all, l, Clock(h.calls, n), h.calls[n]);
    TimelineLater(all, Clock(h.calls, n), h.calls[n].score);
  }

  // --------------------------------------------------------------------------
  // Adding a member
  // --------------------------------------------------------------------------

  predicate Ordered(items: seq<Item>) { forall i, j :: 0 <= i <= j < |items| ==> items[i].score <= items[j].score }

  lemma {:induction false} WithoutKeeps(items: seq<Item>, member: string)
    requires Ordered(items)
    ensures Ordered(Without(items, member))
    ensures forall x :: x in Without(items, member) <==> x in items && x.member != member
  {
    if items != [] {
      var rest := Without(items[1..], member);
      WithoutKeeps(items[1..], member);
      assert forall x :: x in rest ==> x in items[1..];
      assert Without(items, member) == (if items[0].member == member then [] else [items[0]]) + rest;
    }
  }

  lemma {:induction false} SlotSplits(items: seq<Item>, score: int)
    requires Ordered(items)
    ensures forall i :: 0 <= i < |items| ==> (i < Slot(items, score) <==> items[i].score <= score)
  {
    if items != [] {
      SlotSplits(items[..|items| - 1], score);
      assert forall i :: 0 <= i < |items| - 1 ==> items[..|items| - 1][i] == items[i];
    }
  }

  lemma InsertAt(others: seq<Item>, i: Item, n: nat)
    requires n <= |others|
    ensures forall x :: x in others[..n] + [i] + others[n..] <==> x == i || x in others
  {
    assert others == others[..n] + others[n..];
  }

  /** A member has one score: adding it keeps every other member, leaves only its newest score, and
      keeps the set in order. */
  lemma ZaddExactly(items: seq<Item>, i: Item)
    requires Ordered(items)
    ensures Ordered(Zadd(items, i))
    ensures forall x :: x in Zadd(items, i) <==> x == i || (x in items && x.member != i.member)
  {
    var others := Without(items, i.member);
    var n := Slot(others, i.score);
    WithoutKeeps(items, i.member);
    InsertAt(others, i, n);
    InsertOrdered(others, i, n);
  }

  lemma InsertOrdered(others: seq<Item>, i: Item, n: nat)
    requires Ordered(others) && n == Slot(others, i.score)
    ensures Ordered(others[..n] + [i] + others[n..])
  {
    SlotSplits(others, i.score);
  }

  // --------------------------------------------------------------------------
  // What the limiter guarantees
  // --------------------------------------------------------------------------

  /** A call is admitted exactly when fewer than the limit were admitted in the window ending with
      it. */
  lemma AdmittedExactly(h: History, l: Limit, n: nat, c: Item, all: seq<Item>)
    requires Happened(h, l) && Orderly(h.calls) && l.window > 0 && n < |h.calls|
    requires c == h.calls[n] && all == Admitted(h, n)
    ensures h.answers[n].Admit? <==> Within(all, c.score - l.window + 1, c.score + 1) < l.max
  {
    CallSees(h, l, n);
    PurgeKeeps(all, c.score, c.score - l.window);
  }

  lemma {:induction false} WithinNarrower(items: seq<Item>, lo: int, hi: int, lo': int, clock: int)
    requires lo' <= lo && Timeline(items, clock)
    ensures Within(items, lo, hi) <= Within(items, lo', clock + 1)
  {
    if items != [] {
      var n := |items| - 1;
      WithinNarrower(items[..n], lo, hi, lo', items[n].score);
      WithinUpTo(items[..n], lo', items[n].score + 1, clock + 1);
    }
  }

  lemma WithinSnoc(items: seq<Item>, c: Item, lo: int, hi: int)
    ensures Within(items + [c], lo, hi) == Within(items, lo, hi) + if lo <= c.score < hi then 1 else 0
  {
    assert (items + [c])[..|items|] == items;
  }

  /** No half-open interval of one window length ever contains more than the limit of admitted
      calls, wherever it starts. */
  lemma {:induction false} WindowBound(h: History, l: Limit, t: int, n: nat)
    requires Happened(h, l) && Orderly(h.calls) && l.window > 0 && l.max >= 0 && n <= |h.calls|
    ensures Within(Admitted(h, n), t, t + l.window) <= l.max
  {
    if n > 0 {
      WindowBound(h, l, t, n - 1);
      CallSees(h, l, n - 1);
      BoundAfter(l, t, Admitted(h, n - 1), h.calls[n - 1], h.answers[n - 1]);
      assert Admitted(h, n - 1) + [] == Admitted(h, n - 1);
    }
  }

  lemma BoundAfter(l: Limit, t: int, before: seq<Item>, c: Item, r: Reply)
    requires Sees(l, before, c, r) && Within(before, t, t + l.window) <= l.max
    ensures Within(if r.Admit? then before + [c] else before, t, t + l.window) <= l.max
  {
    WithinSnoc(before, c, t, t + l.window);
    PurgeKeeps(before, c.score, c.score - l.window);
    if t <= c.score < t + l.window { WithinNarrower(before, t, t + l.window, c.score - l.window + 1, c.score); }
  }

  /** The stored set is never larger than the limit. */
  lemma StoredAtMost(h: History, l: Limit, n: nat)
    requires Happened(h, l) && Orderly(h.calls) && l.window > 0 && l.max >= 0 && n <= |h.calls|
    ensures |h.sets[n].items| <= l.max
  {
    HistoryMirrors(h, l, n);
    var all, now := Admitted(h, n), Clock(h.calls, n);
    PurgeKeeps(all, now, now - l.window);
    WindowBound(h, l, now - l.window + 1, n);
  }

  /** What is kept lies above the cutoff. */
  lemma {:induction false} PurgeAbove(items: seq<Item>, clock: int, cutoff: int)
    requires Timeline(items, clock)
    ensures forall i :: 0 <= i < |Purge(items, cutoff)| ==> Purge(items, cutoff)[i].score > cutoff
  {
    if items != [] { PurgeAbove(items[..|items| - 1], items[|items| - 1].score, cutoff); }
  }

  /** Nothing is lost while the oldest lies above the cutoff. */
  lemma {:induction false} PurgeNone(items: seq<Item>, clock: int, cutoff: int)
    requires Timeline(items, clock) && (items != [] ==> items[0].score > cutoff)
    ensures Purge(items, cutoff) == items && (items != [] ==> items[0].score <= clock)
  {
    if items != [] {
      var n := |items| - 1;
      PurgeNone(items[..n], items[n].score, cutoff);
      assert items == items[..n] + [items[n]];
    }
  }

  /** A refused caller that comes back with nothing admitted in between is admitted exactly when it has
      waited out its retry_after: no wait shorter is enough, and none longer is needed. */
  lemma RetryIsAdmitted(h: History, l: Limit, i: nat, j: nat)
    requires Happened(h, l) && Orderly(h.calls) && l.window > 0 && l.max >= 1 && i < j < |h.calls|
    requires h.answers[i].Refuse? && Admitted(h, j) == Admitted(h, i)
    ensures h.answers[j].Admit? <==> h.calls[j].score >= h.calls[i].score + h.answers[i].retryAfter
  {
    RetryPair(h, l, i, j, Admitted(h, i));
    RetrySees(l, Admitted(h, i), h.calls[i], h.answers[i], h.calls[j], h.answers[j]);
  }

  /** A refusal and a later call that sees the same admissions. */
  predicate Retries(l: Limit, all: seq<Item>, c: Item, r: Reply, again: Item, r': Reply) {
    && Sees(l, all, c, r) && Sees(l, all, again, r') && r.Refuse? && l.window > 0 && l.max >= 1 && again.score >= c.score
    && |Purge(all, c.score - l.window)| <= l.max
  }

  lemma RetryPair(h: History, l: Limit, i: nat, j: nat, all: seq<Item>)
    requires Happened(h, l) && Orderly(h.calls) && l.window > 0 && l.max >= 1 && i < j < |h.calls|
    requires h.answers[i].Refuse? && Admitted(h, j) == all && Admitted(h, i) == all
    ensures Retries(l, all, h.calls[i], h.answers[i], h.calls[j], h.answers[j])
  {
    CallSees(h, l, i);
    CallSees(h, l, j);
    KeptAtMost(h, l, i);
    ClockForward(h.calls, i, j);
  }

  lemma {:induction false} ClockForward(calls: seq<Item>, i: nat, j: nat)
    requires Orderly(calls) && i <= j < |calls|
    ensures calls[i].score <= calls[j].score
  {
    if i < j {
      ClockForward(calls, i, j - 1);
      assert InTime(calls, j);
    }
  }

  lemma KeptAtMost(h: History, l: Limit, i: nat)
    requires Happened(h, l) && Orderly(h.calls) && l.window > 0 && l.max >= 0 && i < |h.calls|
    ensures |Purge(Admitted(h, i), h.calls[i].score - l.window)| <= l.max
  {
    var all, c := Admitted(h, i), h.calls[i];
    CallSees(h, l, i);
    WindowBound(h, l, c.score - l.window + 1, i);
    PurgeKeeps(all, c.score, c.score - l.window);
  }

  lemma RetrySees(l: Limit, all: seq<Item>, c: Item, r: Reply, again: Item, r': Reply)
    requires Retries(l, all, c, r, again, r')
    ensures r'.Admit? <==> again.score >= c.score + r.retryAfter
  {
    Waited(l, all, c, r, again.score);
  }

  /** A refusal's set holds at least the limit and its retry_after is when the oldest falls out. */
  lemma RefusedSet(l: Limit, all: seq<Item>, c: Item, r: Reply)
    requires Sees(l, all, c, r) && r.Refuse? && l.window > 0 && l.max >= 1
    ensures var kept := Purge(all, c.score - l.window);
      && Timeline(kept, c.score) && |kept| >= l.max
      && 0 <= kept[0].score && kept[0].score > c.score - l.window && c.score + r.retryAfter == kept[0].score + l.window
  {
    PurgeKeeps(all, c.score, c.score - l.window);
    PurgeAbove(all, c.score, c.score - l.window);
  }

  lemma Waited(l: Limit, all: seq<Item>, c: Item, r: Reply, later: int)
    requires Sees(l, all, c, r) && r.Refuse? && l.window > 0 && l.max >= 1 && later >= c.score
    requires |Purge(all, c.score - l.window)| <= l.max
    ensures |Purge(all, later - l.window)| < l.max <==> later >= c.score + r.retryAfter
  {
    var kept := Purge(all, c.score - l.window);
    RefusedSet(l, all, c, r);
    PurgeTwice(all, c.score - l.window, later - l.window);
    if later >= c.score + r.retryAfter { PurgeHead(kept, later - l.window); } else { PurgeNone(kept, c.score, later - l.window); }
  }
}
