/** Signed requests: what the signature covers, the freshness window, and the single-use nonce.
    Times are milliseconds; strings are byte strings. */
module Replay {
  import opened Domain
  import Idempotency

  datatype Signed = Signed(operator: string, timestamp: string, nonce: string, body: string)

  /** The exact bytes that are signed. */
  function CanonicalPayload(timestamp: string, nonce: string, body: string): string {
    timestamp + ['.'] + nonce + ['.'] + body
  }

  predicate NonceIsWellFormed(nonce: string) { nonce != "" && |nonce| <= 128 && '.' !in nonce }

  predicate TimestampIsWellFormed(ts: string) { ts != "" && |ts| <= 20 && Idempotency.AllDigits(ts) }

  /** Well-formed fields can be read back from the signed bytes in one way only. */
  lemma CanonicalPayloadInjective(a: Signed, b: Signed)
    requires TimestampIsWellFormed(a.timestamp) && NonceIsWellFormed(a.nonce)
    requires TimestampIsWellFormed(b.timestamp) && NonceIsWellFormed(b.nonce)
    requires CanonicalPayload(a.timestamp, a.nonce, a.body) == CanonicalPayload(b.timestamp, b.nonce, b.body)
    ensures a.timestamp == b.timestamp && a.nonce == b.nonce && a.body == b.body
  {
    var x, y := a.nonce + ['.'] + a.body, b.nonce + ['.'] + b.body;
    assert CanonicalPayload(a.timestamp, a.nonce, a.body) == a.timestamp + ['.'] + x;
    assert CanonicalPayload(b.timestamp, b.nonce, b.body) == b.timestamp + ['.'] + y;
    assert '.' !in a.timestamp && '.' !in b.timestamp;
    Idempotency.SplitAtFirst(a.timestamp, x, b.timestamp, y, '.');
    Idempotency.SplitAtFirst(a.nonce, a.body, b.nonce, b.body, '.');
  }

  /** The dot is the whole reason for the nonce's shape check: the signed bytes split in one way only,
      into a dot-free nonce and a body, exactly when the nonce holds no dot. */
  lemma SplitsOneWayExactly(timestamp: string, nonce: string, body: string)
    ensures '.' !in nonce <==>
      forall n, b :: '.' !in n && CanonicalPayload(timestamp, n, b) == CanonicalPayload(timestamp, nonce, body) ==> n == nonce && b == body
  {
    if '.' in nonce {
      var n, rest := CutAtDot(nonce);
      assert CanonicalPayload(timestamp, n, rest + ['.'] + body) == CanonicalPayload(timestamp, nonce, body);
    } else {
      forall n, b | '.' !in n && CanonicalPayload(timestamp, n, b) == CanonicalPayload(timestamp, nonce, body)
        ensures n == nonce && b == body
      {
        var x, y := n + ['.'] + b, nonce + ['.'] + body;
        assert CanonicalPayload(timestamp, n, b) == timestamp + ['.'] + x;
        assert CanonicalPayload(timestamp, nonce, body) == timestamp + ['.'] + y;
        assert x == CanonicalPayload(timestamp, n, b)[|timestamp| + 1..] && y == CanonicalPayload(timestamp, nonce, body)[|timestamp| + 1..];
        Idempotency.SplitAtFirst(n, b, nonce, body, '.');
      }
    }
  }

  lemma {:induction false} CutAtDot(s: string) returns (head: string, tail: string)
    requires '.' in s
    ensures '.' !in head && s == head + ['.'] + tail
  {
    if s[0] == '.' {
      head, tail := "", s[1..];
    } else {
      head, tail := CutAtDot(s[1..]);
      head := [s[0]] + head;
    }
  }

  // --------------------------------------------------------------------------
  // The guard
  // --------------------------------------------------------------------------

  const MAX_INT64 := 0x7fff_ffff_ffff_ffff

  datatype Policy = Policy(maxAge: int, clockSkew: int, nonceTTL: int)

  const DEFAULTS := Policy(300_000, 30_000, 600_000)

  datatype Ruling = Accepted | Unauthenticated | InvalidTimestamp | Stale | Replayed

  function NonceKey(operator: string, nonce: string): string { "api:nonce:" + Idempotency.IdempotencyKey(operator, nonce) }

  /** The signature check and then the guard.  `authentic` is whether the MAC matches; `nonces`
      maps each key to the last instant it is held. */
  function Rule(nonces: map<string, int>, p: Policy, r: Signed, authentic: bool, now: int): Ruling {
    if !TimestampIsWellFormed(r.timestamp) || !NonceIsWellFormed(r.nonce) || !authentic then Unauthenticated
    else if Idempotency.Numeral(r.timestamp) > MAX_INT64 then InvalidTimestamp
    else
      var age := now - Idempotency.Numeral(r.timestamp) * 1000;
      var key := NonceKey(r.operator, r.nonce);
      if age > p.maxAge || age < -p.clockSkew then Stale
      else if key in nonces && now <= nonces[key] then Replayed
      else Accepted
  }

  function Held(nonces: map<string, int>, p: Policy, r: Signed, authentic: bool, now: int): map<string, int> {
    if Rule(nonces, p, r, authentic, now).Accepted? then nonces[NonceKey(r.operator, r.nonce) := now + p.nonceTTL] else nonces
  }

  class ReplayGuard {
    const policy: Policy
    var nonces: map<string, int>

    constructor (policy: Policy)
      ensures this.policy == policy && nonces == map[]
    {
      this.policy, nonces := policy, map[];
    }

    method SetNX(key: string, now: int, ttl: int) returns (ok: bool)
      modifies this
      ensures ok <==> !(key in old(nonces) && now <= old(nonces)[key])
      ensures nonces == if ok then old(nonces)[key := now + ttl] else old(nonces)
    {
      if key in nonces && now <= nonces[key] { return false; }
      nonces := nonces[key := now + ttl];
      return true;
    }

    method Handle(r: Signed, authentic: bool, now: int) returns (ruling: Ruling)
      modifies this
      ensures ruling == Rule(old(nonces), policy, r, authentic, now)
      ensures nonces == Held(old(nonces), policy, r, authentic, now)
    {
      if !TimestampIsWellFormed(r.timestamp) || !NonceIsWellFormed(r.nonce) { return Unauthenticated; }
      if !authentic { return Unauthenticated; }
      var ts := Idempotency.Numeral(r.timestamp);
      if ts > MAX_INT64 { return InvalidTimestamp; }
      var age := now - ts * 1000;
      if age > policy.maxAge || age < -policy.clockSkew { return Stale; }
      var ok := SetNX(NonceKey(r.operator, r.nonce), now, policy.nonceTTL);
      if !ok { return Replayed; }
      return Accepted;
    }
  }

  // --------------------------------------------------------------------------
  // Runs
  // --------------------------------------------------------------------------

  datatype Arrival = Arrival(request: Signed, authentic: bool, at: int)

  /** The store before each arrival, and after the last. */
  ghost predicate Happened(stores: seq<map<string, int>>, arrivals: seq<Arrival>, p: Policy) {
    && |stores| == |arrivals| + 1 && stores[0] == map[]
    && forall i :: 0 <= i < |arrivals| ==> Step(stores, arrivals, p, i)
  }

  ghost predicate Step(stores: seq<map<string, int>>, arrivals: seq<Arrival>, p: Policy, i: nat)
    requires i < |arrivals| && |stores| == |arrivals| + 1
  {
    stores[i + 1] == Held(stores[i], p, arrivals[i].request, arrivals[i].authentic, arrivals[i].at)
  }

  predicate InOrder(arrivals: seq<Arrival>) {
    forall i, j :: 0 <= i <= j < |arrivals| ==> arrivals[i].at <= arrivals[j].at
  }

  predicate AcceptedAt(stores: seq<map<string, int>>, arrivals: seq<Arrival>, p: Policy, i: nat)
    requires i < |arrivals| && |stores| == |arrivals| + 1
  {
    Rule(stores[i], p, arrivals[i].request, arrivals[i].authentic, arrivals[i].at).Accepted?
  }

  /** Two arrivals of one operator carrying the same signed bytes. */
  predicate SamePayload(a: Signed, b: Signed) {
    a.operator == b.operator && CanonicalPayload(a.timestamp, a.nonce, a.body) == CanonicalPayload(b.timestamp, b.nonce, b.body)
  }

  /** Once accepted, a nonce stays held for its whole time to live. */
  lemma {:induction false} NonceStaysHeld(stores: seq<map<string, int>>, arrivals: seq<Arrival>, p: Policy, i: nat, j: nat)
    requires Happened(stores, arrivals, p) && InOrder(arrivals) && i < j <= |arrivals| && AcceptedAt(stores, arrivals, p, i)
    ensures var key := NonceKey(arrivals[i].request.operator, arrivals[i].request.nonce);
      key in stores[j] && stores[j][key] >= arrivals[i].at + p.nonceTTL
    decreases j
  {
    assert Step(stores, arrivals, p, j - 1);
    if j > i + 1 { NonceStaysHeld(stores, arrivals, p, i, j - 1); }
  }

  /** Signed, with one to twenty digits for a timestamp and one to 128 characters, none a dot, for a
      nonce. */
  predicate Presentable(a: Arrival) {
    && a.authentic && 1 <= |a.request.timestamp| <= 20 && 1 <= |a.request.nonce| <= 128 && '.' !in a.request.nonce
    && forall i :: 0 <= i < |a.request.timestamp| ==> '0' <= a.request.timestamp[i] <= '9'
  }

  /** The signed second lies no more than the maximum age back and no more than the skew ahead. */
  predicate InTime(p: Policy, a: Arrival) {
    var signed := Idempotency.Numeral(a.request.timestamp);
    signed <= MAX_INT64 && a.at - p.maxAge <= 1000 * signed <= a.at + p.clockSkew
  }

  /** Arrival i of the same operator was accepted with this nonce, and not a time to live ago yet. */
  predicate Uses(stores: seq<map<string, int>>, arrivals: seq<Arrival>, p: Policy, i: nat, n: nat)
    requires i < |arrivals| && n < |arrivals| && |stores| == |arrivals| + 1
  {
    && AcceptedAt(stores, arrivals, p, i) && arrivals[n].at <= arrivals[i].at + p.nonceTTL
    && NonceKey(arrivals[i].request.operator, arrivals[i].request.nonce) == NonceKey(arrivals[n].request.operator, arrivals[n].request.nonce)
  }

  ghost predicate Used(stores: seq<map<string, int>>, arrivals: seq<Arrival>, p: Policy, n: nat)
    requires n < |arrivals| && |stores| == |arrivals| + 1
  {
    exists i :: 0 <= i < n && Uses(stores, arrivals, p, i, n)
  }

  predicate HeldSince(stores: seq<map<string, int>>, arrivals: seq<Arrival>, p: Policy, i: nat, key: string, until: int)
    requires i < |arrivals| && |stores| == |arrivals| + 1
  {
    && AcceptedAt(stores, arrivals, p, i) && until == arrivals[i].at + p.nonceTTL
    && NonceKey(arrivals[i].request.operator, arrivals[i].request.nonce) == key
  }

  /** A held nonce was accepted before, and is held for its time to live from then. */
  lemma {:induction false} HeldWasAccepted(stores: seq<map<string, int>>, arrivals: seq<Arrival>, p: Policy, n: nat, key: string)
    requires Happened(stores, arrivals, p) && n <= |arrivals| && key in stores[n]
    ensures exists i :: 0 <= i < n && HeldSince(stores, arrivals, p, i, key, stores[n][key])
  {
    assert Step(stores, arrivals, p, n - 1);
    if key in stores[n - 1] && stores[n][key] == stores[n - 1][key] {
      HeldWasAccepted(stores, arrivals, p, n - 1, key);
    } else {
      assert HeldSince(stores, arrivals, p, n - 1, key, stores[n][key]);
    }
  }

  /** What every arrival of a run is told, from the arrivals alone: it is accepted exactly when it is
      signed and well formed, in time, and its nonce was not accepted within the last time to live. */
  lemma RuledExactly(stores: seq<map<string, int>>, arrivals: seq<Arrival>, p: Policy, n: nat)
    requires Happened(stores, arrivals, p) && InOrder(arrivals) && n < |arrivals|
    ensures var (a, ruling) := (arrivals[n], Rule(stores[n], p, arrivals[n].request, arrivals[n].authentic, arrivals[n].at));
      && (ruling.Accepted? <==> Presentable(a) && InTime(p, a) && !Used(stores, arrivals, p, n))
      && (ruling.Replayed? <==> Presentable(a) && InTime(p, a) && Used(stores, arrivals, p, n))
      && (ruling.Unauthenticated? <==> !Presentable(a))
  {
    var a := arrivals[n];
    var key := NonceKey(a.request.operator, a.request.nonce);
    if Used(stores, arrivals, p, n) {
      var i :| 0 <= i < n && Uses(stores, arrivals, p, i, n);
      NonceStaysHeld(stores, arrivals, p, i, n);
    } else if key in stores[n] && a.at <= stores[n][key] {
      HeldWasAccepted(stores, arrivals, p, n, key);
      var i :| 0 <= i < n && HeldSince(stores, arrivals, p, i, key, stores[n][key]);
      assert Uses(stores, arrivals, p, i, n);
    }
  }

  /** No signed payload is accepted twice in any run, when a nonce outlives the freshness window. */
  lemma NeverAcceptedTwice(stores: seq<map<string, int>>, arrivals: seq<Arrival>, p: Policy, i: nat, j: nat)
    requires Happened(stores, arrivals, p) && InOrder(arrivals) && p.nonceTTL >= p.maxAge + p.clockSkew
    requires i < j < |arrivals| && AcceptedAt(stores, arrivals, p, i) && SamePayload(arrivals[i].request, arrivals[j].request)
    ensures !AcceptedAt(stores, arrivals, p, j)
  {
    if AcceptedAt(stores, arrivals, p, j) {
      CanonicalPayloadInjective(arrivals[i].request, arrivals[j].request);
      NonceStaysHeld(stores, arrivals, p, i, j);
    }
  }

  ghost predicate Sound(p: Policy) {
    forall stores: seq<map<string, int>>, arrivals: seq<Arrival>, i: nat, j: nat ::
      Happened(stores, arrivals, p) && InOrder(arrivals) && i < j < |arrivals|
      && AcceptedAt(stores, arrivals, p, i) && SamePayload(arrivals[i].request, arrivals[j].request)
      ==> !AcceptedAt(stores, arrivals, p, j)
  }

  /** The guard rules out replays exactly when the nonce's time to live covers the whole freshness
      window; the shipped defaults do. */
  lemma SoundExactly(p: Policy)
    requires p.maxAge >= 0 && p.clockSkew >= 0 && p.nonceTTL >= 0
    ensures Sound(p) <==> p.nonceTTL >= p.maxAge + p.clockSkew
    ensures Sound(DEFAULTS)
  {
    if p.nonceTTL >= p.maxAge + p.clockSkew { SoundWhen(p); } else { ShortLivedNonceReplays(p); }
    SoundWhen(DEFAULTS);
  }

  lemma SoundWhen(p: Policy)
    requires p.nonceTTL >= p.maxAge + p.clockSkew
    ensures Sound(p)
  {
    forall stores: seq<map<string, int>>, arrivals: seq<Arrival>, i: nat, j: nat |
      Happened(stores, arrivals, p) && InOrder(arrivals) && i < j < |arrivals|
      && AcceptedAt(stores, arrivals, p, i) && SamePayload(arrivals[i].request, arrivals[j].request)
      ensures !AcceptedAt(stores, arrivals, p, j)
    {
      NeverAcceptedTwice(stores, arrivals, p, i, j);
    }
  }

  /** A request stamped as far ahead as the skew allows, and sent again just after its nonce has
      lapsed. */
  lemma ShortLivedNonceReplays(p: Policy)
    requires p.maxAge >= 0 && p.clockSkew >= 0 && 0 <= p.nonceTTL < p.maxAge + p.clockSkew
    ensures !Sound(p)
  {
    var r := Signed("op", "0", "n", "");
    assert Idempotency.Numeral("0") == 0 by { assert "0"[..0] == ""; }
    var arrivals := [Arrival(r, true, -p.clockSkew), Arrival(r, true, -p.clockSkew + p.nonceTTL + 1)];
    var s1 := Held(map[], p, r, true, arrivals[0].at);
    var stores := [map[], s1, Held(s1, p, r, true, arrivals[1].at)];
    assert Step(stores, arrivals, p, 0) && Step(stores, arrivals, p, 1);
    assert Happened(stores, arrivals, p) && InOrder(arrivals);
    assert AcceptedAt(stores, arrivals, p, 0) && AcceptedAt(stores, arrivals, p, 1);
    assert SamePayload(arrivals[0].request, arrivals[1].request);
  }

  /** One operator's requests never use up another operator's nonces, for operator codes without a
      colon. */
  lemma NoncesAreScoped(op: string, nonce: string, op': string, nonce': string)
    requires ':' !in op && ':' !in op' && NonceKey(op, nonce) == NonceKey(op', nonce')
    ensures op == op' && nonce == nonce'
  {
    var prefix := "api:nonce:";
    assert NonceKey(op, nonce)[|prefix|..] == Idempotency.IdempotencyKey(op, nonce);
    assert NonceKey(op', nonce')[|prefix|..] == Idempotency.IdempotencyKey(op', nonce');
    Idempotency.IdempotencyKeyInjective(op, nonce, op', nonce');
  }
}
