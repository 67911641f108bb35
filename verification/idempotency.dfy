/** The Redis idempotency barrier: how a key is bound to the request that claimed it.
    Strings are byte strings. */
module Idempotency {
  import opened Domain

  // --------------------------------------------------------------------------
  // Fingerprint pre-image
  // --------------------------------------------------------------------------

  const DIGITS := "0123456789"

  function Decimal(n: nat): string {
    if n < 10 then [DIGITS[n]] else Decimal(n / 10) + [DIGITS[n % 10]]
  }

  /** The bytes one part contributes: its length, a colon, the part, a bar. */
  function Framed(part: string): string { Decimal(|part|) + ":" + part + "|" }

  /** The bytes fed to the hash. */
  function Preimage(parts: seq<string>): string {
    if parts == [] then "" else Framed(parts[0]) + Preimage(parts[1..])
  }

  method Fingerprint(parts: seq<string>) returns (buffer: string)
    ensures buffer == Preimage(parts)
  {
    buffer := "";
    var i := 0;
    while i < |parts|
      invariant 0 <= i <= |parts|
      invariant buffer + Preimage(parts[i..]) == Preimage(parts)
    {
      assert buffer + Preimage(parts[i..]) == buffer + Framed(parts[i]) + Preimage(parts[i..][1..]);
      buffer := buffer + Framed(parts[i]);
      i := i + 1;
    }
    assert buffer + "" == buffer;
  }

  function DigitValue(c: char): int { c as int - '0' as int }

  function Numeral(s: string): int {
    if s == "" then 0 else 10 * Numeral(s[..|s| - 1]) + DigitValue(s[|s| - 1])
  }

  predicate AllDigits(s: string) { forall i :: 0 <= i < |s| ==> '0' <= s[i] <= '9' }

  lemma {:induction false} DecimalReads(n: nat)
    ensures Numeral(Decimal(n)) == n && AllDigits(Decimal(n)) && Decimal(n) != ""
  {
    if n >= 10 {
      DecimalReads(n / 10);
      assert Decimal(n)[..|Decimal(n)| - 1] == Decimal(n / 10);
    } else {
      assert [DIGITS[n]][..0] == "";
    }
  }

  /** A prefix free of the separator ends where the separator first appears. */
  lemma SplitAtFirst(a: string, x: string, b: string, y: string, sep: char)
    requires sep !in a && sep !in b && a + [sep] + x == b + [sep] + y
    ensures a == b && x == y
  {
    var s := a + [sep] + x;
    var t := b + [sep] + y;
    assert forall i :: 0 <= i < |a| ==> s[i] == a[i];
    assert forall i :: 0 <= i < |b| ==> t[i] == b[i];
    assert s[|a|] == sep && t[|b|] == sep;
    assert a == s[..|a|] && b == t[..|b|];
    assert x == s[|a| + 1..] && y == t[|b| + 1..];
  }

  lemma FramedSplits(p: string, q: string, u: string, v: string)
    requires Framed(p) + u == Framed(q) + v
    ensures p == q && u == v
  {
    DecimalReads(|p|);
    DecimalReads(|q|);
    var x, y := p + "|" + u, q + "|" + v;
    assert Framed(p) + u == Decimal(|p|) + [':'] + x;
    assert Framed(q) + v == Decimal(|q|) + [':'] + y;
    SplitAtFirst(Decimal(|p|), x, Decimal(|q|), y, ':');
    assert p == x[..|p|] && q == y[..|q|];
    assert u == x[|p| + 1..] && v == y[|q| + 1..];
  }

  /** Distinct part lists of any lengths never feed the hash the same bytes. */
  lemma {:induction false} PreimageInjective(a: seq<string>, b: seq<string>)
    requires Preimage(a) == Preimage(b)
    ensures a == b
  {
    assert a != [] ==> |Framed(a[0])| > 0;
    assert b != [] ==> |Framed(b[0])| > 0;
    if a != [] && b != [] {
      FramedSplits(a[0], b[0], Preimage(a[1..]), Preimage(b[1..]));
      PreimageInjective(a[1..], b[1..]);
      assert a == [a[0]] + a[1..] && b == [b[0]] + b[1..];
    }
  }

  /** The operator code and transaction id joined into one Redis key. */
  function IdempotencyKey(op: string, tx: string): string { op + ":" + tx }

  /** The joined key identifies the operator transaction for operator codes without a colon. */
  lemma IdempotencyKeyInjective(op: string, tx: string, op': string, tx': string)
    requires ':' !in op && ':' !in op' && IdempotencyKey(op, tx) == IdempotencyKey(op', tx')
    ensures op == op' && tx == tx'
  {
    assert IdempotencyKey(op, tx) == op + [':'] + tx;
    assert IdempotencyKey(op', tx') == op' + [':'] + tx';
    SplitAtFirst(op, tx, op', tx', ':');
  }

  /** A colon anywhere in an operator code does make two operator transactions share a key, so
      the condition can not be dropped: the key is injective from a set of operator codes
      exactly when no code in it extends another past a colon. */
  lemma IdempotencyKeyExactly(ops: set<string>)
    ensures (forall op, tx, op', tx' :: op in ops && op' in ops && IdempotencyKey(op, tx) == IdempotencyKey(op', tx')
              ==> op == op' && tx == tx')
      <==> (forall op, op' :: op in ops && op' in ops ==> !(op + ":" <= op' ))
  {
    if forall op, op' :: op in ops && op' in ops ==> !(op + ":" <= op') {
      forall op, tx, op', tx' | op in ops && op' in ops && IdempotencyKey(op, tx) == IdempotencyKey(op', tx')
        ensures op == op' && tx == tx'
      {
        var s := IdempotencyKey(op, tx);
        assert s[..|op| + 1] == op + ":" && s[..|op'| + 1] == op' + ":";
        assert op == s[..|op|] && op' == s[..|op'|];
        assert |op| < |op'| ==> op + ":" <= op';
        assert |op'| < |op| ==> op' + ":" <= op;
        assert tx == s[|op| + 1..] && tx' == s[|op'| + 1..];
      }
    } else {
      var op, op' :| op in ops && op' in ops && op + ":" <= op';
      var tail := op'[|op| + 1..];
      assert op' == op + ":" + tail;
      assert IdempotencyKey(op, tail + ":") == IdempotencyKey(op', "");
      assert |op'| > |op|;
    }
  }

  // --------------------------------------------------------------------------
  // The stored value
  // --------------------------------------------------------------------------

  const PROCESSING := "PROCESSING"
  const SEPARATOR := '|'

  datatype Decision = Acquired | Pending | Cached(payload: string) | Mismatch

  /** Position of the first separator, or the length when there is none. */
  function FindSeparator(s: string): nat {
    if s == "" || s[0] == SEPARATOR then 0 else 1 + FindSeparator(s[1..])
  }

  lemma {:induction false} FindSeparatorIs(fp: string, rest: string)
    requires SEPARATOR !in fp
    ensures FindSeparator(fp + [SEPARATOR] + rest) == |fp|
  {
    var s := fp + [SEPARATOR] + rest;
    if fp != "" {
      assert s[1..] == fp[1..] + [SEPARATOR] + rest;
      FindSeparatorIs(fp[1..], rest);
    }
  }

  /** What the acquire script answers for the value it finds. */
  function Decide(existing: Option<string>, fp: string): Decision {
    match existing
    case None => Acquired
    case Some(value) =>
      var sep := FindSeparator(value);
      if sep >= |value| then Mismatch
      else if value[..sep] != fp then Mismatch
      else if value[sep + 1..] == PROCESSING then Pending
      else Cached(value[sep + 1..])
  }

  function Stored(fp: string, rest: string): string { fp + [SEPARATOR] + rest }

  /** The stored value splits back to exactly what was written, whatever the payload holds. */
  lemma DecideExact(owner: string, rest: string, fp: string)
    requires SEPARATOR !in owner
    ensures Decide(Some(Stored(owner, rest)), fp) ==
      if owner != fp then Mismatch else if rest == PROCESSING then Pending else Cached(rest)
  {
    FindSeparatorIs(owner, rest);
    var value := Stored(owner, rest);
    assert value[..|owner|] == owner && value[|owner| + 1..] == rest;
  }

  /** A keyed value with its deadline, the last instant it is still there. */
  datatype Timed = Timed(value: string, deadline: int)

  function Live(store: map<string, Timed>, key: string, now: int): Option<string> {
    if key in store && now <= store[key].deadline then Some(store[key].value) else None
  }

  function AcquireStore(store: map<string, Timed>, key: string, fp: string, now: int, ttl: int): map<string, Timed> {
    if Decide(Live(store, key, now), fp).Acquired? then store[key := Timed(Stored(fp, PROCESSING), now + ttl)] else store
  }

  function StoreStore(store: map<string, Timed>, key: string, fp: string, payload: string, now: int, ttl: int): map<string, Timed> {
    if Live(store, key, now).Some? then store[key := Timed(Stored(fp, payload), now + ttl)] else store
  }

  /** What a claim by `who` at `u` is answered: after a successful claim by `fp`, in flight to its owner
      and a mismatch to anyone else until the marker lapses; after a stored reply, the reply or a
      mismatch until that lapses; after a release, nothing is in the way. */
  lemma BarrierAnswers(s: map<string, Timed>, key: string, fp: string, payload: string, t: int, ttl: int, who: string, u: int)
    requires SEPARATOR !in fp
    ensures Decide(Live(s, key, t), fp).Acquired? ==>
      Decide(Live(AcquireStore(s, key, fp, t, ttl), key, u), who) == if u > t + ttl then Acquired else if who == fp then Pending else Mismatch
    ensures Live(s, key, t).Some? && payload != PROCESSING ==>
      Decide(Live(StoreStore(s, key, fp, payload, t, ttl), key, u), who) ==
        if u > t + ttl then Acquired else if who == fp then Cached(payload) else Mismatch
    ensures Live(s, key, t).None? ==> StoreStore(s, key, fp, payload, t, ttl) == s
    ensures Decide(Live(s - {key}, key, u), who) == Acquired
    ensures forall k :: k != key ==>
      && Live(AcquireStore(s, key, fp, t, ttl), k, u) == Live(s, k, u) && Live(StoreStore(s, key, fp, payload, t, ttl), k, u) == Live(s, k, u)
      && Live(s - {key}, k, u) == Live(s, k, u)
  {
    DecideExact(fp, PROCESSING, who);
    DecideExact(fp, payload, who);
  }

  function AtLeastOne(ms: int): int { if ms < 1 then 1 else ms }

  class Redis {
    var store: map<string, Timed>
    const lockTTL: int
    const cacheTTL: int

    constructor (lock: int, cache: int)
      ensures store == map[] && lockTTL == lock && cacheTTL == cache
    {
      store, lockTTL, cacheTTL := map[], lock, cache;
    }

    method Acquire(key: string, fp: string, now: int) returns (ok: bool, r: Decision)
      modifies this
      ensures ok <==> key != "" && fp != ""
      ensures ok ==> r == Decide(Live(old(store), key, now), fp)
      ensures store == if ok then AcquireStore(old(store), key, fp, now, AtLeastOne(lockTTL)) else old(store)
    {
      if key == "" || fp == "" {
        return false, Mismatch;
      }
      var ttl := lockTTL;
      if ttl < 1 { ttl := 1; }
      var existing := Live(store, key, now);
      if existing.None? {
        store := store[key := Timed(fp + [SEPARATOR] + PROCESSING, now + ttl)];
        return true, Acquired;
      }
      var sep := FindSeparator(existing.value);
      if sep >= |existing.value| {
        return true, Mismatch;
      }
      if existing.value[..sep] != fp {
        return true, Mismatch;
      }
      var rest := existing.value[sep + 1..];
      if rest == PROCESSING {
        return true, Pending;
      }
      return true, Cached(rest);
    }

    /** SET XX: overwrites whatever value the key holds, this caller's marker or not. */
    method Store(key: string, fp: string, payload: string, now: int) returns (ok: bool)
      modifies this
      ensures ok <==> key != "" && fp != "" && payload != ""
      ensures store == if ok then StoreStore(old(store), key, fp, payload, now, cacheTTL) else old(store)
    {
      if key == "" || fp == "" || payload == "" {
        return false;
      }
      if Live(store, key, now).Some? {
        store := store[key := Timed(fp + [SEPARATOR] + payload, now + cacheTTL)];
      }
      return true;
    }

    method Release(key: string) returns (ok: bool)
      modifies this
      ensures ok <==> key != ""
      ensures store == if ok then old(store) - {key} else old(store)
    {
      if key == "" {
        return false;
      }
      store := store - {key};
      return true;
    }
  }

  // --------------------------------------------------------------------------
  // Binding over whole runs
  // --------------------------------------------------------------------------

  /** One call on the barrier.  `at` is its time; calls of a run may come from any callers. */
  datatype Call =
    | AcquireCall(key: string, fp: string, at: int, ttl: int)
    | StoreCall(key: string, fp: string, payload: string, at: int, ttl: int)
    | ReleaseCall(key: string)

  function After(store: map<string, Timed>, calls: seq<Call>): map<string, Timed> {
    if calls == [] then store
    else
      var s := After(store, calls[..|calls| - 1]);
      match calls[|calls| - 1]
      case AcquireCall(key, fp, at, ttl) => AcquireStore(s, key, fp, at, ttl)
      case StoreCall(key, fp, payload, at, ttl) => StoreStore(s, key, fp, payload, at, ttl)
      case ReleaseCall(key) => s - {key}
  }

  predicate HexFingerprints(calls: seq<Call>) {
    forall i :: 0 <= i < |calls| && !calls[i].ReleaseCall? ==> SEPARATOR !in calls[i].fp
  }

  predicate WasStored(calls: seq<Call>, key: string, fp: string, payload: string) {
    exists i :: 0 <= i < |calls| && calls[i].StoreCall?
      && calls[i].key == key && calls[i].fp == fp && calls[i].payload == payload
  }

  ghost predicate Explained(calls: seq<Call>, key: string, value: string) {
    exists fp, rest :: SEPARATOR !in fp && value == Stored(fp, rest)
      && (rest == PROCESSING || WasStored(calls, key, fp, rest))
  }

  lemma ExplainedGrows(calls: seq<Call>, more: seq<Call>, key: string, value: string)
    requires Explained(calls, key, value)
    ensures Explained(calls + more, key, value)
  {
    var fp, rest :| SEPARATOR !in fp && value == Stored(fp, rest)
      && (rest == PROCESSING || WasStored(calls, key, fp, rest));
    if rest != PROCESSING {
      var i :| 0 <= i < |calls| && calls[i].StoreCall?
        && calls[i].key == key && calls[i].fp == fp && calls[i].payload == rest;
      assert (calls + more)[i] == calls[i];
      assert WasStored(calls + more, key, fp, rest);
    }
  }

  lemma {:induction false} EveryValueExplained(calls: seq<Call>)
    requires HexFingerprints(calls)
    ensures forall key :: key in After(map[], calls) ==> Explained(calls, key, After(map[], calls)[key].value)
  {
    if calls != [] {
      var n := |calls| - 1;
      var init, last := calls[..n], calls[n];
      EveryValueExplained(init);
      var s, s' := After(map[], init), After(map[], calls);
      assert calls == init + [last];
      forall key | key in s' ensures Explained(calls, key, s'[key].value) {
        if key in s && s'[key] == s[key] {
          ExplainedGrows(init, [last], key, s[key].value);
        } else {
          var rest := if last.AcquireCall? then PROCESSING else last.payload;
          assert s'[key].value == Stored(last.fp, rest);
          assert last.StoreCall? ==> calls[n].StoreCall? && calls[n].key == key && calls[n].fp == last.fp && calls[n].payload == rest;
        }
      }
    }
  }

  /** Over any run of acquires, stores and releases by any callers, a cached payload is only
      ever served to the fingerprint whose request stored it. */
  lemma CachedRepliesAreBound(calls: seq<Call>, key: string, fp: string, now: int)
    requires HexFingerprints(calls) && Decide(Live(After(map[], calls), key, now), fp).Cached?
    ensures WasStored(calls, key, fp, Decide(Live(After(map[], calls), key, now), fp).payload)
  {
    EveryValueExplained(calls);
    var value := After(map[], calls)[key].value;
    var owner, rest :| SEPARATOR !in owner && value == Stored(owner, rest)
      && (rest == PROCESSING || WasStored(calls, key, owner, rest));
    DecideExact(owner, rest, fp);
  }

  /** The barrier alone is not mutual exclusion: two claims of one key both succeed when the
      marker lapses, and also when a third party's release removes it. */
  lemma BarrierIsNotMutex(key: string, a: string, b: string, ttl: int)
    requires ttl > 0
    ensures var s := After(map[], [AcquireCall(key, a, 0, ttl)]);
      && Decide(Live(map[], key, 0), a).Acquired?
      && Decide(Live(s, key, ttl + 1), b).Acquired?
      && Decide(Live(s - {key}, key, 0), b).Acquired?
  {
    assert [AcquireCall(key, a, 0, ttl)][..0] == [];
  }
}
