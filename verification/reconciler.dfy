/** The audit sweep: page through the wallets by key, re-derive each balance from the ledger, and
    count the disagreements. */
module Reconciler {
  import opened Domain
  import opened Ledger
  import opened Protocol
  import opened Guarantees

  datatype Pair = Pair(player: Player, currency: Currency)

  predicate Disagrees(db: Db, k: Pair) {
    k.player in db.wallets && db.wallets[k.player].BalanceFor(k.currency) != Sum(db.rows, k.player, k.currency)
  }

  /** Every (player, currency) whose wallet column is not its ledger balance. */
  function Disagreements(db: Db, players: set<Player>): set<Pair> {
    set p, c | p in players && c in {GC, SCUnplayed, SCRedeemable} && Disagrees(db, Pair(p, c)) :: Pair(p, c)
  }

  /** The primary-key index: each wallet's player once, in ascending order. */
  ghost predicate IsIndex(index: seq<Player>, wallets: map<Player, Wallet>) {
    && Sorted(index)
    && (forall p :: p in index <==> p in wallets)
  }

  /** The first n players of the index are the ones up to the cursor. */
  predicate SplitsAt(index: seq<Player>, cursor: Player, n: nat) {
    n <= |index| && forall i :: 0 <= i < |index| ==> (i < n <==> index[i] <= cursor)
  }

  lemma SameSplit(index: seq<Player>, cursor: Player, m: nat, n: nat)
    requires SplitsAt(index, cursor, m) && SplitsAt(index, cursor, n)
    ensures m == n
  {
    var k := if m < n then m else n;
    assert k < |index| ==> (k < m <==> index[k] <= cursor);
  }

  function Elements(s: seq<Player>): set<Player> { set p | p in s }

  class Reconciler {
    const db: Db
    const index: seq<Player>
    const batchSize: nat

    constructor (db: Db, index: seq<Player>, batchSize: nat)
      requires IsIndex(index, db.wallets) && batchSize > 0
      ensures this.db == db && this.index == index && this.batchSize == batchSize
    {
      this.db, this.index, this.batchSize := db, index, batchSize;
    }

    ghost predicate Valid() { IsIndex(index, db.wallets) && batchSize > 0 }

    /** The next batchSize players after the cursor. */
    method FetchBatch(cursor: Player) returns (ids: seq<Player>, ghost from: nat)
      requires Valid()
      ensures from + |ids| <= |index| && ids == index[from..from + |ids|]
      ensures SplitsAt(index, cursor, from)
      ensures |ids| < batchSize ==> from + |ids| == |index|
      ensures |ids| <= batchSize
    {
      var i := 0;
      while i < |index| && index[i] <= cursor
        invariant 0 <= i <= |index| && forall j :: 0 <= j < i ==> index[j] <= cursor
      {
        i := i + 1;
      }
      from := i;
      var end := if i + batchSize < |index| then i + batchSize else |index|;
      ids := index[i..end];
    }

    /** How many of the batch's pairs disagree. */
    method AuditBatch(ids: seq<Player>) returns (count: nat)
      requires Sorted(ids)
      ensures count == |Disagreements(db, Elements(ids))|
    {
      count := 0;
      assert Disagreements(db, Elements(ids[..0])) == {};
      for i := 0 to |ids|
        invariant count == |Disagreements(db, Elements(ids[..i]))|
      {
        AuditOne(db, ids[..i], ids[i]);
        assert ids[..i + 1] == ids[..i] + [ids[i]];
        if Disagrees(db, Pair(ids[i], GC)) { count := count + 1; }
        if Disagrees(db, Pair(ids[i], SCUnplayed)) { count := count + 1; }
        if Disagrees(db, Pair(ids[i], SCRedeemable)) { count := count + 1; }
      }
      assert ids[..|ids|] == ids;
    }

    /** Audits every player above the nil id exactly once, in order, whatever the batch size, and
        counts exactly the pairs that disagree. */
    method Sweep() returns (players: nat, mismatches: nat, ghost audited: seq<Player>)
      requires Valid()
      ensures Elements(audited) == db.wallets.Keys - {NIL}
      ensures Sorted(audited)
      ensures players == |audited| && mismatches == |Disagreements(db, db.wallets.Keys - {NIL})|
    {
      players, mismatches, audited := 0, 0, [];
      var cursor := NIL;
      ghost var first, at := SweepStarts(db, index);
      while true
        invariant Progress(db, index, first, at, audited, players, mismatches) && SplitsAt(index, cursor, at)
        decreases |index| - at
      {
        var ids, from := FetchBatch(cursor);
        SameSplit(index, cursor, from, at);
        if |ids| == 0 {
          AllAudited(db, index, first, at, audited, players, mismatches);
          return;
        }
        players := players + |ids|;
        cursor := ids[|ids| - 1];
        SubIndexSorted(index, at, |ids|);
        var n := AuditBatch(ids);
        BatchDone(db, index, first, at, audited, ids, players - |ids|, mismatches, n);
        mismatches := mismatches + n;
        audited := audited + ids;
        at := at + |ids|;
        if |ids| < batchSize {
          AllAudited(db, index, first, at, audited, players, mismatches);
          return;
        }
      }
    }
  }

  ghost predicate Sorted(s: seq<Player>) { forall i, j :: 0 <= i < j < |s| ==> s[i] < s[j] }

  /** The sweep has audited the players at positions first..at. */
  ghost predicate Progress(db: Db, index: seq<Player>, first: nat, at: nat, audited: seq<Player>, players: nat, mismatches: nat) {
    && IsIndex(index, db.wallets) && SplitsAt(index, NIL, first)
    && first <= at <= |index| && audited == index[first..at]
    && players == |audited| && mismatches == |Disagreements(db, Elements(audited))|
  }

  lemma SweepStarts(db: Db, index: seq<Player>) returns (first: nat, at: nat)
    requires IsIndex(index, db.wallets)
    ensures first == at && SplitsAt(index, NIL, at) && Progress(db, index, first, at, [], 0, 0)
  {
    first := if |index| > 0 && index[0] == NIL then 1 else 0;
    at := first;
    assert Disagreements(db, Elements([])) == {};
  }

  lemma SubIndexSorted(index: seq<Player>, at: nat, n: nat)
    requires at + n <= |index| && Sorted(index)
    ensures Sorted(index[at..at + n])
    ensures n > 0 ==> SplitsAt(index, index[at + n - 1], at + n)
  {
  }

  lemma BatchDone(db: Db, index: seq<Player>, first: nat, at: nat, audited: seq<Player>, ids: seq<Player>,
                  players: nat, mismatches: nat, n: nat)
    requires Progress(db, index, first, at, audited, players, mismatches)
    requires at + |ids| <= |index| && ids == index[at..at + |ids|] && n == |Disagreements(db, Elements(ids))|
    ensures Progress(db, index, first, at + |ids|, audited + ids, players + |ids|, mismatches + n)
  {
    var end := at + |ids|;
    assert index[first..at] + ids == index[first..end];
    var x, y := Disagreements(db, Elements(audited)), Disagreements(db, Elements(ids));
    assert Disagreements(db, Elements(audited + ids)) == x + y;
    forall i, j | 0 <= i < |audited| && 0 <= j < |ids| ensures audited[i] != ids[j] {
      assert index[first + i] == audited[i] && index[at + j] == ids[j];
    }
    assert x !! y;
  }

  /** One player's disagreements. */
  function Own(db: Db, p: Player): set<Pair> {
    (if Disagrees(db, Pair(p, GC)) then {Pair(p, GC)} else {})
    + (if Disagrees(db, Pair(p, SCUnplayed)) then {Pair(p, SCUnplayed)} else {})
    + (if Disagrees(db, Pair(p, SCRedeemable)) then {Pair(p, SCRedeemable)} else {})
  }

  function Bit(b: bool): nat { if b then 1 else 0 }

  lemma OwnCount(db: Db, p: Player)
    ensures |Own(db, p)| ==
      Bit(Disagrees(db, Pair(p, GC))) + Bit(Disagrees(db, Pair(p, SCUnplayed))) + Bit(Disagrees(db, Pair(p, SCRedeemable)))
  {
  }

  lemma DisagreementsSplit(db: Db, players: set<Player>, p: Player)
    ensures Disagreements(db, players + {p}) == Disagreements(db, players) + Own(db, p)
  {
    forall k: Pair ensures k in Disagreements(db, players + {p}) <==> k in Disagreements(db, players) || k in Own(db, p) {
      assert k in Own(db, p) <==> k.player == p && Disagrees(db, k);
    }
  }

  lemma AuditOne(db: Db, before: seq<Player>, p: Player)
    requires p !in before
    ensures |Disagreements(db, Elements(before + [p]))| == |Disagreements(db, Elements(before))| +
      Bit(Disagrees(db, Pair(p, GC))) + Bit(Disagrees(db, Pair(p, SCUnplayed))) + Bit(Disagrees(db, Pair(p, SCRedeemable)))
  {
    assert Elements(before + [p]) == Elements(before) + {p};
    DisagreementsSplit(db, Elements(before), p);
    OwnCount(db, p);
    assert Disagreements(db, Elements(before)) !! Own(db, p);
  }

  lemma AllAudited(db: Db, index: seq<Player>, first: nat, at: nat, audited: seq<Player>, players: nat, mismatches: nat)
    requires Progress(db, index, first, at, audited, players, mismatches) && at == |index|
    ensures Elements(audited) == db.wallets.Keys - {NIL} && Sorted(audited)
  {
    forall p | p in db.wallets && p != NIL ensures p in audited {
      var i :| 0 <= i < |index| && index[i] == p;
      assert audited[i - first] == p;
    }
    forall p | p in audited ensures p in db.wallets && p != NIL {
      var i :| 0 <= i < |audited| && audited[i] == p;
      assert index[first + i] == p;
    }
    SubIndexSorted(index, first, |index| - first);
  }

  /** A sweep over any state the engine can reach finds nothing. */
  lemma ReachableStatesAreClean(s: State)
    requires Reachable(s)
    ensures Disagreements(s.db, s.db.wallets.Keys) == {}
  {
    WalletIsLedger(s);
  }

  /** A sweep that finds nothing proves the wallet cache equals the ledger, and one that does names
      a real divergence. */
  lemma SweepFindsExactly(db: Db, players: set<Player>)
    requires players <= db.wallets.Keys
    ensures |Disagreements(db, players)| == 0 <==>
      forall p, c: Currency :: p in players ==> db.wallets[p].BalanceFor(c) == Sum(db.rows, p, c)
  {
    if |Disagreements(db, players)| == 0 {
      forall p, c: Currency | p in players ensures db.wallets[p].BalanceFor(c) == Sum(db.rows, p, c) {
        assert Pair(p, c) !in Disagreements(db, players);
      }
    } else {
      var k :| k in Disagreements(db, players);
    }
  }
}
