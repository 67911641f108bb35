/** What the money protocol guarantees in every reachable state. */
module Guarantees {
  import opened Domain
  import opened Ledger
  import opened LedgerFacts
  import opened Protocol
  import opened ProtocolSafety
  import opened Retention
  import Idempotency
  import Game

  // --------------------------------------------------------------------------
  // Exactly once
  // --------------------------------------------------------------------------

  lemma {:induction false} KeyCountFinds(rows: seq<Row>, k: Key, i: nat)
    requires i < |rows| && rows[i].key == k
    ensures KeyCount(rows, k) >= 1
    decreases |rows|
  {
    if i < |rows| - 1 { KeyCountFinds(rows[..|rows| - 1], k, i); }
  }

  lemma {:induction false} KeyCountPair(rows: seq<Row>, k: Key, i: nat, j: nat)
    requires i < j < |rows| && rows[i].key == k && rows[j].key == k
    ensures KeyCount(rows, k) >= 2
    decreases |rows|
  {
    if j < |rows| - 1 { KeyCountPair(rows[..|rows| - 1], k, i, j); } else { KeyCountFinds(rows[..|rows| - 1], k, i); }
  }

  /** A key counted at most once names at most one row. */
  lemma UniqueRow(rows: seq<Row>, k: Key, i: nat, j: nat)
    requires KeyCount(rows, k) <= 1 && i < |rows| && j < |rows| && rows[i].key == k && rows[j].key == k
    ensures i == j
  {
    if i < j { KeyCountPair(rows, k, i, j); }
    if j < i { KeyCountPair(rows, k, j, i); }
  }

  /** In every reachable state, each operator transaction has been committed exactly once per
      pruned anchor plus once if its anchor stands, and a key that no call outlives names at most
      one ledger transaction. */
  lemma ExactlyOnce(s: State, k: Key)
    requires Reachable(s)
    ensures KeyCount(s.db.rows, k) == Prunes(s, k) + if k in s.db.dedup then 1 else 0
    ensures TimelyRun(s, k) ==>
      forall i, j :: 0 <= i < |s.db.rows| && 0 <= j < |s.db.rows| && s.db.rows[i].key == k && s.db.rows[j].key == k ==> i == j
    ensures k in s.db.dedup ==> s.db.dedup[k] < |s.db.rows| && s.db.rows[s.db.dedup[k]].key == k
  {
    ReachableInv(s);
    if TimelyRun(s, k) {
      OnceOnly(s, k);
      forall i, j | 0 <= i < |s.db.rows| && 0 <= j < |s.db.rows| && s.db.rows[i].key == k && s.db.rows[j].key == k
        ensures i == j
      {
        UniqueRow(s.db.rows, k, i, j);
      }
    }
  }

  /** Every success reply ever given reports a committed ledger transaction of that player.  A
      fresh or recovered reply reports the very request; a cached one reports a request under
      the same Redis key, which is the same operator transaction when operator codes carry no
      colon. */
  lemma SuccessIsBacked(s: State, id: nat)
    requires Reachable(s) && id in s.procs && s.procs[id].pc.Replied?
    ensures var req, pc := s.procs[id].req, s.procs[id].pc;
      && Backed(s.db.rows, pc.payload) && pc.payload.player == req.player
      && (pc.status != CachedReply ==> Answers(req, pc.payload))
      && (':' !in req.op && ':' !in pc.payload.key.op ==> pc.payload.key == RequestKey(req))
  {
    ReachableInv(s);
    var req, pc := s.procs[id].req, s.procs[id].pc;
    assert ProcOk(s.db, s.procs[id]);
    if pc.status == CachedReply && ':' !in req.op && ':' !in pc.payload.key.op {
      Idempotency.IdempotencyKeyInjective(pc.payload.key.op, pc.payload.key.tx, req.op, req.tx);
    }
  }

  // --------------------------------------------------------------------------
  // Wallet cache and ledger
  // --------------------------------------------------------------------------

  /** In every reachable state each wallet column is non-negative and is the signed sum of its
      ledger lines, and every ledger transaction balances per currency. */
  lemma WalletIsLedger(s: State)
    requires Reachable(s)
    ensures forall p, c: Currency :: p in s.db.wallets ==>
      s.db.wallets[p].BalanceFor(c) == Sum(s.db.rows, p, c) && s.db.wallets[p].BalanceFor(c) >= 0
    ensures forall i, c: Currency :: 0 <= i < |s.db.rows| ==> Imbalance(s.db.rows[i].entries, c) == 0
  {
    ReachableInv(s);
    forall i, c: Currency | 0 <= i < |s.db.rows| ensures Imbalance(s.db.rows[i].entries, c) == 0 {
      RowsOkAt(s.db.rows, i);
    }
  }

  /** Whoever holds a player's row lock is alone, and its snapshot is the committed wallet. */
  lemma LockHolderSeesCommitted(s: State, id: nat)
    requires Reachable(s) && id in s.procs && s.procs[id].HoldsLock()
    ensures s.procs[id].req.player in s.db.wallets && s.db.wallets[s.procs[id].req.player] == s.procs[id].pc.snap
    ensures forall j :: j in s.procs && j != id && s.procs[j].HoldsLock() ==> s.procs[j].req.player != s.procs[id].req.player
  {
    ReachableInv(s);
    assert ProcOk(s.db, s.procs[id]);
    forall j | j in s.procs && j != id && s.procs[j].HoldsLock() ensures s.procs[j].req.player != s.procs[id].req.player {
      assert Apart(s.procs[id], s.procs[j]);
    }
  }

  predicate Touches(r: Row, p: Player, c: Currency) {
    r.player == p && exists i :: 0 <= i < |r.entries| && r.entries[i].account == PlayerWallet && r.entries[i].currency == c
  }

  lemma {:induction false} UntouchedNet(entries: seq<Entry>, c: Currency)
    requires forall i :: 0 <= i < |entries| ==> entries[i].account != PlayerWallet || entries[i].currency != c
    ensures Net(entries, c) == 0
  {
    if entries != [] { UntouchedNet(entries[1..], c); }
  }

  lemma {:induction false} UntouchedTail(rows: seq<Row>, n: nat, p: Player, c: Currency)
    requires n <= |rows| && forall j :: n <= j < |rows| ==> !Touches(rows[j], p, c)
    ensures Sum(rows, p, c) == Sum(rows[..n], p, c)
    decreases |rows|
  {
    if n < |rows| {
      var m := |rows| - 1;
      assert rows[..m][..n] == rows[..n];
      UntouchedTail(rows[..m], n, p, c);
      if rows[m].player == p {
        forall i | 0 <= i < |rows[m].entries|
          ensures rows[m].entries[i].account != PlayerWallet || rows[m].entries[i].currency != c
        {
          assert !Touches(rows[m], p, c);
        }
        UntouchedNet(rows[m].entries, c);
      }
    } else {
      assert rows[..n] == rows;
    }
  }

  lemma LineRecordsSum(rows: seq<Row>, p: Player, c: Currency, i: nat, e: nat)
    requires RowsOk(rows) && i < |rows| && rows[i].player == p && e < |rows[i].entries|
    requires rows[i].entries[e].account == PlayerWallet && rows[i].entries[e].currency == c
    requires forall j :: i < j < |rows| ==> !Touches(rows[j], p, c)
    ensures rows[i].entries[e].balanceAfter == Some(Sum(rows, p, c))
  {
    UntouchedTail(rows, i + 1, p, c);
    assert rows[..i + 1] == rows[..i] + [rows[i]];
    SumSnoc(rows[..i], rows[i], p, c);
    TrailAt(rows, i, e);
  }

  lemma TrailAt(rows: seq<Row>, i: nat, e: nat)
    requires RowsOk(rows) && i < |rows| && e < |rows[i].entries| && rows[i].entries[e].account == PlayerWallet
    ensures var r := rows[i];
      r.entries[e].balanceAfter == Some(Sum(rows[..i], r.player, r.entries[e].currency) + Net(r.entries, r.entries[e].currency))
  {
    RowsOkAt(rows, i);
  }

  /** The newest ledger line of a player in a currency records the current wallet column. */
  lemma NewestLineIsBalance(s: State, p: Player, c: Currency, i: nat, e: nat)
    requires Reachable(s) && p in s.db.wallets && i < |s.db.rows| && s.db.rows[i].player == p
    requires e < |s.db.rows[i].entries| && s.db.rows[i].entries[e].account == PlayerWallet && s.db.rows[i].entries[e].currency == c
    requires forall j :: i < j < |s.db.rows| ==> !Touches(s.db.rows[j], p, c)
    ensures s.db.rows[i].entries[e].balanceAfter == Some(s.db.wallets[p].BalanceFor(c))
  {
    ReachableInv(s);
    LineRecordsSum(s.db.rows, p, c, i, e);
    assert s.db.wallets[p].BalanceFor(c) == Sum(s.db.rows, p, c);
  }

  // --------------------------------------------------------------------------
  // Reversals
  // --------------------------------------------------------------------------

  predicate IsReversalOf(r: Row, b: nat) { r.kind == Rollback && r.reference == Some(b) }

  /** A ROLLBACK references a BET of its own player and credits exactly what that BET debited;
      all ROLLBACKs of one BET share one key, so a BET whose rollback calls do not outlive
      their anchor is reversed at most once. */
  lemma ReversedAtMostOnce(s: State, b: nat, i: nat, j: nat)
    requires Reachable(s) && i < |s.db.rows| && j < |s.db.rows|
    requires IsReversalOf(s.db.rows[i], b) && IsReversalOf(s.db.rows[j], b)
    ensures b < i && s.db.rows[b].kind == Bet && s.db.rows[b].player == s.db.rows[i].player
    ensures forall c: Currency :: Net(s.db.rows[i].entries, c) == -Net(s.db.rows[b].entries, c)
    ensures s.db.rows[i].key == s.db.rows[j].key
    ensures TimelyRun(s, s.db.rows[i].key) ==> i == j
  {
    ReachableInv(s);
    var rows := s.db.rows;
    RowsOkAt(rows, i);
    RowsOkAt(rows, j);
    assert i < j ==> !IsOtherRollback(rows[..j][i], b, rows[j].key);
    assert j < i ==> !IsOtherRollback(rows[..i][j], b, rows[i].key);
    if TimelyRun(s, rows[i].key) {
      OnceOnly(s, rows[i].key);
      UniqueRow(rows, rows[i].key, i, j);
    }
  }

  lemma RollbackReplans(s: State, req: Request, snap: Wallet, i: nat, g: Guards, drawn: Game.Outcome)
    requires Reachable(s) && i < |s.db.rows| && s.db.rows[i].kind == Rollback && s.db.rows[i].player == req.player
    requires req.body == RollbackBody(s.db.rows[i].reference) && RequestKey(req) == s.db.rows[i].key
    ensures Plan(s.db.rows, snap, req, g, drawn).Ok?
    ensures KeysOf(Plan(s.db.rows, snap, req, g, drawn).value) == {s.db.rows[i].key}
  {
    ReachableInv(s);
    var rows, key := s.db.rows, s.db.rows[i].key;
    RowsOkAt(rows, i);
    var b := rows[i].reference.value;
    RowsOkAt(rows, b);
    assert rows[..i][b] == rows[b];
    forall j | 0 <= j < |rows| ensures !IsOtherRollback(rows[j], b, key) {
      if IsReversalOf(rows[j], b) { ReversedAtMostOnce(s, b, i, j); }
    }
    var leg := PlanRollback(rows, key, req.player, req.meta, snap, b).value;
    assert Plan(rows, snap, req, g, drawn) == Ok([leg]);
    assert [leg][0].key in KeysOf([leg]);
    assert KeysOf([leg]) == {key};
  }

  /** A retry of a committed rollback under its own id is planned like the first time.  While
      the anchor stands it meets the anchor and is recovered as success, never refused as
      already rolled back; once the anchor is pruned it settles a second time. */
  lemma RollbackRetry(s: State, id: nat, i: nat, g: Guards, drawn: Game.Outcome)
    requires Reachable(s) && id in s.procs && s.procs[id].pc.Locked?
    requires i < |s.db.rows| && s.db.rows[i].kind == Rollback && s.db.rows[i].player == s.procs[id].req.player
    requires s.procs[id].req.body == RollbackBody(s.db.rows[i].reference) && RequestKey(s.procs[id].req) == s.db.rows[i].key
    requires KeysFree(s, id, {s.db.rows[i].key})
    ensures Exec(s, Stage(id, g, drawn)).Some?
    ensures var s' := Exec(s, Stage(id, g, drawn)).value;
      if s.db.rows[i].key in s.db.dedup then
        s' == At(s, id, Conflict) && Exec(s', Recover(id, i)) ==
          Some(At(s', id, Finishing(GhostRecovered, Receipt(s.procs[id].req, i, s.db.rows[i].meta, []))))
      else
        s'.procs[id].pc.Staged?
  {
    var p := s.procs[id];
    RollbackReplans(s, p.req, p.pc.snap, i, g, drawn);
    assert Exec(s, Stage(id, g, drawn)) == ExecProc(s, Stage(id, g, drawn), p);
    if s.db.rows[i].key in s.db.dedup {
      var s' := At(s, id, Conflict);
      assert Exec(s, Stage(id, g, drawn)) == Some(s');
      assert Exec(s', Recover(id, i)) == ExecProc(s', Recover(id, i), s'.procs[id]);
    }
  }

  // --------------------------------------------------------------------------
  // Redeemable coins come from winning
  // --------------------------------------------------------------------------

  /** Sum of the player's SC_REDEEMABLE movements over one kind of transaction. */
  function Redeemable(rows: seq<Row>, p: Player, kind: Kind): Money {
    if rows == [] then 0
    else
      var last := rows[|rows| - 1];
      Redeemable(rows[..|rows| - 1], p, kind) + if last.player == p && last.kind == kind then Net(last.entries, SCRedeemable) else 0
  }

  lemma {:induction false} RedeemableByKind(rows: seq<Row>, p: Player)
    requires RowsOk(rows)
    ensures Sum(rows, p, SCRedeemable) ==
      Redeemable(rows, p, Win) + Redeemable(rows, p, Rollback) + Redeemable(rows, p, Bet) + Redeemable(rows, p, Withdrawal)
    decreases |rows|
  {
    if rows != [] {
      RedeemableByKind(rows[..|rows| - 1], p);
      assert RowGood(rows[..|rows| - 1], rows[|rows| - 1]);
    }
  }

  /** What the BETs in `refs` staked in SC_REDEEMABLE, among the first n rows. */
  function StakeIn(rows: seq<Row>, n: nat, p: Player, refs: set<nat>): Money
    requires n <= |rows|
  {
    if n == 0 then 0
    else
      StakeIn(rows, n - 1, p, refs)
      + if n - 1 in refs && rows[n - 1].kind == Bet && rows[n - 1].player == p then -Net(rows[n - 1].entries, SCRedeemable) else 0
  }

  lemma {:induction false} StakeInAdd(rows: seq<Row>, n: nat, p: Player, refs: set<nat>, b: nat)
    requires n <= |rows| && b !in refs && b < |rows| && rows[b].kind == Bet && rows[b].player == p
    ensures StakeIn(rows, n, p, refs + {b}) ==
      StakeIn(rows, n, p, refs) + if b < n then -Net(rows[b].entries, SCRedeemable) else 0
  {
    if n > 0 { StakeInAdd(rows, n - 1, p, refs, b); }
  }

  lemma {:induction false} StakeInAtMostAll(rows: seq<Row>, n: nat, p: Player, refs: set<nat>)
    requires RowsOk(rows) && n <= |rows|
    ensures StakeIn(rows, n, p, refs) <= -Redeemable(rows[..n], p, Bet)
  {
    if n > 0 {
      StakeInAtMostAll(rows, n - 1, p, refs);
      RowsOkAt(rows, n - 1);
      assert rows[..n][..n - 1] == rows[..n - 1];
    }
  }

  function RefsOf(rows: seq<Row>, n: nat, p: Player): set<nat>
    requires n <= |rows|
  {
    set i | 0 <= i < n && rows[i].kind == Rollback && rows[i].player == p && rows[i].reference.Some? :: rows[i].reference.value
  }

  ghost predicate ReversalsDistinct(rows: seq<Row>) {
    forall i, j, b :: 0 <= i < |rows| && 0 <= j < |rows| && IsReversalOf(rows[i], b) && IsReversalOf(rows[j], b) ==> i == j
  }

  lemma {:induction false} ReversedIsStakeIn(rows: seq<Row>, n: nat, p: Player)
    requires RowsOk(rows) && ReversalsDistinct(rows) && n <= |rows|
    ensures Redeemable(rows[..n], p, Rollback) == StakeIn(rows, |rows|, p, RefsOf(rows, n, p))
  {
    if n == 0 {
      StakeInNone(rows, |rows|, p);
      assert RefsOf(rows, 0, p) == {};
    } else {
      ReversedIsStakeIn(rows, n - 1, p);
      assert rows[..n][..n - 1] == rows[..n - 1];
      OneMoreReversal(rows, n - 1, p);
    }
  }

  /** A reversal adds its own BET's stake to those already reversed; any other row adds nothing. */
  lemma OneMoreReversal(rows: seq<Row>, i: nat, p: Player)
    requires RowsOk(rows) && ReversalsDistinct(rows) && i < |rows|
    ensures StakeIn(rows, |rows|, p, RefsOf(rows, i + 1, p)) == StakeIn(rows, |rows|, p, RefsOf(rows, i, p)) +
      if rows[i].player == p && rows[i].kind == Rollback then Net(rows[i].entries, SCRedeemable) else 0
  {
    var before := RefsOf(rows, i, p);
    if rows[i].kind == Rollback && rows[i].player == p {
      RowsOkAt(rows, i);
      var b := rows[i].reference.value;
      assert IsReversalOf(rows[i], b) && b !in before;
      assert RefsOf(rows, i + 1, p) == before + {b};
      StakeInAdd(rows, |rows|, p, before, b);
    } else {
      assert RefsOf(rows, i + 1, p) == before;
    }
  }

  lemma {:induction false} StakeInNone(rows: seq<Row>, n: nat, p: Player)
    requires n <= |rows|
    ensures StakeIn(rows, n, p, {}) == 0
  {
    if n > 0 { StakeInNone(rows, n - 1, p); }
  }

  /** No rollback call outlives its anchor. */
  ghost predicate RollbacksTimely(s: State) {
    forall i :: 0 <= i < |s.db.rows| && s.db.rows[i].kind == Rollback ==> TimelyRun(s, s.db.rows[i].key)
  }

  /** Redeemable coins only come from winning: over every run, what a player holds in
      SC_REDEEMABLE plus everything withdrawn never exceeds the SC winnings credited. */
  lemma RedeemableOnlyFromWinning(s: State, p: Player)
    requires Reachable(s) && RollbacksTimely(s) && p in s.db.wallets
    ensures s.db.wallets[p].scRedeemable + -Redeemable(s.db.rows, p, Withdrawal) <= Redeemable(s.db.rows, p, Win)
  {
    ReachableInv(s);
    var rows := s.db.rows;
    forall i, j, b | 0 <= i < |rows| && 0 <= j < |rows| && IsReversalOf(rows[i], b) && IsReversalOf(rows[j], b)
      ensures i == j
    {
      RowsOkAt(rows, i);
      ReversedAtMostOnce(s, b, i, j);
    }
    assert rows[..|rows|] == rows;
    RedeemableByKind(rows, p);
    ReversedIsStakeIn(rows, |rows|, p);
    StakeInAtMostAll(rows, |rows|, p, RefsOf(rows, |rows|, p));
    assert s.db.wallets[p].BalanceFor(SCRedeemable) == Sum(rows, p, SCRedeemable);
  }
}
