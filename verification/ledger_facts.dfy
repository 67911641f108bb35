/** Every plan is a balanced, non-overdrawing change to one wallet, and writing it keeps the
    ledger and the wallet cache equal. */
module LedgerFacts {
  import opened Domain
  import opened Ledger
  import Game

  // --------------------------------------------------------------------------
  // Entries built from lines
  // --------------------------------------------------------------------------

  lemma {:induction false} EntriesForSums(lines: seq<Line>, d: Direction, house: Account, after: Wallet, c: Currency)
    requires house != PlayerWallet
    ensures Net(EntriesFor(lines, d, house, after), c) == if d == Credit then SumOf(lines, c) else -SumOf(lines, c)
    ensures Imbalance(EntriesFor(lines, d, house, after), c) == 0
  {
    if lines != [] {
      EntriesForSums(lines[1..], d, house, after, c);
      var es := EntriesFor(lines, d, house, after);
      assert es[2..] == EntriesFor(lines[1..], d, house, after);
      assert es[1..][1..] == es[2..];
      assert Net(es, c) == Signed(es[0], c) + Net(es[1..], c);
      assert Net(es[1..], c) == Net(es[2..], c);
      assert Imbalance(es, c) == Signed(es[0], c) + (Signed(es[1], c) + Imbalance(es[2..], c));
    }
  }

  function EntryPair(l: Line, d: Direction, house: Account, after: Wallet): seq<Entry> {
    [Entry(PlayerWallet, l.currency, d, l.amount, Some(after.BalanceFor(l.currency))),
     Entry(house, l.currency, Opposite(d), l.amount, None)]
  }

  lemma {:induction false} EntriesForSnoc(lines: seq<Line>, l: Line, d: Direction, house: Account, after: Wallet)
    ensures EntriesFor(lines + [l], d, house, after) == EntriesFor(lines, d, house, after) + EntryPair(l, d, house, after)
  {
    if lines == [] {
      assert [] + [l] == [l] && [l][1..] == [];
    } else {
      EntriesForSnoc(lines[1..], l, d, house, after);
      assert (lines + [l])[1..] == lines[1..] + [l];
    }
  }

  /** A player entry of direction `d` recording `after`, or a house entry. */
  predicate EntryShaped(e: Entry, d: Direction, house: Account, after: Wallet) {
    && e.amount > 0 && (e.balanceAfter.Some? <==> e.account == PlayerWallet) && (e.account == PlayerWallet || e.account == house)
    && (e.account == PlayerWallet ==> e.direction == d && e.balanceAfter == Some(after.BalanceFor(e.currency)))
  }

  lemma {:induction false} EntriesShaped(lines: seq<Line>, d: Direction, house: Account, after: Wallet)
    requires house != PlayerWallet && AllPositive(lines)
    ensures |EntriesFor(lines, d, house, after)| == 2 * |lines|
    ensures forall i :: 0 <= i < |EntriesFor(lines, d, house, after)| ==> EntryShaped(EntriesFor(lines, d, house, after)[i], d, house, after)
  {
    if lines != [] { EntriesShaped(lines[1..], d, house, after); }
  }

  lemma EntriesForShape(lines: seq<Line>, d: Direction, house: Account, after: Wallet)
    requires house != PlayerWallet && AllPositive(lines)
    ensures var es := EntriesFor(lines, d, house, after);
      && |es| == 2 * |lines|
      && (forall i :: 0 <= i < |es| ==> es[i].amount > 0)
      && (forall i :: 0 <= i < |es| ==> (es[i].balanceAfter.Some? <==> es[i].account == PlayerWallet))
      && (forall i :: 0 <= i < |es| ==> es[i].account == PlayerWallet || es[i].account == house)
      && (forall i :: 0 <= i < |es| && es[i].account == PlayerWallet ==>
            es[i].direction == d && es[i].balanceAfter == Some(after.BalanceFor(es[i].currency)))
      && PlayerLines(es) == lines
  {
    PlayerLinesOfEntries(lines, d, house, after);
    EntriesShaped(lines, d, house, after);
    forall i | 0 <= i < |EntriesFor(lines, d, house, after)| ensures EntryShaped(EntriesFor(lines, d, house, after)[i], d, house, after) { }
  }

  lemma {:induction false} PlayerLinesOfEntries(lines: seq<Line>, d: Direction, house: Account, after: Wallet)
    requires house != PlayerWallet
    ensures PlayerLines(EntriesFor(lines, d, house, after)) == lines
  {
    if lines != [] {
      PlayerLinesOfEntries(lines[1..], d, house, after);
      var es := EntriesFor(lines, d, house, after);
      assert es[1..][1..] == es[2..] && es[2..] == EntriesFor(lines[1..], d, house, after);
      assert PlayerLines(es[1..]) == [] + PlayerLines(es[2..]);
    }
  }

  lemma EntriesForOk(lines: seq<Line>, d: Direction, house: Account, after: Wallet)
    requires house != PlayerWallet && AllPositive(lines)
    ensures EntriesOk(EntriesFor(lines, d, house, after))
    ensures forall c: Currency ::
      Net(EntriesFor(lines, d, house, after), c) == (if d == Credit then SumOf(lines, c) else -SumOf(lines, c))
  {
    EntriesForShape(lines, d, house, after);
    forall c: Currency
      ensures Imbalance(EntriesFor(lines, d, house, after), c) == 0
      ensures Net(EntriesFor(lines, d, house, after), c) == if d == Credit then SumOf(lines, c) else -SumOf(lines, c)
    {
      EntriesForSums(lines, d, house, after, c);
    }
  }

  lemma OneLineNet(l: Line, d: Direction, house: Account, after: Wallet, c: Currency)
    requires house != PlayerWallet && l.amount > 0
    ensures Net(EntriesFor([l], d, house, after), c) == if l.currency != c then 0 else if d == Credit then l.amount else -l.amount
  {
    SumOfOne(l);
    EntriesForSums([l], d, house, after, c);
  }

  // --------------------------------------------------------------------------
  // Rows
  // --------------------------------------------------------------------------

  lemma {:induction false} RowsOkAt(rows: seq<Row>, i: nat)
    requires RowsOk(rows) && i < |rows|
    ensures RowGood(rows[..i], rows[i]) && RowsOk(rows[..i])
    decreases |rows|
  {
    var n := |rows| - 1;
    if i < n {
      RowsOkAt(rows[..n], i);
      assert rows[..n][..i] == rows[..i];
    }
  }

  lemma {:induction false} PlayerLinesNet(entries: seq<Entry>, c: Currency)
    requires PlayerDebitsOnly(entries)
    ensures SumOf(PlayerLines(entries), c) == -Net(entries, c)
  {
    if entries != [] {
      assert PlayerDebitsOnly(entries[1..]) by {
        assert forall i :: 0 <= i < |entries| - 1 ==> entries[1..][i] == entries[i + 1];
      }
      PlayerLinesNet(entries[1..], c);
      var l, rest := Line(entries[0].currency, entries[0].amount), PlayerLines(entries[1..]);
      if entries[0].account == PlayerWallet { assert ([l] + rest)[1..] == rest; } else { assert [] + rest == rest; }
    }
  }

  lemma {:induction false} PlayerLinesPositive(entries: seq<Entry>)
    requires forall i :: 0 <= i < |entries| ==> entries[i].amount > 0
    ensures AllPositive(PlayerLines(entries))
  {
    if entries != [] { PlayerLinesPositive(entries[1..]); }
  }

  lemma {:induction false} SumFrame(rows: seq<Row>, extra: seq<Row>, p: Player, c: Currency)
    requires forall i :: 0 <= i < |extra| ==> extra[i].player != p
    ensures Sum(rows + extra, p, c) == Sum(rows, p, c)
    decreases |extra|
  {
    if extra == [] {
      assert rows + extra == rows;
    } else {
      var n := |extra| - 1;
      assert (rows + extra)[..|rows| + n] == rows + extra[..n];
      SumFrame(rows, extra[..n], p, c);
    }
  }

  // --------------------------------------------------------------------------
  // Plans are sound
  // --------------------------------------------------------------------------

  lemma BetLegOk(rows: seq<Row>, player: Player, key: Key, meta: Game.Outcome, snap: Wallet, family: Family, amount: Money)
    requires snap.NonNegative() && PlanBet(key, meta, snap, family, amount).Ok?
    ensures LegOk(rows, player, snap, PlanBet(key, meta, snap, family, amount).value)
  {
    var debits := AllocateBet(snap, family, amount).value;
    AllocateBetExact(snap, family, amount);
    DebitedExact(snap, debits);
    var post := Debited(snap, debits).value;
    EntriesForOk(debits, Debit, HouseBetPool, post);
    EntriesForShape(debits, Debit, HouseBetPool, post);
    forall c: Currency ensures SumOf(debits, c) >= 0 { SumOfNonNegative(debits, c); }
  }

  lemma WinLegOk(rows: seq<Row>, player: Player, key: Key, reference: Reference, meta: Game.Outcome, snap: Wallet, family: Family, amount: Money)
    requires snap.NonNegative() && PlanWin(key, reference, meta, snap, family, amount).Ok?
    ensures LegOk(rows, player, snap, PlanWin(key, reference, meta, snap, family, amount).value)
  {
    var credit := AllocateWin(family, amount).value;
    SumOfOne(credit);
    var post := ApplyWin(snap, credit);
    EntriesForOk([credit], Credit, HouseWinPool, post);
    EntriesForShape([credit], Credit, HouseWinPool, post);
  }

  lemma IssueLegOk(rows: seq<Row>, player: Player, key: Key, kind: Kind, house: Account, meta: Game.Outcome, snap: Wallet, gc: Money, sc: Money)
    requires snap.NonNegative() && (kind == Deposit || kind == PromoCredit) && house == HouseOf(kind)
    requires AllocatePurchase(gc, sc).Ok?
    ensures PlanIssue(key, kind, house, meta, snap, AllocatePurchase(gc, sc)).Ok?
    ensures LegOk(rows, player, snap, PlanIssue(key, kind, house, meta, snap, AllocatePurchase(gc, sc)).value)
  {
    var credits := AllocatePurchase(gc, sc).value;
    IssuanceNeverMintsRedeemable(snap, gc, sc);
    CreditedExact(snap, credits);
    var post := Credited(snap, credits);
    EntriesForOk(credits, Credit, house, post);
    EntriesForShape(credits, Credit, house, post);
  }

  lemma RedeemLegOk(rows: seq<Row>, player: Player, key: Key, meta: Game.Outcome, snap: Wallet, amount: Money)
    requires snap.NonNegative() && PlanRedeem(key, meta, snap, amount).Ok?
    ensures LegOk(rows, player, snap, PlanRedeem(key, meta, snap, amount).value)
  {
    var debit := AllocateRedeem(snap, amount).value;
    SumOfOne(debit);
    var post := ApplyRedeem(snap, debit);
    EntriesForOk([debit], Debit, HouseRedemptionPool, post);
    EntriesForShape([debit], Debit, HouseRedemptionPool, post);
  }

  lemma RollbackLegOk(rows: seq<Row>, key: Key, player: Player, meta: Game.Outcome, snap: Wallet, reference: nat)
    requires snap.NonNegative() && RowsOk(rows) && PlanRollback(rows, key, player, meta, snap, reference).Ok?
    ensures LegOk(rows, player, snap, PlanRollback(rows, key, player, meta, snap, reference).value)
  {
    RowsOkAt(rows, reference);
    var original := rows[reference].entries;
    var lines := PlayerLines(original);
    PlayerLinesPositive(original);
    forall c: Currency ensures SumOf(lines, c) == -Net(original, c) && SumOf(lines, c) >= 0 {
      PlayerLinesNet(original, c);
      SumOfNonNegative(lines, c);
    }
    CreditedExact(snap, lines);
    var post := Credited(snap, lines);
    EntriesForOk(lines, Credit, HouseBetPool, post);
    EntriesForShape(lines, Credit, HouseBetPool, post);
    assert post.BalanceFor(GC) >= 0 && post.BalanceFor(SCUnplayed) >= 0 && post.BalanceFor(SCRedeemable) >= 0;
  }

  lemma LegsOkOne(rows: seq<Row>, player: Player, before: Wallet, leg: Leg)
    requires LegOk(rows, player, before, leg)
    ensures LegsOk(rows, player, before, [leg])
  {
    assert [leg][1..] == [];
  }

  lemma SpinLegsOk(rows: seq<Row>, snap: Wallet, req: Request, outcome: Game.Outcome)
    requires snap.NonNegative() && req.body.SpinBody? && PlanSpin(req, snap, outcome).Ok?
    ensures LegsOk(rows, req.player, snap, PlanSpin(req, snap, outcome).value)
  {
    var legs := PlanSpin(req, snap, outcome).value;
    BetLegOk(rows, req.player, Key(req.op, req.tx + BET_LEG), outcome, snap, req.body.family, req.body.amount);
    if |legs| == 1 {
      LegsOkOne(rows, req.player, snap, legs[0]);
    } else {
      var rows' := rows + [ToRow(rows, req.player, legs[0])];
      WinLegOk(rows', req.player, Key(req.op, req.tx + WIN_LEG), RefPrevious, outcome, legs[0].after,
        req.body.family, Game.WinFor(req.body.amount, outcome));
      assert legs[1..] == [legs[1]];
      LegsOkOne(rows', req.player, legs[0].after, legs[1]);
    }
  }

  /** Whatever the request, a plan moves one wallet by balanced transactions of the right kind
      and never below zero. */
  lemma PlanSound(rows: seq<Row>, snap: Wallet, req: Request, g: Guards, outcome: Game.Outcome)
    requires snap.NonNegative() && RowsOk(rows) && Plan(rows, snap, req, g, outcome).Ok?
    ensures LegsOk(rows, req.player, snap, Plan(rows, snap, req, g, outcome).value)
  {
    var key := Key(req.op, req.tx);
    var legs := Plan(rows, snap, req, g, outcome).value;
    match req.body
    case BetBody(family, amount) =>
      BetLegOk(rows, req.player, key, req.meta, snap, family, amount);
      LegsOkOne(rows, req.player, snap, legs[0]);
    case WinBody(family, amount, reference) =>
      WinLegOk(rows, req.player, key, if reference.Some? then RefTo(reference.value) else NoRef, req.meta, snap, family, amount);
      LegsOkOne(rows, req.player, snap, legs[0]);
    case RollbackBody(reference) =>
      RollbackLegOk(rows, key, req.player, req.meta, snap, reference.value);
      LegsOkOne(rows, req.player, snap, legs[0]);
    case PurchaseBody(gc, promo) =>
      IssueLegOk(rows, req.player, key, Deposit, HouseIssuancePool, req.meta, snap, gc, promo);
      LegsOkOne(rows, req.player, snap, legs[0]);
    case RedeemBody(amount) =>
      RedeemLegOk(rows, req.player, key, req.meta, snap, amount);
      LegsOkOne(rows, req.player, snap, legs[0]);
    case PromoBody(gc, sc) =>
      IssuanceNeverMintsRedeemable(snap, gc, sc);
      IssueLegOk(rows, req.player, key, PromoCredit, HousePromoPool, req.meta, snap, gc, sc);
      LegsOkOne(rows, req.player, snap, legs[0]);
    case SpinBody(_, _) =>
      SpinLegsOk(rows, snap, req, outcome);
  }

  // --------------------------------------------------------------------------
  // Writing a plan keeps the database good
  // --------------------------------------------------------------------------

  lemma SumSnoc(rows: seq<Row>, r: Row, p: Player, c: Currency)
    ensures Sum(rows + [r], p, c) == Sum(rows, p, c) + if r.player == p then Net(r.entries, c) else 0
  {
    assert (rows + [r])[..|rows|] == rows;
  }

  lemma ApplyLegOk(db: Db, player: Player, leg: Leg)
    requires DbOk(db) && player in db.wallets && LegOk(db.rows, player, db.wallets[player], leg)
    ensures DbOk(ApplyLeg(db, player, leg))
  {
    var r := ToRow(db.rows, player, leg);
    var db' := ApplyLeg(db, player, leg);
    assert db'.rows[..|db.rows|] == db.rows && db'.rows[|db.rows|] == r;
    forall p, c: Currency | p in db'.wallets ensures db'.wallets[p].BalanceFor(c) == Sum(db'.rows, p, c) {
      SumSnoc(db.rows, r, p, c);
    }
    assert RowGood(db.rows, r);
    assert CacheOk(db');
  }

  lemma {:induction false} ApplyLegsOk(db: Db, player: Player, legs: seq<Leg>)
    requires DbOk(db) && player in db.wallets && LegsOk(db.rows, player, db.wallets[player], legs)
    ensures DbOk(ApplyLegs(db, player, legs))
    decreases |legs|
  {
    if legs != [] {
      ApplyLegOk(db, player, legs[0]);
      ApplyLegsOk(ApplyLeg(db, player, legs[0]), player, legs[1..]);
    }
  }

  lemma {:induction false} NewRowsShape(rows: seq<Row>, player: Player, legs: seq<Leg>)
    ensures |NewRows(rows, player, legs)| == |legs|
    ensures forall i :: 0 <= i < |legs| ==>
      var r := NewRows(rows, player, legs)[i];
      r.key == legs[i].key && r.player == player && r.kind == legs[i].kind && r.meta == legs[i].meta && r.entries == legs[i].entries
    decreases |legs|
  {
    if legs != [] { NewRowsShape(rows + [ToRow(rows, player, legs[0])], player, legs[1..]); }
  }

  lemma {:induction false} ApplyLegsRows(db: Db, player: Player, legs: seq<Leg>)
    ensures ApplyLegs(db, player, legs).rows == db.rows + NewRows(db.rows, player, legs)
    decreases |legs|
  {
    if legs != [] {
      var db1 := ApplyLeg(db, player, legs[0]);
      ApplyLegsRows(db1, player, legs[1..]);
      var r := ToRow(db.rows, player, legs[0]);
      assert db.rows + [r] + NewRows(db1.rows, player, legs[1..]) == db.rows + ([r] + NewRows(db1.rows, player, legs[1..]));
    } else {
      assert db.rows + [] == db.rows;
    }
  }

  lemma {:induction false} ApplyLegsWallets(db: Db, player: Player, legs: seq<Leg>)
    requires legs != []
    ensures ApplyLegs(db, player, legs).wallets == db.wallets[player := legs[|legs| - 1].after]
    decreases |legs|
  {
    if |legs| > 1 { ApplyLegsWallets(ApplyLeg(db, player, legs[0]), player, legs[1..]); }
    else { assert legs[1..] == []; }
  }

  lemma {:induction false} ApplyLegsKeys(db: Db, player: Player, legs: seq<Leg>)
    ensures ApplyLegs(db, player, legs).dedup.Keys == db.dedup.Keys + KeysOf(legs)
    decreases |legs|
  {
    if legs != [] {
      ApplyLegsKeys(ApplyLeg(db, player, legs[0]), player, legs[1..]);
      assert KeysOf(legs) == {legs[0].key} + KeysOf(legs[1..]) by {
        assert forall i :: 1 <= i < |legs| ==> legs[i] == legs[1..][i - 1];
        assert forall i :: 0 <= i < |legs| - 1 ==> legs[1..][i] == legs[i + 1];
      }
    }
  }

  // --------------------------------------------------------------------------
  // A plan survives other players' commits
  // --------------------------------------------------------------------------

  /** Rollbacks only ever reference the same player's BET, so rows of other players can not
      change a plan made under this player's lock. */
  lemma PlanStable(rows: seq<Row>, extra: seq<Row>, snap: Wallet, req: Request, g: Guards, outcome: Game.Outcome)
    requires RowsOk(rows + extra) && Plan(rows, snap, req, g, outcome).Ok?
    requires forall i :: 0 <= i < |extra| ==> extra[i].player != req.player
    ensures Plan(rows + extra, snap, req, g, outcome) == Plan(rows, snap, req, g, outcome)
  {
    if req.body.RollbackBody? {
      var reference := req.body.reference.value;
      var key := Key(req.op, req.tx);
      var all := rows + extra;
      assert all[reference] == rows[reference];
      forall i | 0 <= i < |all| ensures !IsOtherRollback(all[i], reference, key) {
        if i < |rows| {
          assert all[i] == rows[i];
        } else {
          RowsOkAt(all, i);
        }
      }
    }
  }
}
