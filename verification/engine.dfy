/** The transaction bodies of the wallet engine, run step by step against the tables under one
    player's row lock, and proved to leave exactly what the ledger plan says. */
module Engine {
  import opened Domain
  import opened Ledger
  import opened LedgerFacts
  import opened Protocol
  import opened ProtocolSafety
  import Game
  import Rng

  datatype TxResult = TxResult(status: Status, payload: Payload, balances: Wallet)

  // --------------------------------------------------------------------------
  // What one transaction does
  // --------------------------------------------------------------------------

  datatype Verdict = Settles(legs: seq<Leg>) | Collides | Rejects(error: Error)

  ghost function Judge(db: Db, req: Request, g: Guards, drawn: Game.Outcome): Verdict {
    if req.player !in db.wallets then Rejects(PlayerNotFound)
    else
      var plan := Plan(db.rows, db.wallets[req.player], req, g, drawn);
      if plan.Err? then Rejects(plan.error)
      else if KeysOf(plan.value) !! db.dedup.Keys then Settles(plan.value)
      else Collides
  }

  /** Only a settled transaction changes the tables. */
  ghost function AfterTx(db: Db, req: Request, g: Guards, drawn: Game.Outcome): Db {
    var verdict := Judge(db, req, g, drawn);
    if verdict.Settles? then ApplyLegs(db, req.player, verdict.legs) else db
  }

  predicate Recoverable(r: Row, req: Request) {
    r.player == req.player && (req.body.SpinBody? || r.kind == KindFor(EndpointOf(req.body)))
  }

  /** The recovery read: some committed row under the key, or none. */
  ghost predicate Recovers(db: Db, req: Request, r: Result<TxResult>)
    requires req.player in db.wallets
  {
    if NoSuchRow(db.rows, AnchorKey(req)) then r == Err(TransactionConflict)
    else exists i :: 0 <= i < |db.rows| && RecoversAs(db, req, i, r)
  }

  predicate RecoversAs(db: Db, req: Request, i: nat, r: Result<TxResult>)
    requires i < |db.rows| && req.player in db.wallets
  {
    && db.rows[i].key == AnchorKey(req)
    && r == if Recoverable(db.rows[i], req)
            then Ok(TxResult(GhostRecovered, Receipt(req, i, db.rows[i].meta, []), db.wallets[req.player]))
            else Err(TransactionConflict)
  }

  ghost predicate Answered(db: Db, req: Request, g: Guards, drawn: Game.Outcome, r: Result<TxResult>) {
    match Judge(db, req, g, drawn)
    case Rejects(error) => r == Err(error)
    case Settles(legs) =>
      && legs != []
      && r == Ok(TxResult(Processed,
           Receipt(req, |db.rows|, if req.body.SpinBody? then drawn else req.meta, legs),
           legs[|legs| - 1].after))
    case Collides => Recovers(db, req, r)
  }

  /** What a spin's round of entries is made of: each line carries the leg it belongs to. */
  datatype SpinEntry = SpinEntry(leg: Kind, entry: Entry)

  /** The lines routed to one leg. */
  function Routed(lines: seq<SpinEntry>, leg: Kind): seq<Entry> {
    if lines == [] then []
    else Routed(lines[..|lines| - 1], leg) + (if lines[|lines| - 1].leg == leg then [lines[|lines| - 1].entry] else [])
  }

  lemma RoutedSnoc(lines: seq<SpinEntry>, l: SpinEntry, leg: Kind)
    ensures Routed(lines + [l], leg) == Routed(lines, leg) + if l.leg == leg then [l.entry] else []
  {
    assert (lines + [l])[..|lines|] == lines;
  }

  lemma PairRouted(rows: seq<SpinEntry>, tag: Kind, a: Entry, b: Entry, leg: Kind)
    ensures Routed(rows + [SpinEntry(tag, a), SpinEntry(tag, b)], leg) ==
      Routed(rows, leg) + if leg == tag then [a, b] else []
  {
    RoutedSnoc(rows, SpinEntry(tag, a), leg);
    RoutedSnoc(rows + [SpinEntry(tag, a)], SpinEntry(tag, b), leg);
    assert rows + [SpinEntry(tag, a), SpinEntry(tag, b)] == rows + [SpinEntry(tag, a)] + [SpinEntry(tag, b)];
  }

  method BuildSpinEntries(debits: seq<Line>, postBet: Wallet, win: Option<Line>, post: Wallet) returns (rows: seq<SpinEntry>)
    ensures LegsKnown(rows, win.Some?) && |rows| == 2 * |debits| + (if win.Some? then 2 else 0)
    ensures Routed(rows, Bet) == EntriesFor(debits, Debit, HouseBetPool, postBet)
    ensures Routed(rows, Win) == if win.Some? then EntriesFor([win.value], Credit, HouseWinPool, post) else []
  {
    rows := [];
    var i := 0;
    while i < |debits|
      invariant 0 <= i <= |debits| && |rows| == 2 * i && LegsKnown(rows, false)
      invariant Routed(rows, Bet) == EntriesFor(debits[..i], Debit, HouseBetPool, postBet)
      invariant Routed(rows, Win) == []
    {
      var d := debits[i];
      var player := Entry(PlayerWallet, d.currency, Debit, d.amount, Some(postBet.BalanceFor(d.currency)));
      var house := Entry(HouseBetPool, d.currency, Credit, d.amount, None);
      PairRouted(rows, Bet, player, house, Bet);
      PairRouted(rows, Bet, player, house, Win);
      EntriesForSnoc(debits[..i], d, Debit, HouseBetPool, postBet);
      assert debits[..i + 1] == debits[..i] + [d];
      rows := rows + [SpinEntry(Bet, player), SpinEntry(Bet, house)];
      i := i + 1;
    }
    assert debits[..i] == debits;
    if win.Some? {
      var c := win.value;
      var player := Entry(PlayerWallet, c.currency, Credit, c.amount, Some(post.BalanceFor(c.currency)));
      var house := Entry(HouseWinPool, c.currency, Debit, c.amount, None);
      PairRouted(rows, Win, player, house, Bet);
      PairRouted(rows, Win, player, house, Win);
      EntriesForSnoc([], c, Credit, HouseWinPool, post);
      assert [] + [c] == [c];
      rows := rows + [SpinEntry(Win, player), SpinEntry(Win, house)];
    }
  }

  // --------------------------------------------------------------------------
  // Steps of the proofs
  // --------------------------------------------------------------------------

  function LegFor(req: Request, kind: Kind, reference: Option<nat>, entries: seq<Entry>, post: Wallet): Leg {
    Leg(RequestKey(req), kind, if reference.Some? then RefTo(reference.value) else NoRef, req.meta, entries, post)
  }

  lemma OneLegVerdict(db: Db, req: Request, g: Guards, drawn: Game.Outcome, leg: Leg)
    requires req.player in db.wallets && leg.key == RequestKey(req)
    requires Plan(db.rows, db.wallets[req.player], req, g, drawn) == Ok([leg])
    ensures Judge(db, req, g, drawn) == if leg.key in db.dedup then Collides else Settles([leg])
    ensures AfterTx(db, req, g, drawn) == if leg.key in db.dedup then db else ApplyLeg(db, req.player, leg)
  {
    assert [leg][0].key in KeysOf([leg]);
    assert KeysOf([leg]) == {leg.key};
    assert ApplyLegs(db, req.player, [leg]) == ApplyLegs(ApplyLeg(db, req.player, leg), req.player, [leg][1..]);
    assert [leg][1..] == [];
  }

  function PlayerEntries(entries: seq<Entry>): seq<Entry> {
    if entries == [] then []
    else (if entries[0].account == PlayerWallet then [entries[0]] else []) + PlayerEntries(entries[1..])
  }

  function LinesOf(entries: seq<Entry>): seq<Line> {
    seq(|entries|, i requires 0 <= i < |entries| => Line(entries[i].currency, entries[i].amount))
  }

  /** The fetched entries are the plan's lines. */
  lemma {:induction false} FetchedLines(entries: seq<Entry>)
    ensures LinesOf(PlayerEntries(entries)) == PlayerLines(entries)
  {
    if entries != [] {
      FetchedLines(entries[1..]);
      var tail := PlayerEntries(entries[1..]);
      if entries[0].account == PlayerWallet {
        assert LinesOf([entries[0]] + tail) == [Line(entries[0].currency, entries[0].amount)] + LinesOf(tail);
      } else {
        assert [] + tail == tail;
      }
    }
  }

  predicate AllDebits(entries: seq<Entry>) { forall i :: 0 <= i < |entries| ==> entries[i].direction == Debit }

  /** Checking the fetched entries one by one is the plan's direction check. */
  lemma {:induction false} FetchedDirections(entries: seq<Entry>)
    ensures PlayerDebitsOnly(entries) <==> AllDebits(PlayerEntries(entries))
  {
    if entries != [] {
      var e, rest := entries[0], entries[1..];
      FetchedDirections(rest);
      assert PlayerDebitsOnly(entries) <==>
        PlayerDebitsOnly(rest) && (e.account == PlayerWallet ==> e.direction == Debit) by {
        assert forall i :: 0 <= i < |rest| ==> rest[i] == entries[i + 1];
        assert forall i :: 1 <= i < |entries| ==> entries[i] == rest[i - 1];
      }
      AllDebitsSplit(e, PlayerEntries(rest));
      assert [] + PlayerEntries(rest) == PlayerEntries(rest);
    }
  }

  lemma AllDebitsSplit(e: Entry, rest: seq<Entry>)
    ensures AllDebits([e] + rest) <==> e.direction == Debit && AllDebits(rest)
  {
    var all := [e] + rest;
    assert forall i :: 0 <= i < |rest| ==> rest[i] == all[i + 1];
    assert forall i :: 1 <= i < |all| ==> all[i] == rest[i - 1];
    assert all[0] == e;
  }

  lemma HeadlineOfRollback(req: Request, leg: Leg, lines: seq<Line>, post: Wallet)
    requires req.body.RollbackBody? && leg.entries == EntriesFor(lines, Credit, HouseBetPool, post)
    ensures Headline(req, [leg]) == Total(lines)
  {
    PlayerLinesOfEntries(lines, Credit, HouseBetPool, post);
  }

  /** Re-credits a BET's debits; any other direction is refused. */
  method Reverse(wallet: Wallet, entries: seq<Entry>) returns (post: Result<Wallet>, total: Money)
    ensures post == if AllDebits(entries) then Ok(Credited(wallet, LinesOf(entries))) else Err(TransactionConflict)
    ensures AllDebits(entries) ==> total == Total(LinesOf(entries))
  {
    var out := wallet;
    total := 0;
    var i := 0;
    while i < |entries|
      invariant 0 <= i <= |entries|
      invariant forall j :: 0 <= j < i ==> entries[j].direction == Debit
      invariant Credited(out, LinesOf(entries[i..])) == Credited(wallet, LinesOf(entries))
      invariant total + Total(LinesOf(entries[i..])) == Total(LinesOf(entries))
    {
      if entries[i].direction != Debit { return Err(TransactionConflict), total; }
      assert LinesOf(entries[i..])[1..] == LinesOf(entries[i + 1..]);
      out := out.Plus(entries[i].currency, entries[i].amount);
      total := total + entries[i].amount;
      i := i + 1;
    }
    post := Ok(out);
  }

  /** What a caller sends beside a spin: nothing, something that is not a JSON object, or fields. */
  datatype Metadata = Absent | NotAnObject | Object(fields: map<string, string>)

  /** How JSON encodes an outcome, and how long merged fields encode; uninterpreted. */
  datatype Codec = Codec(text: Game.Outcome -> string, length: map<string, string> -> nat)

  const OUTCOME := "outcome"
  const METADATA_CAP := 512

  function Merged(caller: Metadata, encoded: string): map<string, string> {
    (if caller.Object? then caller.fields else map[])[OUTCOME := encoded]
  }

  predicate Fits(caller: Metadata, codec: Codec, outcome: Game.Outcome) {
    !caller.NotAnObject? && codec.length(Merged(caller, codec.text(outcome))) <= METADATA_CAP
  }

  /** The stored metadata keeps the caller's fields, but its outcome is always the drawn one. */
  method SpinMetadata(caller: Metadata, codec: Codec, outcome: Game.Outcome) returns (r: Result<map<string, string>>)
    ensures r.Ok? <==> Fits(caller, codec, outcome)
    ensures r.Ok? ==> codec.length(r.value) <= 512
    ensures r.Err? ==> r.error == InvalidAmount && (caller.NotAnObject? || codec.length(Merged(caller, codec.text(outcome))) > 512)
    ensures r.Ok? ==> OUTCOME in r.value && r.value[OUTCOME] == codec.text(outcome)
    ensures r.Ok? ==> forall k :: k != OUTCOME ==>
      (k in r.value <==> caller.Object? && k in caller.fields) && (k in r.value ==> r.value[k] == caller.fields[k])
  {
    var merged: map<string, string> := map[];
    if caller.NotAnObject? { return Err(InvalidAmount); }
    if caller.Object? { merged := caller.fields; }
    merged := merged - {OUTCOME};
    merged := merged[OUTCOME := codec.text(outcome)];
    assert merged == Merged(caller, codec.text(outcome));
    if codec.length(merged) > METADATA_CAP { return Err(InvalidAmount); }
    return Ok(merged);
  }

  /** The guards' answers completed by whether this outcome can be stored. */
  function WithFit(g: Guards, caller: Metadata, codec: Codec, outcome: Game.Outcome): Guards {
    g.(fits := Fits(caller, codec, outcome))
  }

  /** What a spin is refused for whatever it draws. */
  predicate StakeRefused(db: Db, req: Request, g: Guards)
    requires req.body.SpinBody?
  {
    || req.player !in db.wallets || Refusal(g, req.body).Some?
    || AllocateBet(db.wallets[req.player], req.body.family, req.body.amount).Err?
  }

  /** The cap is applied after the draw.  A spin is refused exactly when its stake is, or when the
      drawn outcome does not fit beside the caller's fields. */
  lemma SpinRefusedExactly(db: Db, req: Request, g: Guards, caller: Metadata, codec: Codec, outcome: Game.Outcome)
    requires req.body.SpinBody? && (req.player in db.wallets ==> db.wallets[req.player].NonNegative())
    ensures Judge(db, req, WithFit(g, caller, codec, outcome), outcome).Rejects? <==>
      StakeRefused(db, req, g) || !Fits(caller, codec, outcome)
  {
    if req.player in db.wallets { AllocateBetExact(db.wallets[req.player], req.body.family, req.body.amount); }
  }

  ghost predicate OutcomeBlind(db: Db, req: Request, g: Guards, caller: Metadata, codec: Codec) {
    forall o1, o2 ::
      Judge(db, req, WithFit(g, caller, codec, o1), o1).Rejects? <==> Judge(db, req, WithFit(g, caller, codec, o2), o2).Rejects?
  }

  /** A spin's refusal says nothing about its draw exactly when the stake is refused anyway or every
      outcome's encoding falls on the same side of the cap. */
  lemma RefusalIsBlindExactly(db: Db, req: Request, g: Guards, caller: Metadata, codec: Codec)
    requires req.body.SpinBody? && (req.player in db.wallets ==> db.wallets[req.player].NonNegative())
    ensures OutcomeBlind(db, req, g, caller, codec) <==>
      || StakeRefused(db, req, g)
      || forall o1, o2 :: Fits(caller, codec, o1) <==> Fits(caller, codec, o2)
  {
    forall o ensures Judge(db, req, WithFit(g, caller, codec, o), o).Rejects? <==>
      StakeRefused(db, req, g) || !Fits(caller, codec, o)
    {
      SpinRefusedExactly(db, req, g, caller, codec, o);
    }
    if OutcomeBlind(db, req, g, caller, codec) && !StakeRefused(db, req, g) {
      forall o1, o2 ensures Fits(caller, codec, o1) <==> Fits(caller, codec, o2) {
        assert Judge(db, req, WithFit(g, caller, codec, o1), o1).Rejects? <==> Judge(db, req, WithFit(g, caller, codec, o2), o2).Rejects?;
      }
    }
  }

  datatype Settlement = Settled(betId: nat) | Duplicate | NoEntries

  predicate LegsKnown(lines: seq<SpinEntry>, hasWin: bool) {
    forall i :: 0 <= i < |lines| ==> lines[i].leg == Bet || (hasWin && lines[i].leg == Win)
  }

  /** The header rows of a settled round, with the lines routed to each. */
  function RoundRows(player: Player, betKey: Key, winKey: Key, hasWin: bool, meta: Game.Outcome, lines: seq<SpinEntry>, betId: nat): seq<Row> {
    [Row(betKey, player, Bet, None, meta, Routed(lines, Bet))]
    + if hasWin then [Row(winKey, player, Win, Some(betId), meta, Routed(lines, Win))] else []
  }

  lemma AppendTwo(a: seq<Entry>, b: seq<Entry>, pair: seq<Entry>)
    requires |pair| == 2
    ensures a + b + [pair[0]] + [pair[1]] == a + (b + pair)
  {
  }

  function Extended(r: Row, more: seq<Entry>): Row { r.(entries := r.entries + more) }

  /** The rows once every line is appended to the header of its leg. */
  function RouteAll(rows: seq<Row>, bet: nat, win: nat, lines: seq<SpinEntry>): seq<Row>
    requires bet < |rows| && win < |rows|
  {
    var one := rows[bet := Extended(rows[bet], Routed(lines, Bet))];
    if bet == win then one else one[win := Extended(rows[win], Routed(lines, Win))]
  }

  lemma RouteNone(rows: seq<Row>, bet: nat, win: nat)
    requires bet < |rows| && win < |rows|
    ensures RouteAll(rows, bet, win, []) == rows
  {
    assert rows[bet].entries + [] == rows[bet].entries && rows[win].entries + [] == rows[win].entries;
  }

  lemma RouteOne(rows: seq<Row>, bet: nat, win: nat, done: seq<SpinEntry>, l: SpinEntry)
    requires bet < |rows| && win < |rows| && (l.leg == Bet || (bet != win && l.leg == Win))
    ensures var before, at := RouteAll(rows, bet, win, done), if l.leg == Bet then bet else win;
      RouteAll(rows, bet, win, done + [l]) == before[at := Extended(before[at], [l.entry])]
  {
    RoutedSnoc(done, l, Bet);
    RoutedSnoc(done, l, Win);
    var r, leg := if l.leg == Bet then rows[bet] else rows[win], l.leg;
    assert r.entries + Routed(done, leg) + [l.entry] == r.entries + (Routed(done, leg) + [l.entry]);
    assert Routed(done, if leg == Bet then Win else Bet) + [] == Routed(done, if leg == Bet then Win else Bet);
  }

  lemma TwoLegs(db: Db, player: Player, a: Leg, b: Leg)
    ensures ApplyLegs(db, player, [a]) == ApplyLeg(db, player, a)
    ensures ApplyLegs(db, player, [a, b]) == ApplyLeg(ApplyLeg(db, player, a), player, b)
    ensures KeysOf([a]) == {a.key} && KeysOf([a, b]) == {a.key, b.key}
  {
    assert [a][1..] == [] && [a, b][1..] == [b] && [b][1..] == [];
    assert ApplyLegs(db, player, [a]) == ApplyLegs(ApplyLeg(db, player, a), player, [a][1..]);
    assert ApplyLegs(ApplyLeg(db, player, a), player, [b]) == ApplyLegs(ApplyLeg(ApplyLeg(db, player, a), player, b), player, [b][1..]);
    assert [a][0].key in KeysOf([a]) && [a, b][0].key in KeysOf([a, b]) && [a, b][1].key in KeysOf([a, b]);
  }

  /** The tables after a settled round. */
  function AfterRound(db: Db, player: Player, post: Wallet, betKey: Key, winKey: Key, hasWin: bool, meta: Game.Outcome, lines: seq<SpinEntry>): Db {
    var n := |db.rows|;
    Db(db.wallets[player := post], db.rows + RoundRows(player, betKey, winKey, hasWin, meta, lines, n),
      if hasWin then db.dedup[betKey := n][winKey := n + 1] else db.dedup[betKey := n])
  }

  lemma OneLegWritten(db: Db, player: Player, bet: Leg, winKey: Key, lines: seq<SpinEntry>)
    requires bet.kind == Bet && bet.reference == NoRef && bet.entries == Routed(lines, Bet)
    ensures ApplyLeg(db, player, bet) == AfterRound(db, player, bet.after, bet.key, winKey, false, bet.meta, lines)
  {
    var r := Row(bet.key, player, Bet, None, bet.meta, Routed(lines, Bet));
    assert ToRow(db.rows, player, bet) == r && [r] + [] == [r];
  }

  lemma TwoLegsWritten(db: Db, player: Player, bet: Leg, win: Leg, lines: seq<SpinEntry>)
    requires bet.kind == Bet && bet.reference == NoRef && bet.entries == Routed(lines, Bet)
    requires win.kind == Win && win.reference == RefPrevious && win.entries == Routed(lines, Win) && win.meta == bet.meta
    ensures ApplyLeg(ApplyLeg(db, player, bet), player, win) ==
      AfterRound(db, player, win.after, bet.key, win.key, true, bet.meta, lines)
  {
    var db1 := ApplyLeg(db, player, bet);
    var r1 := Row(bet.key, player, Bet, None, bet.meta, Routed(lines, Bet));
    var r2 := Row(win.key, player, Win, Some(|db.rows|), bet.meta, Routed(lines, Win));
    assert ToRow(db.rows, player, bet) == r1;
    assert db1.rows == db.rows + [r1];
    assert ToRow(db1.rows, player, win) == r2;
    assert db.rows + [r1] + [r2] == db.rows + ([r1] + [r2]);
    assert db1.wallets[player := win.after] == db.wallets[player := win.after];
  }

  /** The legs a round plans. */
  lemma SpinPlan(db: Db, req: Request, g: Guards, outcome: Game.Outcome, legs: seq<Leg>)
    requires req.body.SpinBody? && Refusal(g, req.body).None? && g.fits && req.player in db.wallets
    requires PlanSpin(req, db.wallets[req.player], outcome) == Ok(legs)
    ensures Plan(db.rows, db.wallets[req.player], req, g, outcome) == Ok(legs)
    ensures legs == [legs[0]] || (|legs| == 2 && legs == [legs[0], legs[1]])
    ensures var bet := legs[0];
      bet.key == Key(req.op, req.tx + BET_LEG) && bet.kind == Bet && bet.reference == NoRef && bet.meta == outcome
    ensures |legs| == 2 ==>
      var win := legs[1];
      win.key == Key(req.op, req.tx + WIN_LEG) && win.kind == Win && win.reference == RefPrevious && win.meta == outcome
  {
  }

  /** The settle statement's outcome is the plan's verdict on the round. */
  lemma SpinVerdict(db: Db, req: Request, g: Guards, outcome: Game.Outcome, lines: seq<SpinEntry>, legs: seq<Leg>)
    requires req.body.SpinBody? && Refusal(g, req.body).None? && g.fits && req.player in db.wallets
    requires PlanSpin(req, db.wallets[req.player], outcome) == Ok(legs)
    requires Routed(lines, Bet) == legs[0].entries && Routed(lines, Win) == if |legs| == 2 then legs[1].entries else []
    ensures 1 <= |legs| <= 2
    ensures var betKey, winKey := Key(req.op, req.tx + BET_LEG), Key(req.op, req.tx + WIN_LEG);
      var taken := betKey in db.dedup || (|legs| == 2 && winKey in db.dedup);
      && Judge(db, req, g, outcome) == (if taken then Collides else Settles(legs))
      && AfterTx(db, req, g, outcome) == (if taken then db
           else AfterRound(db, req.player, legs[|legs| - 1].after, betKey, winKey, |legs| == 2, outcome, lines))
  {
    SpinPlan(db, req, g, outcome, legs);
    if |legs| == 1 {
      TwoLegs(db, req.player, legs[0], legs[0]);
      OneLegWritten(db, req.player, legs[0], Key(req.op, req.tx + WIN_LEG), lines);
    } else {
      TwoLegs(db, req.player, legs[0], legs[1]);
      TwoLegsWritten(db, req.player, legs[0], legs[1], lines);
    }
  }

  // --------------------------------------------------------------------------
  // The engine
  // --------------------------------------------------------------------------

  class Engine {
    var wallets: map<Player, Wallet>
    var rows: seq<Row>
    var dedup: map<Key, nat>

    constructor ()
      ensures Contents() == Db(map[], [], map[])
    {
      wallets, rows, dedup := map[], [], map[];
    }

    ghost function Contents(): Db reads this { Db(wallets, rows, dedup) }

    method SelectWalletForUpdate(player: Player) returns (w: Option<Wallet>)
      ensures w == if player in wallets then Some(wallets[player]) else None
    {
      if player in wallets { return Some(wallets[player]); }
      return None;
    }

    /** Undoes everything the open transaction wrote. */
    method RollbackTo(w: map<Player, Wallet>, r: seq<Row>, d: map<Key, nat>)
      modifies this
      ensures Contents() == Db(w, r, d)
    {
      wallets, rows, dedup := w, r, d;
    }

    method UpdateWalletBalances(player: Player, post: Wallet)
      modifies this`wallets
      ensures wallets == old(wallets)[player := post]
    {
      wallets := wallets[player := post];
    }

    /** Writes the header, then its dedup anchor.  A duplicate key is found only at the anchor,
        when the header is already in place. */
    method InsertLedgerTx(key: Key, player: Player, kind: Kind, reference: Option<nat>, meta: Game.Outcome) returns (id: nat, unique: bool)
      modifies this`rows, this`dedup
      ensures id == |old(rows)| && rows == old(rows) + [Row(key, player, kind, reference, meta, [])]
      ensures unique <==> key !in old(dedup)
      ensures dedup == if unique then old(dedup)[key := id] else old(dedup)
    {
      id := |rows|;
      rows := rows + [Row(key, player, kind, reference, meta, [])];
      unique := key !in dedup;
      if unique { dedup := dedup[key := id]; }
    }

    method InsertEntry(id: nat, e: Entry)
      requires id < |rows|
      modifies this`rows
      ensures rows == old(rows)[id := old(rows)[id].(entries := old(rows)[id].entries + [e])]
    {
      rows := rows[id := rows[id].(entries := rows[id].entries + [e])];
    }

    /** One player line and one balancing house line per movement. */
    method InsertEntries(id: nat, lines: seq<Line>, d: Direction, house: Account, post: Wallet)
      requires id < |rows|
      modifies this`rows
      ensures rows == old(rows)[id := old(rows)[id].(entries := old(rows)[id].entries + EntriesFor(lines, d, house, post))]
    {
      var i := 0;
      assert rows[id].entries + [] == rows[id].entries;
      while i < |lines|
        invariant 0 <= i <= |lines|
        invariant rows == old(rows)[id := Extended(old(rows)[id], EntriesFor(lines[..i], d, house, post))]
      {
        var c, m := lines[i].currency, lines[i].amount;
        EntriesForSnoc(lines[..i], lines[i], d, house, post);
        assert lines[..i + 1] == lines[..i] + [lines[i]];
        AppendTwo(old(rows)[id].entries, EntriesFor(lines[..i], d, house, post), EntryPair(lines[i], d, house, post));
        InsertEntry(id, Entry(PlayerWallet, c, d, m, Some(post.BalanceFor(c))));
        InsertEntry(id, Entry(house, c, Opposite(d), m, None));
        i := i + 1;
      }
      assert lines[..i] == lines;
    }

    method FindByKey(key: Key) returns (found: Option<nat>)
      ensures found.Some? ==> found.value < |rows| && rows[found.value].key == key
      ensures found.None? ==> NoSuchRow(rows, key)
    {
      var i := 0;
      while i < |rows|
        invariant 0 <= i <= |rows| && forall j :: 0 <= j < i ==> rows[j].key != key
      {
        if rows[i].key == key { return Some(i); }
        i := i + 1;
      }
      return None;
    }

    /** Rebuilds the reply of a transaction that was committed before. */
    method Recover(req: Request) returns (r: Result<TxResult>)
      requires req.player in wallets
      ensures Recovers(Contents(), req, r)
    {
      var found := FindByKey(AnchorKey(req));
      if found.None? {
        return Err(TransactionConflict);
      }
      var i := found.value;
      if rows[i].player != req.player || (!req.body.SpinBody? && rows[i].kind != KindFor(EndpointOf(req.body))) {
        r := Err(TransactionConflict);
      } else {
        r := Ok(TxResult(GhostRecovered, Receipt(req, i, rows[i].meta, []), wallets[req.player]));
      }
      assert RecoversAs(Contents(), req, i, r);
    }

    /** The write side of every single-header operation: wallet, header, anchor and entries, or
        nothing at all and the recovered reply when the key is taken. */
    method WriteOne(req: Request, kind: Kind, reference: Option<nat>, lines: seq<Line>, d: Direction, house: Account,
                    post: Wallet, amount: Money) returns (r: Result<TxResult>)
      requires req.player in wallets && !req.body.SpinBody?
      modifies this
      ensures RequestKey(req) in old(dedup) ==> Contents() == old(Contents()) && Recovers(Contents(), req, r)
      ensures RequestKey(req) !in old(dedup) ==>
        && Contents() == ApplyLeg(old(Contents()), req.player, LegFor(req, kind, reference, EntriesFor(lines, d, house, post), post))
        && r == Ok(TxResult(Processed,
             Payload(RequestKey(req), EndpointOf(req.body), req.player, |old(rows)|, amount, 0, req.meta), post))
    {
      var w0, r0, d0 := wallets, rows, dedup;
      UpdateWalletBalances(req.player, post);
      var id, unique := InsertLedgerTx(RequestKey(req), req.player, kind, reference, req.meta);
      if !unique {
        RollbackTo(w0, r0, d0);
        r := Recover(req);
        return;
      }
      InsertEntries(id, lines, d, house, post);
      assert [] + EntriesFor(lines, d, house, post) == EntriesFor(lines, d, house, post);
      assert rows == r0 + [Row(RequestKey(req), req.player, kind, reference, req.meta, EntriesFor(lines, d, house, post))];
      r := Ok(TxResult(Processed, Payload(RequestKey(req), EndpointOf(req.body), req.player, id, amount, 0, req.meta), post));
    }

    method ProcessBetTx(req: Request, g: Guards) returns (r: Result<TxResult>)
      requires req.body.BetBody?
      modifies this
      ensures Contents() == AfterTx(old(Contents()), req, g, req.meta)
      ensures Answered(old(Contents()), req, g, req.meta, r)
    {
      var locked := SelectWalletForUpdate(req.player);
      if locked.None? { return Err(PlayerNotFound); }
      var wallet := locked.value;
      if !g.active { return Err(PlayerNotActive); }
      if g.excluded { return Err(Restricted); }
      if g.overLimit { return Err(Restricted); }
      var debits :- AllocateBet(wallet, req.body.family, req.body.amount);
      var post :- ApplyBet(wallet, debits);
      ghost var leg := LegFor(req, Bet, None, EntriesFor(debits, Debit, HouseBetPool, post), post);
      OneLegVerdict(Contents(), req, g, req.meta, leg);
      r := WriteOne(req, Bet, None, debits, Debit, HouseBetPool, post, req.body.amount);
    }

    method ProcessWinTx(req: Request, g: Guards) returns (r: Result<TxResult>)
      requires req.body.WinBody?
      modifies this
      ensures Contents() == AfterTx(old(Contents()), req, g, req.meta)
      ensures Answered(old(Contents()), req, g, req.meta, r)
    {
      var locked := SelectWalletForUpdate(req.player);
      if locked.None? { return Err(PlayerNotFound); }
      var wallet := locked.value;
      if !g.active { return Err(PlayerNotActive); }
      var credit :- AllocateWin(req.body.family, req.body.amount);
      var post := ApplyWin(wallet, credit);
      ghost var leg := LegFor(req, Win, req.body.winReference, EntriesFor([credit], Credit, HouseWinPool, post), post);
      OneLegVerdict(Contents(), req, g, req.meta, leg);
      r := WriteOne(req, Win, req.body.winReference, [credit], Credit, HouseWinPool, post, req.body.amount);
    }

    method ProcessPurchaseTx(req: Request, g: Guards) returns (r: Result<TxResult>)
      requires req.body.PurchaseBody?
      modifies this
      ensures Contents() == AfterTx(old(Contents()), req, g, req.meta)
      ensures Answered(old(Contents()), req, g, req.meta, r)
    {
      var locked := SelectWalletForUpdate(req.player);
      if locked.None? { return Err(PlayerNotFound); }
      if !g.active { return Err(PlayerNotActive); }
      if g.excluded || g.overLimit { return Err(Restricted); }
      var credits :- AllocatePurchase(req.body.gc, req.body.promo);
      var post := ApplyPurchase(locked.value, credits);
      ghost var leg := LegFor(req, Deposit, None, EntriesFor(credits, Credit, HouseIssuancePool, post), post);
      OneLegVerdict(Contents(), req, g, req.meta, leg);
      r := WriteOne(req, Deposit, None, credits, Credit, HouseIssuancePool, post, req.body.gc);
    }

    method ProcessRedeemTx(req: Request, g: Guards) returns (r: Result<TxResult>)
      requires req.body.RedeemBody?
      modifies this
      ensures Contents() == AfterTx(old(Contents()), req, g, req.meta)
      ensures Answered(old(Contents()), req, g, req.meta, r)
    {
      var locked := SelectWalletForUpdate(req.player);
      if locked.None? { return Err(PlayerNotFound); }
      if !g.active { return Err(PlayerNotActive); }
      var debit :- AllocateRedeem(locked.value, req.body.amount);
      var post := ApplyRedeem(locked.value, debit);
      ghost var leg := LegFor(req, Withdrawal, None, EntriesFor([debit], Debit, HouseRedemptionPool, post), post);
      OneLegVerdict(Contents(), req, g, req.meta, leg);
      r := WriteOne(req, Withdrawal, None, [debit], Debit, HouseRedemptionPool, post, req.body.amount);
    }

    method ProcessPromoGrantTx(req: Request, g: Guards) returns (r: Result<TxResult>)
      requires req.body.PromoBody?
      modifies this
      ensures Contents() == AfterTx(old(Contents()), req, g, req.meta)
      ensures Answered(old(Contents()), req, g, req.meta, r)
    {
      var locked := SelectWalletForUpdate(req.player);
      if locked.None? { return Err(PlayerNotFound); }
      if !g.active { return Err(PlayerNotActive); }
      if g.excluded { return Err(Restricted); }
      var credits :- AllocatePromoGrant(req.body.gc, req.body.sc);
      var post := ApplyPurchase(locked.value, credits);
      ghost var leg := LegFor(req, PromoCredit, None, EntriesFor(credits, Credit, HousePromoPool, post), post);
      OneLegVerdict(Contents(), req, g, req.meta, leg);
      r := WriteOne(req, PromoCredit, None, credits, Credit, HousePromoPool, post,
        if req.body.gc > 0 then req.body.gc else req.body.sc);
    }

    method AlreadyRolledBack(reference: nat, key: Key) returns (found: bool)
      ensures found <==> RollbackExists(rows, reference, key)
    {
      var i := 0;
      while i < |rows|
        invariant 0 <= i <= |rows| && forall j :: 0 <= j < i ==> !IsOtherRollback(rows[j], reference, key)
      {
        if IsOtherRollback(rows[i], reference, key) { return true; }
        i := i + 1;
      }
      return false;
    }

    /** The player's entries of a transaction, in the order they were written. */
    method FetchPlayerEntries(id: nat) returns (out: seq<Entry>)
      requires id < |rows|
      ensures out == PlayerEntries(rows[id].entries)
    {
      out := [];
      var entries := rows[id].entries;
      var i := 0;
      while i < |entries|
        invariant 0 <= i <= |entries|
        invariant out + PlayerEntries(entries[i..]) == PlayerEntries(entries)
      {
        assert entries[i..][1..] == entries[i + 1..];
        if entries[i].account == PlayerWallet { out := out + [entries[i]]; }
        i := i + 1;
      }
      assert out + [] == out;
    }

    method ProcessRollbackTx(req: Request) returns (r: Result<TxResult>)
      requires req.body.RollbackBody? && req.body.reference.Some?
      modifies this
      ensures forall g :: Contents() == AfterTx(old(Contents()), req, g, req.meta)
      ensures forall g :: Answered(old(Contents()), req, g, req.meta, r)
    {
      var locked := SelectWalletForUpdate(req.player);
      if locked.None? { return Err(PlayerNotFound); }
      var reference := req.body.reference.value;
      if reference >= |rows| { return Err(RollbackNotFound); }
      if rows[reference].player != req.player { return Err(TransactionConflict); }
      if rows[reference].kind != Bet { return Err(RollbackUnsupported); }
      var already := AlreadyRolledBack(reference, RequestKey(req));
      if already { return Err(RollbackAlready); }
      var entries := FetchPlayerEntries(reference);
      FetchedLines(rows[reference].entries);
      FetchedDirections(rows[reference].entries);
      if |entries| == 0 { return Err(TransactionConflict); }
      var post, total := Reverse(locked.value, entries);
      if post.Err? { return Err(post.error); }
      var lines := LinesOf(entries);
      ghost var leg := LegFor(req, Rollback, Some(reference), EntriesFor(lines, Credit, HouseBetPool, post.value), post.value);
      forall g ensures
        && Judge(Contents(), req, g, req.meta) == (if leg.key in dedup then Collides else Settles([leg]))
        && AfterTx(Contents(), req, g, req.meta) == (if leg.key in dedup then Contents() else ApplyLeg(Contents(), req.player, leg))
      {
        OneLegVerdict(Contents(), req, g, req.meta, leg);
      }
      HeadlineOfRollback(req, leg, lines, post.value);
      r := WriteOne(req, Rollback, Some(reference), lines, Credit, HouseBetPool, post.value, total);
    }

    /** The write side of a round as one atomic statement: the wallet, one or two headers with
        their anchors, and every line routed to the header of its leg. */
    method SettleSpinStatement(player: Player, post: Wallet, betKey: Key, winKey: Key, hasWin: bool, meta: Game.Outcome,
                               lines: seq<SpinEntry>) returns (s: Settlement)
      requires betKey != winKey && LegsKnown(lines, hasWin)
      modifies this
      ensures s.NoEntries? <==> lines == []
      ensures s.Duplicate? <==> lines != [] && (betKey in old(dedup) || (hasWin && winKey in old(dedup)))
      ensures !s.Settled? ==> Contents() == old(Contents())
      ensures s.Settled? ==>
        && s.betId == |old(rows)|
        && Contents() == AfterRound(old(Contents()), player, post, betKey, winKey, hasWin, meta, lines)
    {
      if |lines| == 0 { return NoEntries; }
      var w0, r0, d0 := wallets, rows, dedup;
      UpdateWalletBalances(player, post);
      var bet, unique := InsertLedgerTx(betKey, player, Bet, None, meta);
      if !unique {
        RollbackTo(w0, r0, d0);
        return Duplicate;
      }
      var win := bet;
      if hasWin {
        win, unique := InsertLedgerTx(winKey, player, Win, Some(bet), meta);
        if !unique {
          RollbackTo(w0, r0, d0);
          return Duplicate;
        }
      }
      InsertRouted(bet, win, lines);
      assert rows == r0 + RoundRows(player, betKey, winKey, hasWin, meta, lines, bet) by {
        assert [] + Routed(lines, Bet) == Routed(lines, Bet);
        assert [] + Routed(lines, Win) == Routed(lines, Win);
      }
      s := Settled(bet);
    }

    /** Appends each line to the entries of its own header. */
    method InsertRouted(bet: nat, win: nat, lines: seq<SpinEntry>)
      requires bet < |rows| && win < |rows| && LegsKnown(lines, bet != win)
      modifies this`rows
      ensures rows == RouteAll(old(rows), bet, win, lines)
    {
      RouteNone(rows, bet, win);
      var i := 0;
      while i < |lines|
        invariant 0 <= i <= |lines| && rows == RouteAll(old(rows), bet, win, lines[..i])
      {
        RouteOne(old(rows), bet, win, lines[..i], lines[i]);
        assert lines[..i + 1] == lines[..i] + [lines[i]];
        InsertEntry(if lines[i].leg == Bet then bet else win, lines[i].entry);
        i := i + 1;
      }
      assert lines[..i] == lines;
    }

    /** The round is drawn under the wallet lock, after every guard: a refusal by a guard leaves
        the generator untouched, and what is drawn depends on nothing but the table and the
        generator's stream. */
    method ProcessSpinTx(req: Request, g: Guards, caller: Metadata, codec: Codec, p: Game.Paytable, rng: Rng.CryptoRNG)
      returns (r: Result<TxResult>)
      requires req.body.SpinBody? && Game.Weight(p.symbols) < Rng.WORDS && Game.ValidTable(p)
      modifies this, rng
      ensures req.player !in old(wallets) || Refusal(g, req.body).Some? ==>
        && rng.src == old(rng.src) && Contents() == old(Contents())
        && r == Err(if req.player !in old(wallets) then PlayerNotFound else Refusal(g, req.body).value)
      ensures req.player in old(wallets) && Refusal(g, req.body).None? ==>
        var (scored, rest) := Game.Drawn(p, old(rng.src), []);
        && rng.src == rest
        && (scored.Refused? ==> r == Err(Unavailable) && Contents() == old(Contents()))
        && (scored.Scored? ==>
              && Contents() == AfterTx(old(Contents()), req, WithFit(g, caller, codec, scored.outcome), scored.outcome)
              && Answered(old(Contents()), req, WithFit(g, caller, codec, scored.outcome), scored.outcome, r))
    {
      var locked := SelectWalletForUpdate(req.player);
      if locked.None? { return Err(PlayerNotFound); }
      var wallet := locked.value;
      if !g.active { return Err(PlayerNotActive); }
      if g.excluded || g.overLimit { return Err(Restricted); }
      var scored := Game.Spin(p, rng);
      if scored.Refused? { return Err(Unavailable); }
      r := SettleRound(req, g, caller, codec, wallet, scored.outcome);
    }

    method SettleRound(req: Request, ghost g: Guards, caller: Metadata, codec: Codec, wallet: Wallet, outcome: Game.Outcome)
      returns (r: Result<TxResult>)
      requires req.body.SpinBody? && Refusal(g, req.body).None? && req.player in wallets && wallets[req.player] == wallet
      modifies this
      ensures Contents() == AfterTx(old(Contents()), req, WithFit(g, caller, codec, outcome), outcome)
      ensures Answered(old(Contents()), req, WithFit(g, caller, codec, outcome), outcome, r)
    {
      var winAmount := Game.WinFor(req.body.amount, outcome);
      var debits :- AllocateBet(wallet, req.body.family, req.body.amount);
      var postBet :- ApplyBet(wallet, debits);
      var post := postBet;
      var credit := None;
      if winAmount > 0 {
        var winLine :- AllocateWin(req.body.family, winAmount);
        credit := Some(winLine);
        post := ApplyWin(post, winLine);
      }
      var _ :- SpinMetadata(caller, codec, outcome);
      var lines := BuildSpinEntries(debits, postBet, credit, post);
      var betKey, winKey := Key(req.op, req.tx + BET_LEG), Key(req.op, req.tx + WIN_LEG);
      SuffixesDiffer(req.tx);
      SpinVerdict(Contents(), req, WithFit(g, caller, codec, outcome), outcome, lines, PlanSpin(req, wallet, outcome).value);
      var s := SettleSpinStatement(req.player, post, betKey, winKey, credit.Some?, outcome, lines);
      if s.Duplicate? {
        r := Recover(req);
        return;
      }
      r := Ok(TxResult(Processed,
        Payload(RequestKey(req), ESpin, req.player, s.betId, req.body.amount, winAmount, outcome), post));
    }
  }
}
