/** The slot-game model: paytable, weighted strip, line evaluator, and the closed forms for
    its return and variance. */
module Game {
  import opened Rng
  import opened Sums

  const REEL_COUNT := 3

  datatype Symbol = Symbol(id: string, weight: int, payThree: real, payTwo: real)

  datatype Paytable = Paytable(
    gameId: string, version: string, declaredRTP: real, symbols: seq<Symbol>, maxWin: real)

  datatype LineResult = LineNone | LineTwo | LineThree

  datatype Outcome = Outcome(
    gameId: string, version: string, reels: seq<string>, line: LineResult, winSymbol: string, multiplier: real) {

    predicate IsWin() { multiplier > 0.0 }
  }

  datatype Fault =
    | EmptyGameId | EmptyVersion | NoSymbols | NoWeight | NoCeiling
    | EmptySymbol(at: nat) | DuplicateSymbol(at: nat) | BadWeight(at: nat) | NegativePay(at: nat) | AboveCeiling(at: nat)

  datatype SpinError = BadTable(fault: Fault) | RngFailed(draw: Draw) | RollOutOfRange | WrongReels | UnknownSymbol | AboveMaxWin

  datatype Scored = Scored(outcome: Outcome) | Refused(error: SpinError)

  // --------------------------------------------------------------------------
  // Structure of a table
  // --------------------------------------------------------------------------

  function Weight(ss: seq<Symbol>): int {
    if ss == [] then 0 else ss[0].weight + Weight(ss[1..])
  }

  predicate SymbolOk(p: Paytable, s: Symbol) {
    s.id != "" && s.weight > 0 && s.payThree >= 0.0 && s.payTwo >= 0.0 && s.payThree <= p.maxWin
  }

  predicate DistinctIds(ss: seq<Symbol>) {
    forall i, j :: 0 <= i < j < |ss| ==> ss[i].id != ss[j].id
  }

  predicate ValidTable(p: Paytable) {
    && p.gameId != "" && p.version != "" && p.symbols != [] && Weight(p.symbols) > 0 && p.maxWin > 0.0
    && (forall i :: 0 <= i < |p.symbols| ==> SymbolOk(p, p.symbols[i]))
    && DistinctIds(p.symbols)
  }

  /** What each fault reports about the table. */
  predicate Exhibits(p: Paytable, f: Fault) {
    match f
    case EmptyGameId => p.gameId == ""
    case EmptyVersion => p.version == ""
    case NoSymbols => p.symbols == []
    case NoWeight => Weight(p.symbols) <= 0
    case NoCeiling => p.maxWin <= 0.0
    case EmptySymbol(i) => i < |p.symbols| && p.symbols[i].id == ""
    case DuplicateSymbol(i) => i < |p.symbols| && exists j :: 0 <= j < i && p.symbols[j].id == p.symbols[i].id
    case BadWeight(i) => i < |p.symbols| && p.symbols[i].weight <= 0
    case NegativePay(i) => i < |p.symbols| && (p.symbols[i].payThree < 0.0 || p.symbols[i].payTwo < 0.0)
    case AboveCeiling(i) => i < |p.symbols| && p.symbols[i].payThree > p.maxWin
  }

  datatype Verdict = Sound | Unsound(fault: Fault)

  method TotalWeight(p: Paytable) returns (total: int)
    ensures total == Weight(p.symbols)
  {
    total := 0;
    var i := 0;
    while i < |p.symbols|
      invariant 0 <= i <= |p.symbols|
      invariant total + Weight(p.symbols[i..]) == Weight(p.symbols)
    {
      total := total + p.symbols[i].weight;
      i := i + 1;
    }
  }

  method Validate(p: Paytable) returns (r: Verdict)
    ensures r.Sound? <==> ValidTable(p)
    ensures r.Unsound? ==> Exhibits(p, r.fault)
  {
    if p.gameId == "" { return Unsound(EmptyGameId); }
    if p.version == "" { return Unsound(EmptyVersion); }
    if |p.symbols| == 0 { return Unsound(NoSymbols); }
    var total := TotalWeight(p);
    if total <= 0 { return Unsound(NoWeight); }
    if p.maxWin <= 0.0 { return Unsound(NoCeiling); }
    var seen: set<string> := {};
    var i := 0;
    while i < |p.symbols|
      invariant 0 <= i <= |p.symbols|
      invariant forall j :: 0 <= j < i ==> SymbolOk(p, p.symbols[j])
      invariant forall id :: id in seen <==> exists j :: 0 <= j < i && p.symbols[j].id == id
      invariant forall j, k :: 0 <= j < k < i ==> p.symbols[j].id != p.symbols[k].id
    {
      var s := p.symbols[i];
      if s.id == "" { return Unsound(EmptySymbol(i)); }
      if s.id in seen { return Unsound(DuplicateSymbol(i)); }
      seen := seen + {s.id};
      if s.weight <= 0 { return Unsound(BadWeight(i)); }
      if s.payThree < 0.0 || s.payTwo < 0.0 { return Unsound(NegativePay(i)); }
      if s.payThree > p.maxWin { return Unsound(AboveCeiling(i)); }
      i := i + 1;
    }
    return Sound;
  }

  // --------------------------------------------------------------------------
  // The strip and the line
  // --------------------------------------------------------------------------

  /** Position on the strip of the symbol a roll lands on (|ss| when past the end). */
  function Walk(ss: seq<Symbol>, roll: int): nat {
    if ss == [] then 0 else if roll < ss[0].weight then 0 else 1 + Walk(ss[1..], roll - ss[0].weight)
  }

  function Find(ss: seq<Symbol>, id: string): nat {
    if ss == [] || ss[0].id == id then 0 else 1 + Find(ss[1..], id)
  }

  function Score(p: Paytable, reels: seq<string>): Scored {
    if |reels| != REEL_COUNT then Refused(WrongReels)
    else
      var a := Find(p.symbols, reels[0]);
      var paired := reels[0] == reels[1];
      var tripled := paired && reels[1] == reels[2];
      if paired && a >= |p.symbols| then Refused(UnknownSymbol)
      else
        var pay := if tripled then p.symbols[a].payThree else if paired then p.symbols[a].payTwo else 0.0;
        if pay > p.maxWin && pay > 0.0 then Refused(AboveMaxWin)
        else if pay <= 0.0 then Scored(Outcome(p.gameId, p.version, reels, LineNone, "", 0.0))
        else Scored(Outcome(p.gameId, p.version, reels, if tripled then LineThree else LineTwo, p.symbols[a].id, pay))
  }

  method SymbolByID(p: Paytable, id: string) returns (found: bool, at: nat)
    ensures at == Find(p.symbols, id)
    ensures found <==> at < |p.symbols|
  {
    at := 0;
    while at < |p.symbols|
      invariant 0 <= at <= |p.symbols|
      invariant at + Find(p.symbols[at..], id) == Find(p.symbols, id)
    {
      if p.symbols[at].id == id {
        return true, at;
      }
      at := at + 1;
    }
    return false, at;
  }

  method SymbolForRoll(p: Paytable, roll: nat) returns (found: bool, at: nat)
    ensures at == Walk(p.symbols, roll)
    ensures found <==> at < |p.symbols|
  {
    var acc := 0;
    at := 0;
    while at < |p.symbols|
      invariant 0 <= at <= |p.symbols|
      invariant at + Walk(p.symbols[at..], roll - acc) == Walk(p.symbols, roll)
    {
      acc := acc + p.symbols[at].weight;
      if roll < acc {
        return true, at;
      }
      at := at + 1;
    }
    return false, at;
  }

  method Evaluate(p: Paytable, reels: seq<string>) returns (r: Scored)
    requires p.maxWin > 0.0
    ensures r == Score(p, reels)
  {
    if |reels| != REEL_COUNT {
      return Refused(WrongReels);
    }
    var out := Outcome(p.gameId, p.version, reels, LineNone, "", 0.0);
    if reels[0] == reels[1] && reels[1] == reels[2] {
      var ok, at := SymbolByID(p, reels[0]);
      if !ok { return Refused(UnknownSymbol); }
      out := out.(line := LineThree, winSymbol := p.symbols[at].id, multiplier := p.symbols[at].payThree);
    } else if reels[0] == reels[1] {
      var ok, at := SymbolByID(p, reels[0]);
      if !ok { return Refused(UnknownSymbol); }
      out := out.(line := LineTwo, winSymbol := p.symbols[at].id, multiplier := p.symbols[at].payTwo);
    }
    if out.multiplier <= 0.0 {
      out := out.(line := LineNone, winSymbol := "", multiplier := 0.0);
    }
    if out.multiplier > p.maxWin {
      return Refused(AboveMaxWin);
    }
    return Scored(out);
  }

  /** The result of three given rolls. */
  function Rolled(p: Paytable, i: int, j: int, k: int): Scored {
    var ss := p.symbols;
    var a, b, c := Walk(ss, i), Walk(ss, j), Walk(ss, k);
    if a < |ss| && b < |ss| && c < |ss| then Score(p, [ss[a].id, ss[b].id, ss[c].id])
    else Refused(RollOutOfRange)
  }

  function Drawn(p: Paytable, src: seq<Byte>, reels: seq<string>): (Scored, seq<Byte>)
    requires 0 < Weight(p.symbols) < WORDS && |reels| <= REEL_COUNT
    decreases REEL_COUNT - |reels|
  {
    if |reels| == REEL_COUNT then (Score(p, reels), src)
    else
      var (d, rest) := DrawBelow(Weight(p.symbols), src);
      if !d.Value? then (Refused(RngFailed(d)), rest)
      else if Walk(p.symbols, d.v) >= |p.symbols| then (Refused(RollOutOfRange), rest)
      else Drawn(p, rest, reels + [p.symbols[Walk(p.symbols, d.v)].id])
  }

  method Spin(p: Paytable, rng: CryptoRNG) returns (r: Scored)
    requires Weight(p.symbols) < WORDS
    modifies rng
    ensures !ValidTable(p) ==> r.Refused? && r.error.BadTable? && rng.src == old(rng.src)
    ensures ValidTable(p) ==> (r, rng.src) == Drawn(p, old(rng.src), [])
  {
    var v := Validate(p);
    if v.Unsound? {
      return Refused(BadTable(v.fault));
    }
    var total := TotalWeight(p);
    var reels: seq<string> := [];
    var i := 0;
    while i < REEL_COUNT
      invariant 0 <= i <= REEL_COUNT && |reels| == i
      invariant Drawn(p, rng.src, reels) == Drawn(p, old(rng.src), [])
    {
      var d := rng.Uint64N(total);
      if !d.Value? {
        return Refused(RngFailed(d));
      }
      var ok, at := SymbolForRoll(p, d.v);
      if !ok {
        return Refused(RollOutOfRange);
      }
      reels := reels + [p.symbols[at].id];
      i := i + 1;
    }
    r := Evaluate(p, reels);
  }

  /** Payout of a stake in ledger units: truncated, never rounded up. */
  function WinFor(bet: int, o: Outcome): int {
    if o.IsWin() then (bet as real * o.multiplier).Floor else 0
  }
}
