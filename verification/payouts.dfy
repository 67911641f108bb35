/** What a spin pays: the stake times the recorded multiplier, cut off at the ledger's last digit.  So
    the published return speaks of the money credited, to within one unit a spin. */
module Payouts {
  import opened Domain
  import opened Ledger
  import opened LedgerFacts
  import opened Protocol
  import opened ProtocolSafety
  import opened Rounds
  import opened SameGame
  import opened GameMath
  import opened SpinStreams
  import Game
  import Rng
  import Sums

  // --------------------------------------------------------------------------
  // One round
  // --------------------------------------------------------------------------

  /** The whole units in stake times multiplier, and nothing when the multiplier is not positive. */
  predicate CutOff(pay: Money, stake: Money, multiplier: real) {
    if multiplier <= 0.0 then pay == 0
    else pay as real <= stake as real * multiplier && stake as real * multiplier < pay as real + 1.0
  }

  /** There is one such amount. */
  lemma CutOffIsUnique(a: Money, b: Money, stake: Money, multiplier: real)
    requires CutOff(a, stake, multiplier) && CutOff(b, stake, multiplier)
    ensures a == b
  {
    if multiplier > 0.0 { assert (a as real) < b as real + 1.0 && (b as real) < a as real + 1.0; }
  }

  lemma PayIsCutOff(stake: Money, o: Game.Outcome)
    ensures CutOff(Game.WinFor(stake, o), stake, o.multiplier)
    ensures stake > 0 ==> Game.WinFor(stake, o) >= 0
  {
    if o.IsWin() && stake > 0 { assert stake as real * o.multiplier >= 0.0; }
  }

  /** What the ledger credits for the round of BET leg `i`: its WIN leg, which comes next, or nothing. */
  function CreditedFor(rows: seq<Row>, i: nat): Money
    requires i < |rows|
  {
    if i + 1 < |rows| && LegOfRound(rows[i], rows[i + 1], i) then NetAll(rows[i + 1]) else 0
  }

  /** In whole rounds the next leg is there exactly when the outcome pays, and pays it. */
  lemma RoundCredits(rows: seq<Row>, i: nat)
    requires RoundsOk(rows) && i < |rows| && Ends(rows[i].key.tx, BET_LEG)
    ensures NetAll(rows[i]) < 0
    ensures CreditedFor(rows, i) == if Game.WinFor(-NetAll(rows[i]), rows[i].meta) > 0 then Game.WinFor(-NetAll(rows[i]), rows[i].meta) else 0
  {
    assert RoundAt(rows, i);
    if i + 1 < |rows| && LegOfRound(rows[i], rows[i + 1], i) {
      LegEnds(Base(rows[i].key.tx));
      assert RoundAt(rows, i + 1);
    }
  }

  /** In every reachable state a settled spin is credited exactly the whole units in its stake times
      the multiplier on record. */
  lemma SpinCreditsCutOff(s: State, i: nat)
    requires Reachable(s) && SuffixFree(s.procs) && i < |s.db.rows| && Ends(s.db.rows[i].key.tx, BET_LEG)
    ensures NetAll(s.db.rows[i]) < 0
    ensures CutOff(CreditedFor(s.db.rows, i), -NetAll(s.db.rows[i]), s.db.rows[i].meta.multiplier)
  {
    var start, labels :| Init(start) && RunFrom(start, labels) == Some(s);
    RunKeepsRounds(start, labels, s);
    RoundCredits(s.db.rows, i);
    CreditIsCutOff(CreditedFor(s.db.rows, i), -NetAll(s.db.rows[i]), s.db.rows[i].meta);
  }

  lemma CreditIsCutOff(credit: Money, stake: Money, o: Game.Outcome)
    requires stake > 0 && credit == if Game.WinFor(stake, o) > 0 then Game.WinFor(stake, o) else 0
    ensures CutOff(credit, stake, o.multiplier)
  {
    PayIsCutOff(stake, o);
  }

  /** And every success reply to a spin, fresh, recovered or cached, reports that amount for the
      amount it names and the outcome the ledger recorded. */
  lemma ReplyReportsCutOff(s: State, id: nat)
    requires Reachable(s) && id in s.procs && s.procs[id].pc.Replied? && s.procs[id].pc.payload.endpoint.ESpin?
    ensures var p := s.procs[id].pc.payload;
      && p.ledgerId < |s.db.rows| && p.outcome == s.db.rows[p.ledgerId].meta
      && CutOff(p.win, p.amount, p.outcome.multiplier)
  {
    ReachableInv(s);
    assert ProcOk(s.db, s.procs[id]);
    PayIsCutOff(s.procs[id].pc.payload.amount, s.procs[id].pc.payload.outcome);
  }

  // --------------------------------------------------------------------------
  // The return in money
  // --------------------------------------------------------------------------

  /** What a round adds to the family's coins beyond taking the stake. */
  function Paid(snap: Wallet, family: Family, stake: Money, o: Game.Outcome): Money {
    var plan := PlanSpin(SpinFor(family, stake), snap, o);
    if plan.Err? then 0 else plan.value[|plan.value| - 1].after.Liquidity(family) - snap.Liquidity(family) + stake
  }

  lemma PaidIsCutOff(snap: Wallet, family: Family, stake: Money, o: Game.Outcome)
    requires snap.NonNegative() && family != FamilyUnknown && 0 < stake <= snap.Liquidity(family)
    ensures CutOff(Paid(snap, family, stake, o), stake, o.multiplier)
  {
    RoundEffect(snap, family, stake, o);
    PayIsCutOff(stake, o);
  }

  function PaidFor(snap: Wallet, family: Family, stake: Money): Game.Outcome -> real {
    (o: Game.Outcome) => Paid(snap, family, stake, o) as real
  }

  /** Between nothing and `ones` units are cut off `multiplier` stakes. */
  predicate Short(paid: real, stake: Money, multiplier: real, ones: real) {
    paid <= stake as real * multiplier && stake as real * multiplier <= paid + ones
  }

  lemma ShortAdds(a: real, m: real, c: real, b: real, k: real, d: real, stake: Money)
    requires Short(a, stake, m, c) && Short(b, stake, k, d)
    ensures Short(a + b, stake, m + k, c + d)
  {
    assert stake as real * (m + k) == stake as real * m + stake as real * k;
  }

  lemma {:induction false} SumShort(n: nat, paid: int -> real, mult: int -> real, ones: int -> real, stake: Money)
    requires forall t: nat :: t < n ==> Short(paid(t), stake, mult(t), ones(t))
    ensures Short(Sums.Sum(n, paid), stake, Sums.Sum(n, mult), Sums.Sum(n, ones))
  {
    if n > 0 {
      SumShort(n - 1, paid, mult, ones, stake);
      ShortAdds(Sums.Sum(n - 1, paid), Sums.Sum(n - 1, mult), Sums.Sum(n - 1, ones), paid(n - 1), mult(n - 1), ones(n - 1), stake);
    }
  }

  lemma MultiplierNonNegative(p: Game.Paytable, src: seq<Rng.Byte>)
    requires Game.ValidTable(p) && Game.Weight(p.symbols) < Rng.WORDS && Game.Drawn(p, src, []).0.Scored?
    ensures Game.Drawn(p, src, []).0.outcome.multiplier >= 0.0
  {
    DrawnIsRolled(p, src);
  }

  lemma SpinShort(p: Game.Paytable, width: nat, snap: Wallet, family: Family, stake: Money, t: nat)
    requires Game.ValidTable(p) && Game.Weight(p.symbols) < Rng.WORDS
    requires snap.NonNegative() && family != FamilyUnknown && 0 < stake <= snap.Liquidity(family)
    ensures var spin := SpinOn(p, width, t);
      Short(Quantity(PaidFor(snap, family, stake), spin), stake, Quantity(PAYS, spin), Quantity(ONE, spin))
  {
    var spin := SpinOn(p, width, t);
    if spin.Scored? {
      MultiplierNonNegative(p, Rng.Encode(t, width));
      PaidIsCutOff(snap, family, stake, spin.outcome);
    }
  }

  /** Over all entropy streams of any one length, the money credited for a stake is the stake times
      the published return for every completed spin, less at most one unit for each. */
  lemma ReturnIsMoneyPaid(p: Game.Paytable, width: nat, snap: Wallet, family: Family, stake: Money)
    requires Game.ValidTable(p) && PairsWithinCeiling(p) && Game.Weight(p.symbols) < Rng.WORDS
    requires snap.NonNegative() && family != FamilyUnknown && 0 < stake <= snap.Liquidity(family)
    ensures Short(Sums.Sum(Streams(width), OverSpins(p, width, PaidFor(snap, family, stake))), stake,
      Completed(p, width) * RTP(p), Completed(p, width))
  {
    var paid, mult, ones := OverSpins(p, width, PaidFor(snap, family, stake)), OverSpins(p, width, PAYS), OverSpins(p, width, ONE);
    forall t: nat | t < Streams(width) ensures Short(paid(t), stake, mult(t), ones(t)) {
      SpinShort(p, width, snap, family, stake, t);
    }
    SumShort(Streams(width), paid, mult, ones, stake);
    SpinReturnsMean(p, width);
  }
}
