/** Gold coins and sweeps coins play the same game: the draw and the payout never look at the
    currency family, only the columns a stake is taken from do. */
module SameGame {
  import opened Domain
  import opened Ledger
  import opened LedgerFacts
  import Game
  import Rng

  /** What the caller sees of one round. */
  datatype Shown = Shown(outcome: Option<Game.Outcome>, win: Money, error: Option<Error>)

  datatype Table = Table(wallet: Wallet, src: seq<Rng.Byte>)

  function SpinFor(family: Family, stake: Money): Request {
    Request("op", "spin", 1, "", SpinBody(family, stake), Game.Outcome("", "", [], Game.LineNone, "", 0.0))
  }

  /** One guarded round against a locked wallet: draw, then allocate, then settle. */
  function PlayRound(t: Table, family: Family, stake: Money, p: Game.Paytable): (Table, Shown)
    requires 0 < Game.Weight(p.symbols) < Rng.WORDS
  {
    var (scored, rest) := Game.Drawn(p, t.src, []);
    if scored.Refused? then (Table(t.wallet, rest), Shown(None, 0, Some(Unavailable)))
    else
      var plan := PlanSpin(SpinFor(family, stake), t.wallet, scored.outcome);
      if plan.Err? then (Table(t.wallet, rest), Shown(None, 0, Some(plan.error)))
      else (Table(plan.value[|plan.value| - 1].after, rest), Shown(Some(scored.outcome), Game.WinFor(stake, scored.outcome), None))
  }

  function Play(t: Table, family: Family, stakes: seq<Money>, p: Game.Paytable): (Table, seq<Shown>)
    requires 0 < Game.Weight(p.symbols) < Rng.WORDS
    decreases |stakes|
  {
    if stakes == [] then (t, [])
    else
      var (t1, shown) := PlayRound(t, family, stakes[0], p);
      var (t2, more) := Play(t1, family, stakes[1..], p);
      (t2, [shown] + more)
  }

  /** The wallet after a round, whatever the family. */
  lemma RoundEffect(snap: Wallet, family: Family, stake: Money, outcome: Game.Outcome)
    requires snap.NonNegative() && family != FamilyUnknown
    ensures var plan := PlanSpin(SpinFor(family, stake), snap, outcome);
      && (plan.Ok? <==> 0 < stake <= snap.Liquidity(family))
      && (plan.Err? ==> plan.error == if stake <= 0 then InvalidAmount else InsufficientFunds)
      && (plan.Ok? ==>
            var after := plan.value[|plan.value| - 1].after;
            var win := Game.WinFor(stake, outcome);
            && after.NonNegative()
            && after.Liquidity(family) == snap.Liquidity(family) - stake + (if win > 0 then win else 0)
            && (family == FamilyGC ==> after.scUnplayed == snap.scUnplayed && after.scRedeemable == snap.scRedeemable)
            && (family == FamilySC ==>
                  && after.gc == snap.gc
                  && after.scUnplayed == (if stake < snap.scUnplayed then snap.scUnplayed - stake else 0)))
  {
    AllocateBetExact(snap, family, stake);
    var plan := PlanSpin(SpinFor(family, stake), snap, outcome);
    if plan.Ok? {
      var debits := AllocateBet(snap, family, stake).value;
      DebitedExact(snap, debits);
      var post := Debited(snap, debits).value;
      assert post.BalanceFor(GC) == snap.gc - SumOf(debits, GC);
      assert post.BalanceFor(SCUnplayed) == snap.scUnplayed - SumOf(debits, SCUnplayed);
      assert post.BalanceFor(SCRedeemable) == snap.scRedeemable - SumOf(debits, SCRedeemable);
    }
  }

  /** SC_REDEEMABLE is staked only when SC_UNPLAYED runs out, and then only for the shortfall. */
  lemma UnplayedGoesFirst(snap: Wallet, stake: Money, outcome: Game.Outcome)
    requires snap.NonNegative() && PlanSpin(SpinFor(FamilySC, stake), snap, outcome).Ok?
    ensures var bet := PlanSpin(SpinFor(FamilySC, stake), snap, outcome).value[0];
      && Net(bet.entries, SCRedeemable) == -(if stake > snap.scUnplayed then stake - snap.scUnplayed else 0)
      && (Net(bet.entries, SCRedeemable) != 0 ==> bet.after.scUnplayed == 0)
      && Net(bet.entries, SCUnplayed) + Net(bet.entries, SCRedeemable) == -stake
  {
    AllocateBetExact(snap, FamilySC, stake);
    var debits := AllocateBet(snap, FamilySC, stake).value;
    DebitedExact(snap, debits);
    var post := Debited(snap, debits).value;
    EntriesForOk(debits, Debit, HouseBetPool, post);
    assert post.BalanceFor(SCUnplayed) == snap.scUnplayed - SumOf(debits, SCUnplayed);
  }

  ghost predicate Twins(g: Table, s: Table) {
    g.wallet.NonNegative() && s.wallet.NonNegative() && g.wallet.gc == s.wallet.SCTotal() && g.src == s.src
  }

  lemma RoundKeepsTwins(g: Table, s: Table, stake: Money, p: Game.Paytable)
    requires Twins(g, s) && 0 < Game.Weight(p.symbols) < Rng.WORDS
    ensures Twins(PlayRound(g, FamilyGC, stake, p).0, PlayRound(s, FamilySC, stake, p).0)
    ensures PlayRound(g, FamilyGC, stake, p).1 == PlayRound(s, FamilySC, stake, p).1
  {
    var scored := Game.Drawn(p, g.src, []).0;
    if scored.Scored? {
      RoundEffect(g.wallet, FamilyGC, stake, scored.outcome);
      RoundEffect(s.wallet, FamilySC, stake, scored.outcome);
    }
  }

  /** For every generator stream and every sequence of stakes, a gold-coin run and a sweeps-coin
      run that start with equal totals see the same acceptances, refusals, outcomes and wins, and
      end with equal totals; so they do after every prefix. */
  lemma {:induction false} SameGameForBothFamilies(g: Table, s: Table, stakes: seq<Money>, p: Game.Paytable)
    requires Twins(g, s) && 0 < Game.Weight(p.symbols) < Rng.WORDS
    ensures Play(g, FamilyGC, stakes, p).1 == Play(s, FamilySC, stakes, p).1
    ensures Twins(Play(g, FamilyGC, stakes, p).0, Play(s, FamilySC, stakes, p).0)
    decreases |stakes|
  {
    if stakes != [] {
      RoundKeepsTwins(g, s, stakes[0], p);
      SameGameForBothFamilies(PlayRound(g, FamilyGC, stakes[0], p).0, PlayRound(s, FamilySC, stakes[0], p).0, stakes[1..], p);
    }
  }
}
