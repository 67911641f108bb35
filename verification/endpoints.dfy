/** The barrier tells calls apart by Redis key and fingerprint alone, so a call alike on another
    endpoint is answered with the wrong endpoint's receipt. */
module Endpoints {
  import opened Domain
  import opened Ledger
  import opened Protocol
  import opened Engine
  import opened Runs
  import opened Replies
  import Game

  /** Whenever a call can settle and a later one is alike, some run answers the later call with the
      receipt of the first: with `Replies.OneEndpointReplies`, replies stay on their endpoint exactly
      when no two alike calls come in on different ones. */
  lemma AlikeCallIsAnswered(s: State, i: nat, j: nat, a: Request, b: Request, g: Guards, drawn: Game.Outcome, legs: seq<Leg>)
    requires ReadyFor(s, i, a) && j !in s.procs && i != j && Validate(b, s.maxWin).None? && Alike(a, b)
    requires Judge(s.db, a, g, drawn) == Settles(legs) && legs != []
    ensures var t := Arrived(CallDone(s, i, a, drawn, legs), j, b, Replied(CachedReply, SettledReceipt(s, a, drawn, legs)));
      Reachable(t) && t.procs[j].pc.payload.endpoint == EndpointOf(a.body) && t.procs[j].req == b
  {
    CallSettles(s, i, a, g, drawn, legs);
    var s1 := CallDone(s, i, a, drawn, legs);
    assert AcquirePc(s1, b) == Replied(CachedReply, SettledReceipt(s, a, drawn, legs));
    AnsweredAtOnceIsRun(s1, j, b, true, Arrived(s1, j, b, Replied(CachedReply, SettledReceipt(s, a, drawn, legs))));
  }

  /** A bet sent byte for byte like an earlier win is told the win's receipt, and nothing is
      staked. */
  lemma WinAnswersBet(meta: Game.Outcome)
    ensures exists t, j ::
      && Reachable(t) && j in t.procs && t.procs[j].req.body.BetBody? && t.procs[j].pc.Replied?
      && t.procs[j].pc.payload.endpoint.EWin? && t.db.wallets == map[1 := Wallet(5, 0, 0)]
  {
    var win := Request("op", "x", 1, "h", WinBody(FamilyGC, 5, None), meta);
    var bet := win.(body := BetBody(FamilyGC, 5));
    var s := OnePlayer(1, 0);
    OnePlayerIsReachable(1, 0);
    var g := OPEN;
    var leg := PlanWin(RequestKey(win), NoRef, meta, ZERO_WALLET, FamilyGC, 5).value;
    assert Plan(s.db.rows, ZERO_WALLET, win, g, meta) == Ok([leg]);
    OneLegVerdict(s.db, win, g, meta, leg);
    assert ApplyLegs(s.db, 1, [leg]) == ApplyLeg(s.db, 1, leg) by { assert [leg][1..] == []; }
    AlikeCallIsAnswered(s, 0, 1, win, bet, g, meta, [leg]);
    var t := Arrived(CallDone(s, 0, win, meta, [leg]), 1, bet, Replied(CachedReply, SettledReceipt(s, win, meta, [leg])));
    assert t.db.wallets == map[1 := ZERO_WALLET][1 := Wallet(5, 0, 0)];
    assert t.procs[1].req.body.BetBody?;
  }
}
