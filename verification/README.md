# Verified model of the sweepstakes wallet engine

The engine is a money state machine: wallets with three columns (gold coins, unplayed and redeemable
sweeps coins), an append-only double-entry ledger, a dedup table that anchors each operator transaction,
and a Redis barrier in front of them. Around it sit an exact slot-game model and several timed protocols.
This project models them in Dafny and proves what they promise over every input and every run.
`dafny verify dfyconfig.toml` checks everything.

Money is an integer count of 10^-4 units. Database rows, Redis keys and sorted sets are explicit
in-memory state; clocks, guard answers and entropy are parameters.

| file | what it holds |
|---|---|
| `domain.dfy` | wallets and the allocators of bets, wins, purchases, promo grants and redemptions |
| `rng.dfy`, `rng_streams.dfy`, `sums.dfy`, `game.dfy`, `game_math.dfy` | the rejection-sampled generator and its uniformity over words and streams, the paytable and line evaluator, and the closed forms for return and variance proved against the evaluator |
| `tallies.dfy`, `spin_streams.dfy`, `payouts.dfy` | the spin over all entropy streams: every triple of rolls equally often, so the published return is the mean of the spin, and what that pays in ledger units |
| `idempotency.dfy` | the fingerprint pre-image, the stored value, the Redis barrier and its runs |
| `ledger.dfy`, `ledger_facts.dfy` | what each request plans under the wallet lock, and why writing a plan keeps ledger and wallets equal |
| `protocol.dfy`, `protocol_safety.dfy` | the concurrent protocol: any number of calls with program counters, crashes, unseen commits, lost cache writes, lapsing markers, foreign releases, pruned anchors; and its inductive invariant |
| `steps.dfy`, `retention.dfy` | what one step can change, and once-only settlement across retention |
| `guarantees.dfy`, `replies.dfy`, `amounts.dfy`, `rounds.dfy` | what follows in every reachable state |
| `requests.dfy` | what each kind of request does to a locked wallet, in amounts, and what every guard and the validation let through |
| `engine.dfy`, `runs.dfy`, `service.dfy` | the transaction bodies and the request path as step-by-step code over mutable tables, each call proved to be a run of the protocol and to serve the plan's verdict |
| `reversals.dfy`, `endpoints.dfy`, `retries.dfy` | what a reversal undoes and what it does not, calls the barrier can not tell apart, and what a retry of a settled request is told, with the runs that show it |
| `same_game.dfy` | gold coins and sweeps coins play the same game |
| `limits.dfy`, `limit_requests.dfy`, `compliance.dfy` | the append-only limit log, when a request is recorded and what it then does, and exclusions over the engine's own ledger rows |
| `windows.dfy`, `loss_counter.dfy`, `worst_stretch.dfy`, `limited_play.dfy`, `period_change.dfy` | calendar windows, the cached loss counter and what exactly it holds, the loss limit over the engine's own ledger rows, and what a change of period loosens |
| `ggr.dfy`, `ggr_rows.dfy`, `kyc.dfy`, `kyc_orders.dfy`, `ratelimit.dfy`, `replay.dfy`, `reconciler.dfy`, `dedup_prune.dfy` | the streaming and timed protocols |

## How the pieces connect

* `Ledger.Plan` says what one request does to a locked wallet. `Engine` runs the same request step by step
  (wallet update, header, dedup anchor, entry lines, rollback on a duplicate) and every method's
  postcondition is the plan's effect and reply, no more and no less.
* `Service.Process` is the whole request path. Its invariant says that its tables are the state of some run
  of `Protocol`, so each guarantee below holds of the tables the step-by-step code writes; and a valid call
  that finds its key free leaves exactly the tables and the reply of the plan's verdict.
* `Protocol` lets calls interleave at every step. `ProtocolSafety.Inv` is kept by every step, and the
  guarantee files draw the conclusions.

## What the code does that its comments do not say

* `Store` is a plain SET XX. It overwrites whatever marker the key holds, not only the caller's own
  (`internal/cache/idempotency.go:272-275`). The protocol model does the same; exactly-once survives it.
* The fingerprint binds player and body but not the endpoint. Replies stay on their endpoint exactly when no two
  calls alike in key and fingerprint come in on different ones: `Replies.OneEndpointReplies` one way,
  `Endpoints.AlikeCallIsAnswered` the other, and `Endpoints.WinAnswersBet` is a run.
* The Redis key joins operator and transaction id with a colon. It is injective exactly when no operator
  code extends another past a colon: `Idempotency.IdempotencyKeyExactly`.
* `Validate` bounds three of a kind but not a pair. A spin is total on a valid table exactly when every
  pair that can be rolled is within the ceiling: `GameMath.SpinTotalExactly`.
* The metadata cap is applied after the draw, so a refusal can depend on the outcome. It does not exactly when the
  stake is refused anyway or every outcome encodes on the same side of the cap: `Engine.RefusalIsBlindExactly`.
* The delay on limit increases compares amounts and ignores the period. A limit of b per shorter period that
  replaces a per longer one at once lets the player lose more than a in a longer window exactly when b once per
  shorter window it meets is more than a: `PeriodChange.ShorterPeriodLoosensExactly`.
* A loss or deposit limit can not be removed. The row a removal writes violates the table's period
  constraint (`migrations/000011_responsible_gaming.up.sql`): `Limits.RemovalAlwaysFails`.
* A counter row is not bumped while another period governs, so switching periods can leave a row behind the
  ledger and the limit then under-counts. `LossCounter.ProtectsExactly` gives the exact condition and
  `LossCounter.SwitchingPeriodsUndercounts` a history that meets it.
* Overlapping aggregator cycles are not harmless: the watermark is rewritten from the transaction's start,
  so a cycle that started earlier and ran later moves it back. `Ggr.CycleExactly` gives the exact condition,
  `Ggr.OverlapCountsTwice` a run that counts a bet twice.
* A comment calls a rolled-back BET never settled (`internal/repository/engine.go:613-615`), but nothing about a WIN
  enters the rollback (`Reversals.RollbackPlannedExactly`), so a round that paid can be reversed and the player keeps
  the win (`Reversals.PaidRoundReversed`; `Reversals.PaidRoundReversedRun` is a run). Reversing leaves the player no
  better off than never having played exactly when nothing was won on the BET and nothing of it was reversed before
  (`Reversals.NoBetterOffExactly`), and for a spin exactly when the recorded outcome does not pay
  (`Reversals.SpinNoBetterOffExactly`).
* A settled transaction whose reply was lost is not always reported again (`ARCHITECTURE.md:89-91`). A retry is
  planned before it meets its own anchor, so it is recovered exactly when it could settle once more
  (`Retries.RetryToldExactly`), a bet exactly when the wallet covers its stake a second time
  (`Retries.BetRetryToldExactly`). `Retries.SettledBetIsRefusedRun` bets everything, retries and is refused. A recovered rollback names the amount zero (`internal/repository/engine.go:587-588`, in the same lemma).
* The loss counter is floored at every step, so it is not the window's net loss: a win can take it down to zero but
  never into credit. It is the worst net loss since any moment of the window
  (`WorstStretch.CounterIsWorstStretch`), and a stake is refused by that (`WorstStretch.RefusedExactly`).
* Retention drops anchors after seven days on the premise that no retry arrives later
  (`internal/worker/dedup_prune.go:21-24`). Under that premise, stated on the calls, keys are still settled once
  (`Retention.OnceOnly`). Without it a late rollback retry credits the stake again
  (`Reversals.LateRetryCreditsAgain`, and as a run `Reversals.LateRetryRun`).
* An applied VERIFIED decision sets the player ACTIVE from any status, suspended and closed included:
  `Kyc.FinalIsNewestVerified`.

## Model

| member | source | states |
|---|---|---|
| Domain.ApplyBet | internal/domain/wallet.go:160-213 | applying debits line by line gives the wallet, or the first refusal, of the specification whose meaning DebitedExact states |
| Domain.DebitedExact | internal/domain/wallet.go:160-213 | a debit plan applies if and only if every line is positive and no column is overdrawn by the plan as a whole, and then each column falls by exactly its own lines |
| Domain.AllocateBetExact | internal/domain/wallet.go:83-146 | a stake is accepted if and only if it is positive, the family exists and its liquidity covers it; the plan debits exactly the stake, touches SC_REDEEMABLE only for what SC_UNPLAYED lacks, and always applies cleanly |
| Domain.ApplyPurchase | internal/domain/casino.go:73-90 | the loop over credits gives the specified wallet |
| Domain.IssuanceNeverMintsRedeemable | internal/domain/casino.go:47-166 | purchases and promo grants are accepted if and only if both amounts are non-negative and one is positive, credit exactly those amounts, and never SC_REDEEMABLE |
| Rng.CryptoRNG.Uint64N | internal/game/rng.go:57-88 | the redraw loop returns the draw, and leaves the entropy, that the bounded sampling specification says |
| Rng.ThresholdIsIncompleteBlock | internal/game/rng.go:71-74 | the wrapped negation modulo n is 2^64 mod n, below 2^63, and the rest is a whole number of blocks |
| Rng.BranchesAgree | internal/game/rng.go:61-69 | for powers of two the mask is reduction modulo n and nothing would be rejected |
| Rng.AcceptedWordsAreUniform | internal/game/rng.go:71-84 | every residue below n has exactly (2^64 - threshold) / n accepted words, for every n |
| RngStreams.StreamsAreUniform | internal/game/rng.go:57-92 | among all streams of 128 words every value below n is returned by equally many: moving the accepted word within its block matches them one to one |
| Rng.WordsAreEightBytes | internal/game/rng.go:99-105 | each word is read from one and only one run of eight bytes, highest first |
| Rng.DrawExact | internal/game/rng.go:57-92 | a draw succeeds if and only if an accepted word arrives within the attempts, and is then the first such word modulo n, with exactly the words up to it consumed |
| Game.Validate | internal/game/paytable.go:91-132 | accepts exactly the well-formed tables, and each refusal names a fault the table has |
| Game.SymbolForRoll | internal/game/spin.go:72-85 | the accumulating walk lands on the symbol of the strip specification, or reports a roll past the end |
| Game.Evaluate | internal/game/spin.go:97-147 | the line evaluator scores, or refuses, as specified for any three reels |
| Game.Spin | internal/game/spin.go:47-66 | an invalid table draws nothing; otherwise the result and the entropy left are the specified three draws, walk and score |
| GameMath.TheoreticalRTP | internal/game/paytable.go:149-172 | the loop computes the closed-form return |
| GameMath.TheoreticalVariance | internal/game/paytable.go:196-222 | the loop computes the closed-form variance |
| GameMath.StripVisits | internal/game/spin.go:72-85 | over all rolls the strip visits each symbol exactly as often as its weight says |
| GameMath.SpinTotalExactly | internal/game/spin.go:134-147 | every roll of a valid table scores if and only if every rollable pair pays within the ceiling |
| GameMath.ValidationMissesPairs | internal/game/paytable.go:125-130 | a table that validates and still refuses a roll |
| GameMath.ReturnIsExhaustiveMean | internal/game/paytable.go:134-172 | for every valid table with pairs within the ceiling, the sum of the real evaluator's multiplier over all W^3 rolls is the sum of w^3*PayThree + w^2*(W-w)*PayTwo, and W^3 times the published return |
| GameMath.VarianceIsExhaustive | internal/game/paytable.go:174-222 | the published variance is the exact mean squared deviation of the real evaluator over all W^3 rolls |
| GameMath.VarianceNeverNegative | internal/game/paytable.go:234-243 | no valid table has a negative variance |
| GameMath.DrawnIsRolled | internal/game/spin.go:47-66 | one draw per reel, each from where the last left the stream: the spin is the evaluator on the three values drawn, or the first draw that fails |
| GameMath.RolledShows | internal/game/spin.go:97-147 | the outcome shows the three symbols, three of a kind or a leading pair exactly when they pay, and no line exactly when nothing is paid |
| SpinStreams.DrawsAreUniform | internal/game/rng.go:57-92 | among all streams of any one length, every sequence of values below n is drawn by equally many: redrawing matches them one to one |
| SpinStreams.RolledAsOften | internal/game/spin.go:57-66 | so every triple of rolls is reached by the same number of streams |
| SpinStreams.SpinReturnsMean | internal/game/paytable.go:134-222 | the published return and variance are the mean multiplier, and its mean squared deviation, of the spin itself over all streams of any one length that complete one |
| SpinStreams.SomeSpinCompletes | internal/game/spin.go:47-66 | from three words on some stream does |
| Payouts.SpinCreditsCutOff | internal/game/spin.go:150-161 | in every reachable state a settled spin is credited the one whole number of ledger units w with w <= stake times recorded multiplier < w + 1, and nothing when the multiplier is not positive |
| Payouts.ReplyReportsCutOff | internal/repository/spin.go:339-416 | every success reply to a spin, fresh, recovered or cached, reports that amount for the amount it names and the outcome on record |
| Payouts.ReturnIsMoneyPaid | internal/game/spin.go:150-161 | over all streams the money credited for a stake is the stake times the published return for every completed spin, less at most one unit for each |
| Idempotency.Fingerprint | internal/cache/idempotency.go:90-97 | the bytes written to the hash are the length-prefixed pre-image of the parts |
| Idempotency.PreimageInjective | internal/cache/idempotency.go:80-97 | distinct part lists of any lengths never feed the hash the same bytes |
| Idempotency.IdempotencyKeyExactly | internal/repository/engine.go:102-106 | the joined key identifies the operator transaction if and only if no operator code extends another past a colon |
| Idempotency.Redis.Acquire | internal/cache/idempotency.go:167-248 | answers as the specified decision on the live value and claims the key only when there is none |
| Idempotency.Redis.Store | internal/cache/idempotency.go:276-295 | writes fingerprint and payload over any live value, and nothing over an absent one |
| Idempotency.Redis.Release | internal/cache/idempotency.go:300-308 | deletes the key whoever holds it |
| Idempotency.DecideExact | internal/cache/idempotency.go:167-191 | the stored value splits back to exactly what was written, whatever the payload holds |
| Idempotency.BarrierAnswers | internal/cache/idempotency.go:151-309 | what a claim is answered after a claim, a stored reply and a release, by whom and until when, and that other keys do not notice |
| Idempotency.CachedRepliesAreBound | internal/cache/idempotency.go:151-191 | over any run of calls by any callers, a cached payload is only served to the fingerprint that stored it |
| Idempotency.BarrierIsNotMutex | internal/cache/idempotency.go:297-308 | two claims of one key both succeed after the marker lapses, and after a third party releases it |
| LedgerFacts.PlanSound | internal/repository/engine.go:196-635 | every plan of every request is a balanced change of the right kind to one wallet, never below zero, with correct balance_after lines |
| LedgerFacts.PlanStable | internal/repository/engine.go:492-533 | a plan made under a player's lock is unchanged by any commit of other players |
| LedgerFacts.ApplyLegOk | internal/repository/engine.go:246-290 | writing a sound transaction keeps ledger, wallet cache, anchors and trail good |
| Requests.GuardsDecideExactly | internal/repository/engine.go:215-229 | per kind of request, exactly which answers about activity, exclusion, limit and metadata let a plan through, and what each refusal is told; a guard changes nothing else |
| Requests.BetExactly | internal/repository/engine.go:231-246 | a bet settles if and only if it is positive, in a known family and covered; gold coins fall by it, or unplayed sweeps coins and then redeemable ones |
| Requests.WinExactly | internal/repository/engine.go:375-405 | a positive win in a known family settles whatever the wallet, into GC or SC_REDEEMABLE, with the caller's reference |
| Requests.IssueExactly | internal/repository/casino.go:302-327 | purchases and grants settle if and only if no part is negative and one is positive, and add gold and unplayed coins |
| Requests.RedeemExactly | internal/repository/casino.go:419-440 | a redemption settles if and only if SC_REDEEMABLE alone covers it |
| Requests.RollbackExactly | internal/repository/engine.go:492-611 | which of four refusals a rollback meets, and that otherwise every column is back by what the BET took from it |
| Requests.SpinExactly | internal/repository/spin.go:250-289 | a spin settles if and only if a bet of its stake would, and leaves the staked wallet with the whole units in stake times multiplier on top, in a second leg that references the first |
| Requests.ValidationExactly | internal/repository/engine.go:1004-1057 | validation lets through exactly the named requests under the ceilings that some ledger, wallet and outcome would settle |
| Engine.BuildSpinEntries | internal/repository/settle.go:85-130 | the flattened lines routed to each leg are exactly that leg's double-entry lines |
| Engine.Engine.InsertLedgerTx | internal/repository/engine.go:820-856 | appends the header and, only if the key is free, its anchor |
| Engine.Engine.InsertEntries | internal/repository/engine.go:276-284 | appends one player line and one balancing house line per movement |
| Engine.Engine.Recover | internal/repository/engine.go:682-744 | answers from a committed row under the key, refuses other players and other types, and refuses when there is none |
| Engine.Engine.WriteOne | internal/repository/engine.go:246-307 | either the whole transaction is written or, when the key is taken, nothing is and the recovered reply is returned |
| Engine.Engine.ProcessBetTx | internal/repository/engine.go:196-308 | the tables and the reply after a bet are exactly the plan's verdict: settled, recovered or refused |
| Engine.Engine.ProcessWinTx | internal/repository/engine.go:353-434 | the same for a win |
| Engine.Engine.ProcessRollbackTx | internal/repository/engine.go:473-635 | the same for a rollback, under any guard answers |
| Engine.Reverse | internal/repository/engine.go:546-611 | re-credits every fetched debit and totals them, or refuses an entry that is not a debit |
| Engine.Engine.AlreadyRolledBack | internal/repository/queries.go:270-287 | finds a rollback of the reference under any other key, and only that |
| Engine.Engine.ProcessPurchaseTx | internal/repository/casino.go:268-363 | the same for a purchase |
| Engine.Engine.ProcessRedeemTx | internal/repository/casino.go:401-475 | the same for a redemption |
| Engine.Engine.ProcessPromoGrantTx | internal/repository/promo.go:119-214 | the same for a promo grant |
| Engine.Engine.SettleSpinStatement | internal/repository/queries.go:80-138 | one atomic statement: wallet, headers, anchors and every line under its own header, or nothing |
| Engine.SpinMetadata | internal/repository/spin.go:430-459 | the stored metadata keeps every caller field except the outcome, which is always the drawn one; anything but an object, or an encoding over 512 bytes, is refused |
| Engine.SpinRefusedExactly | internal/repository/spin.go:239-294 | a spin is refused if and only if its stake is or the drawn outcome does not fit beside the caller's fields |
| Engine.RefusalIsBlindExactly | internal/repository/spin.go:184-187 | a spin's refusal is independent of its draw if and only if the stake is refused anyway or every outcome falls on the same side of the cap |
| Engine.Engine.ProcessSpinTx | internal/repository/spin.go:199-354 | a guard's refusal leaves the generator untouched; otherwise the outcome depends only on the table and the stream, and tables and reply are the plan's verdict on it, the metadata refusals included |
| Service.Service.Process | internal/repository/engine.go:158-194 | one call is a run of the concurrent protocol; a valid call that finds its key free leaves exactly the tables, generator, slot and reply of the plan's verdict, and any other call changes nothing and is answered by validation, the barrier or the slot |
| Service.Service.Lapse | internal/cache/idempotency.go:56-60 | a marker or cached reply that lapses leaves the tables untouched |
| Runs.CallSettles | internal/repository/engine.go:158-194 | in a quiet state every settleable call has a run that settles it and caches its reply |
| Runs.TransactionIsRun | internal/repository/engine.go:196-308 | the step-by-step transaction is the protocol's lock, stage and commit or recovery |
| ProtocolSafety.StepKeeps | internal/repository/engine.go:158-308 | every step of the protocol, under any interleaving or failure, keeps ledger, cache, anchors, locks, replies and cached slots good |
| ProtocolSafety.CommitConserves | internal/repository/queries.go:193-209 | a commit adds one row and one anchor per key |
| ProtocolSafety.RecoverKeeps | internal/repository/engine.go:672-744 | a recovered receipt reports a committed row of the same player and type |
| Guarantees.ExactlyOnce | internal/repository/queries.go:193-209 | in every reachable state a key has been committed once per pruned anchor plus once if its anchor stands, so a key that no call outlives names at most one ledger transaction |
| Retries.RetryToldExactly | internal/repository/engine.go:672-744 | when a request's key is settled and its reply gone, a retry is recovered, with the settled transaction, its outcome and the wallet of now, if and only if it names a transaction of its player and type and its plan still stands; otherwise it is told the plan's refusal or a conflict |
| Retries.BetRetryToldExactly | internal/repository/engine.go:231-266 | a settled bet is reported again if and only if the wallet covers its stake a second time |
| Retries.SettledBetIsRefusedRun | internal/repository/engine.go:231-266 | a run in which a settled bet is retried and refused for insufficient funds |
| Retention.OnceOnly | internal/worker/dedup_prune.go:21-25 | when no call that writes a key is in flight at, or arrives after, a prune of its anchor, the key is settled at most once, retention and all |
| Retention.NeverPrunedIsTimely | internal/worker/dedup_prune.go:21-25 | the premise holds in particular while the anchor was never pruned |
| Guarantees.SuccessIsBacked | internal/repository/engine.go:158-194 | every success reply ever given is backed by a committed transaction of that player |
| Guarantees.WalletIsLedger | internal/worker/reconciler.go:54-91 | in every reachable state each wallet column is non-negative and equals its ledger lines, and every transaction balances per currency |
| Guarantees.LockHolderSeesCommitted | internal/repository/queries.go:9-17 | a lock holder is alone and its snapshot is the committed wallet |
| Guarantees.NewestLineIsBalance | internal/repository/engine.go:274-284 | the newest ledger line of a player and currency records the current wallet column |
| Guarantees.ReversedAtMostOnce | internal/repository/engine.go:517-571 | rollbacks of one BET share one key, reference an earlier BET of the same player and credit exactly its debits per currency; when no rollback call outlives its anchor there is at most one |
| Guarantees.RollbackRetry | internal/repository/engine.go:517-590 | a retry of a committed rollback is recovered as success while its anchor stands, and settles again once it is pruned |
| Guarantees.RedeemableOnlyFromWinning | internal/domain/casino.go:92-166 | over every run in which no rollback call outlives its anchor, SC_REDEEMABLE plus everything withdrawn never exceeds the SC winnings |
| Replies.AtMostOneProcessed | internal/repository/engine.go:158-308 | however many calls race for one key, at most one is told PROCESSED when none of them outlives the anchor |
| Replies.ReplyHasSource | internal/repository/engine.go:108-119 | every success payload was computed for a call of the same player and body hash, as that call's own answer |
| Replies.OneEndpointReplies | internal/repository/engine.go:164-182 | when no call alike in Redis key and fingerprint came in on another endpoint, every success reply reports a committed transaction of the request's own player and type |
| Endpoints.AlikeCallIsAnswered | internal/repository/engine.go:117-119 | conversely, whenever a call can settle and a later one is alike, some run answers the later with the receipt of the first, whatever its endpoint |
| Endpoints.WinAnswersBet | internal/repository/engine.go:117-119 | a run in which a bet is answered with a win's receipt and nothing is staked |
| Replies.SpinNeverReRolled | internal/repository/spin.go:356-416 | all success replies ever given for one spin id carry the ledger's single outcome, and for equal stakes the same win, however many draws the retries made |
| Amounts.ProcessedAmountWasMoved | internal/repository/engine.go:297-307 | every PROCESSED reply names the transaction that moved exactly the reported amount |
| Rounds.RoundsAreWhole | internal/repository/queries.go:80-138 | a BET leg is directly followed by its WIN leg if and only if the recorded outcome pays, for exactly the payout of the stake, and no WIN leg stands alone |
| Rounds.ReportedWinWasPaid | internal/repository/spin.go:339-416 | the win reported for the settled stake is the win the ledger paid |
| Reversals.RollbackPlannedExactly | internal/repository/engine.go:492-545 | in every reachable state a rollback is planned if and only if it names a BET of the player that no other rollback references |
| Reversals.ReversalLeaves | internal/repository/engine.go:546-611 | a reversal refunds the stake per currency and leaves what the round won and was refunded before |
| Reversals.NoBetterOffExactly | internal/repository/engine.go:613-615 | reversing leaves the player no better off than never having played if and only if nothing was won on the BET and nothing of it reversed before |
| Reversals.SpinNoBetterOffExactly | internal/repository/engine.go:613-615 | for a spin's round that nothing else settled, if and only if the recorded outcome does not pay |
| Reversals.PaidRoundReversed | internal/repository/engine.go:517-571 | a round that paid is reversed, the stake refunded per currency and exactly the win kept |
| Reversals.PaidRoundReversedRun | internal/repository/engine.go:473-635 | a run from the empty tables: 10 bought, 10 played, 20 won, the BET reversed, 30 held |
| Reversals.LateRetryCreditsAgain | internal/worker/dedup_prune.go:21-25 | from any quiet state whose reversal's anchor stands, a prune and a retry credit the stake once more |
| Reversals.LateRetryRun | internal/worker/dedup_prune.go:21-25 | a run in which 20 redeemable coins are held of 10 won and two calls of one key are told PROCESSED |
| SameGame.SameGameForBothFamilies | internal/repository/spin.go:250-289 | for every stream and stake sequence, runs of both families from equal totals see the same acceptances, outcomes and wins and keep equal totals |
| SameGame.UnplayedGoesFirst | internal/domain/wallet.go:105-146 | SC_REDEEMABLE is staked only when SC_UNPLAYED runs out, and only for the shortfall |
| Limits.LimitStore.SetLimit | internal/repository/rg.go:297-459 | the log and the result after a request are the specified decision, including refused lifts, table constraints and replays |
| LimitRequests.RecordedExactly | internal/repository/rg.go:322-394 | a request under a new event id is recorded if and only if it names an event and a known player and either asks well (an end after now, or a period and a positive amount) or lifts an exclusion that is not running |
| LimitRequests.RecordedRow | internal/repository/rg.go:365-394 | the recorded row carries the request: an exclusion its end, at once; a limit its period and amount |
| LimitRequests.ExclusionBites | internal/repository/rg.go:218-233 | after a recorded exclusion its player is excluded until its end and not a moment longer, whatever the log held; after a recorded lift not at all; nobody else notices |
| LimitRequests.LimitGoverns | internal/repository/rg.go:344-363 | a recorded limit is in force with its own period and amount from now, or a full day later if it raises the amount in force, until a later row takes effect; until then what governed before still does |
| Compliance.NothingWhileBarred | internal/repository/rg.go:600-622 | over every sequence of money and limit requests by any players, no BET, spin, DEPOSIT or PROMO_CREDIT row is written while an exclusion or cool-off of its player stands in the log |
| Compliance.NoStakeUntilEnd | internal/repository/engine.go:221-229 | once an exclusion is recorded the ledger takes no stake, purchase or grant of its player before its end, as long as no other exclusion of that type asked for an earlier end |
| Compliance.ReturnsSettleExactly | internal/repository/engine.go:375-384 | wins, redemptions and reversals settle on their own terms, whatever the limit log holds |
| Limits.HistoryLoosensOnlyAfterDelay | internal/repository/rg.go:344-363 | over every serialized history, the governing amount is higher at a later instant only if a row allowing at least as much was requested exactly 24 hours before it took effect in between |
| Limits.LaterDecreaseWins | internal/repository/rg.go:208-219 | a later row in effect shuts out every earlier pending increase for good |
| Limits.RemovalAlwaysFails | internal/repository/rg.go:365-394 | a windowed limit's removal is always refused and changes nothing |
| Limits.OnceLimitedAlwaysLimited | internal/repository/rg.go:805-832 | so a player once limited is limited ever after |
| Limits.PeriodIsIgnored | internal/repository/rg.go:461-475 | a change bites at once if and only if its amount is at most the governing one, whatever the periods |
| PeriodChange.ChangeBitesExactly | internal/repository/rg.go:344-363 | of two SetLimit calls in a row the second governs at once if and only if its amount is not higher, whatever the periods |
| PeriodChange.PermitsExactly | internal/repository/rg.go:624-792 | over any stretch a limit permits more than an amount if and only if its own amount, once per window the stretch meets, is more |
| PeriodChange.ShorterPeriodLoosensExactly | internal/repository/rg.go:461-475 | a limit of b per q that replaced a per p at once lets the player lose more than a in a window of p if and only if b times the windows of q it meets is more than a |
| PeriodChange.DaysInPeriod | internal/repository/rg.go:838-860 | a week meets seven day windows and a month its calendar length |
| Limits.ExclusionStands | internal/repository/rg.go:322-343 | a running exclusion is ended early only by another active one that ends by then, and its lift is refused while it runs |
| Limits.ReplayReturnsRecorded | internal/repository/rg.go:413-459 | a redelivered event returns the row it first produced and changes nothing |
| Windows.WindowBounds | internal/repository/rg.go:838-860 | computes the calendar window of an instant |
| Windows.WeeksStartOnMonday | internal/repository/rg.go:845-851 | week windows are seven days from a Monday, a whole number of weeks from 5 January 1970 |
| Windows.CivilCalendar | internal/repository/rg.go:852-856 | the first day of every month of every year is where the Gregorian calendar puts it |
| Windows.WindowsAreDays | internal/repository/rg.go:838-860 | a day is 86,400 seconds and every window runs from midnight to midnight |
| Windows.WindowsPartitionTime | internal/repository/rg.go:836-860 | the day, week and month windows partition time and run in order |
| LossCounter.LossBook.ReadCounter | internal/repository/rg.go:747-792 | a row of the current window is served as is, any other is re-derived from the ledger |
| LossCounter.LossBook.BumpCounter | internal/repository/rg.go:709-734 | a fresh row moves by the delta, any other is re-derived after the ledger rows are in, floored at zero |
| LossCounter.LossBook.GuardLossLimit | internal/repository/rg.go:624-643 | refuses exactly when the accumulated loss plus the stake exceeds the limit |
| LossCounter.LossBook.Do | internal/repository/rg.go:624-734 | guard, ledger rows and bump of one operation leave the specified book, and a refusal leaves it unchanged |
| WorstStretch.CounterIsWorstStretch | internal/repository/rg.go:709-734 | over every run of operations within a window, settled and refused, a fresh counter is the largest rise of the ledger's loss since any moment of the run |
| WorstStretch.RefusedExactly | internal/repository/rg.go:624-643 | a stake is refused if and only if with it the limit would be passed since the start of the row or since some later moment |
| WorstStretch.SeededFromLedger | internal/repository/rg.go:736-766 | with no row for the window the guard reads the ledger, and the first operation to settle leaves a row that holds the ledger's loss |
| WorstStretch.UnlimitedPlay | internal/repository/rg.go:627-635 | without a limit every stake goes through, each operation lands on the ledger with its own net loss, and no counter moves |
| LossCounter.DeltaIsLedgerLoss | internal/repository/rg.go:254-277 | every bet, win, rollback and spin hands the counter exactly what its ledger rows add to the aggregate |
| LossCounter.LossLimitHolds | internal/repository/rg.go:624-792 | with no row for the window when the limit begins, every run keeps a fresh counter at or above the window's net loss and the loss within the limit or what it was, across window changes |
| LimitedPlay.NextIsStep | internal/repository/engine.go:221-290 | each transaction of the limited player, planned with the counter's answer, is one step of the counter, and no other transaction touches it |
| LimitedPlay.LedgerLossIsGain | internal/repository/rg.go:254-277 | the loss query's aggregate is what the player's bets, wins and reversals took from its wallet in the window |
| LimitedPlay.LimitHoldsOnLedger | internal/repository/rg.go:254-277 | over every sequence of requests of every kind by any players, what play took from the limited player's wallet in a window stays within the limit or what it was, and a fresh counter never falls behind it |
| LossCounter.ProtectsExactly | internal/repository/rg.go:736-766 | the limit protects every run if and only if no leftover row of the window lies below both the ledger loss and the limit |
| LossCounter.SwitchingPeriodsUndercounts | internal/repository/rg.go:676-689 | a history that leaves such a row and then loses 180 under a limit of 100 |
| Ggr.Aggregator.RunOnce | internal/worker/aggregator.go:213-245 | every daily total grows by its window's entries and the watermark moves to the window's end |
| Ggr.CycleExactly | internal/worker/aggregator.go:146-156 | a cycle keeps the totals exact if and only if its window does not end before it starts, or the stretch it moves back over nets to nothing |
| Ggr.EveryEntryOnce | internal/worker/aggregator.go:101-156 | if commits beat the safety lag and cycles start in order, daily_ggr is always one aggregate over all house-pool entries up to the watermark |
| GgrRows.RevenueIsBetsLessWins | internal/worker/aggregator.go:117-143 | over every run, overlaps and late commits included, each day's revenue in each currency is its bets less its wins |
| GgrRows.DailyTotalsAreRows | internal/worker/aggregator.go:117-143 | over the rows of any reachable state seen in time, a day's bets are the stakes of its BET rows less what its ROLLBACK rows returned, its wins what its WIN rows credited, its revenue what the players lost |
| GgrRows.HouseMirrorsPlayer | internal/repository/engine.go:274-284 | every transaction moves its own kind's house account by exactly what its player does not, and no other |
| Ggr.OverlapCountsTwice | internal/worker/aggregator.go:102-105 | an overlapping cycle counts a bet twice |
| Kyc.KycEngine.RecordDecision | internal/repository/kyc.go:138-252 | the users, the audit log and the result after a delivery are the specified decision |
| Kyc.DeliveredExactly | internal/repository/kyc.go:138-252 | which deliveries are answered; a new one leaves one audit row, marked applied if and only if it moved the user, and only a newer VERIFIED moves one |
| Kyc.OneRowPerEvent | internal/repository/kyc.go:202-215 | over every run the audit log holds at most one row per event, and only what was delivered |
| Kyc.FinalIsNewestVerified | internal/repository/kyc.go:170-173 | in any order and duplication each player ends at the newest VERIFIED instant or the baseline, and ACTIVE if and only if that moved |
| Kyc.Confluent | internal/repository/kyc.go:118-124 | two histories of the same set of events end in the same users |
| KycOrders.OrderFreeExactly | internal/repository/kyc.go:118-124 | every order of the same deliveries ends in the same users if and only if each player's newest VERIFIED decision beyond its baseline has an event id used acceptably for nothing else |
| Kyc.ReusedEventIdIsOrderDependent | internal/repository/kyc.go:215-252 | an event id reused for other content is decided by arrival order |
| Kyc.AppliedRowsIncrease | internal/repository/kyc.go:170-200 | a player's applied rows have strictly increasing decision times |
| Kyc.RedeliveryIsReplay | internal/repository/kyc.go:215-252 | a redelivery at any later time returns the recorded result and changes nothing |
| RateLimit.Window.Allow | internal/api/ratelimit.go:57-73 | one run of the script leaves the set and the answer specified |
| RateLimit.ExpiryIsPurge | internal/api/ratelimit.go:70-72 | losing the key at its deadline loses nothing the purge would keep |
| RateLimit.AdmittedExactly | internal/api/ratelimit.go:57-73 | a call is admitted if and only if fewer than the limit were admitted in the window ending with it |
| RateLimit.WindowBound | internal/api/ratelimit.go:57-73 | no half-open interval of one window length ever holds more than the limit of admitted calls |
| RateLimit.ZaddExactly | internal/api/ratelimit.go:57-73 | adding a member keeps every other, leaves only its newest score and keeps the set in order |
| RateLimit.StoredAtMost | internal/api/ratelimit.go:59-70 | the stored set never exceeds the limit |
| RateLimit.RetryIsAdmitted | internal/api/ratelimit.go:61-68 | a refused caller that comes back with nothing admitted in between is admitted if and only if it waited out retry_after |
| Replay.CanonicalPayloadInjective | internal/api/hmac.go:104-146 | well-formed fields are read back from the signed bytes in one way only |
| Replay.SplitsOneWayExactly | internal/api/hmac.go:123-132 | the signed bytes split in one way only if and only if the nonce holds no dot |
| Replay.ReplayGuard.Handle | internal/api/replay.go:60-111 | signature, shape, freshness and nonce are ruled on as specified, and only an accepted request holds its nonce |
| Replay.RuledExactly | internal/api/replay.go:60-111 | in every run an arrival is accepted if and only if it is signed, well formed, in time, and no arrival of its operator was accepted with its nonce within the last time to live |
| Replay.NeverAcceptedTwice | internal/api/replay.go:20-29 | no signed payload is accepted twice in any run when the nonce outlives the freshness window |
| Replay.SoundExactly | internal/api/replay.go:20-29 | replays are ruled out if and only if the nonce's time to live is at least maximum age plus skew, which the defaults meet |
| Replay.NoncesAreScoped | internal/api/replay.go:113-119 | operators without a colon in their code never share a nonce key |
| Reconciler.Reconciler.Sweep | internal/worker/reconciler.go:212-241 | terminates for any batch size, audits every player exactly once and counts exactly the disagreeing pairs |
| Reconciler.SweepFindsExactly | internal/worker/reconciler.go:54-91 | the count is zero if and only if every wallet column equals its ledger balance |
| Reconciler.ReachableStatesAreClean | internal/worker/reconciler.go:60-91 | no reachable engine state has a disagreeing pair |
| DedupPrune.Pruner.Sweep | internal/worker/dedup_prune.go:187-206 | removes exactly the anchors older than the retention, whatever the batch size, and reports how many |

## Left out

- Hashes and signatures: SHA-256 and HMAC (section 2 of RFC 2104) are not modelled. `Idempotency` works on the
  bytes fed to the hash, the protocol compares fingerprints by player and body hash, and `Replay` takes whether
  the signature matches as an input.
- JSON, UUIDs and decimal: payloads and metadata are stored and returned unchanged, ledger ids are positions,
  money is a scaled integer. The cap on metadata sent with other calls than spins, NUMERIC(18,4) overflow and the truncation of decimal
  division in the published return are not modelled; the game mathematics is exact.
- Idempotency.Redis.Store: the protocol keeps payloads as values; that a payload survives encoding is assumed.
- Engine.Engine.Recover: models the row lookup as any row under the key, as the query has no ORDER BY; the
  amount in a recovered reply is the retry's own, as in the code, so nothing relates it to the ledger unless
  the retry repeats the original amount.
- Engine.Engine.FetchPlayerEntries: returns entries in the order written. The query orders by currency, which
  is the same order, since a BET writes SC_UNPLAYED before SC_REDEEMABLE.
- Engine.SpinMetadata: works on decoded fields; how they and the outcome encode is an uninterpreted parameter.
- Engine.Engine.ProcessPurchaseTx: the fiat amount on the header and the bump of the deposit counter are not
  written; that counter runs the loss counter's code on amounts that only grow.
- Engine.Engine.ProcessPromoGrantTx: the promo_grants audit row is not written.
- Engine.Engine.SettleSpinStatement: writes the lines one by one; the parallel arrays of the statement and
  the conversion of amounts to text are not modelled.
- Service.Service.Process: handles one call at a time; interleaving is covered by `Protocol`. A Redis outage is
  one outcome, the failed claim.
- One instant per request: clock differences between Go, Postgres and Redis, and windows that roll over inside
  one transaction, are not modelled. Rows of the limit log are ordered as they were created.
- Replies.SpinNeverReRolled: carries the premises that operator codes hold no colon and that no alike call came in
  on another endpoint, without which a cached reply may belong to another request, and that no call for the spin
  outlives its anchor.
- LossCounter.LossLimitHolds: one player and LOSS counters only. `LimitedPlay.LimitHoldsOnLedger` states it over the
  engine's rows.
- LimitedPlay.LimitHoldsOnLedger: transactions one after another, as the wallet lock orders one player's.
- Compliance.NothingWhileBarred: money and limit requests one after another. A stake that read the log before a
  racing limit request committed counts as placed before it.
- RateLimit.WindowBound: admissions made while Redis is unreachable (the limiter fails open) are not counted.
- Ggr.EveryEntryOnce: failed cycles change nothing and are not events; the calendar day of an instant is given.
- HTTP handlers, DTO parsing, health, admin, logging, telemetry, metrics, configuration, migrations, the
  partitioner, geofencing, promo channels, player field normalisation and the Monte-Carlo gates.
- The square root in the standard deviation; only the sign of its argument is proved.
