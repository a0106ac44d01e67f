# A model of the notification, broker, estimation and pipeline protocols

This project models the parts of the API whose correctness is a protocol rather than a query: leased push
delivery, reversible broker merges, metered estimation submits, the deal pipeline with dismissals, the collection
monitor's detectors, the place-chip compiler, keyset paging with its cursor, and the pasted-link ingest poll.
It is written for Dafny 4.11; `dafny verify dfyconfig.toml` takes all of it.

| files | models |
|---|---|
| `PushDelivery`, `PushProtocol`, `PushOutcome`, `PushTiming`, `PushExhaustion`, `PushClaim`, `PushLane` | `api/push_delivery.py`: the delivery ledger as a state machine, its fencing invariants, what outcomes leave on rows and rows say of their claims, its lease in time, what exhaustion means, which rows a claim takes, the lane's statements and loops |
| `BrokerReview`, `BrokerLedger`, `BrokerEffects`, `BrokerInvariants`, `BrokerHistory`, `BrokerLate`, `BrokerBook` | `api/broker_review.py`: merge, unmerge, dismiss, lift; the suppression ledger; what each action leaves, row by row; whole histories, also over stale reads; the tables updated in place |
| `EstimationRuns`, `EstimationBound` | `api/estimation_runs.py`: submit gates, the gated INSERT, claim, finish, sweep; runs that reach the budget bound |
| `Pipeline`, `PipelineEffects`, `PipelineInvariants`, `PipelineBoard` | `api/pipeline.py` and `api/dismissals.py` as one machine: what each request leaves, what every run keeps, and its tables |
| `EventIdentity`, `Monitor` | `api/notifications.py`: the event identity, the inactive and reactivated detectors |
| `LocationFilter` | `api/location_filter.py`: chips to three-valued SQL (section 8.12 of ISO/IEC 9075:1992) |
| `KeysetPaging` | the two feeds that page by key |
| `Cursor`, `Base64`, `Utf8`, `Json`, `JsonText`, `JsonValues` | `api/cursor.py`, with the stdlib it calls: base64 (section 5 of RFC 4648), UTF-8 (section 3 of RFC 3629), JSON texts (RFC 8259) and their values |
| `IngestPoll`, `IngestQueue` | `api/ingest.py` against a concurrent drain, and what the queue statements of `scraper/db.py` keep |
| `Common` | options, sorted sets, decimal text |

Code that changes rows in place is a class (`Lane`, `Tables`, `RunTable`, `Feed`, `Rows`) whose methods are proved
against functions on table values; the properties are lemmas about those functions and about every run of them.

## Assumptions

- Each SQL statement, and each `conn.transaction()` block, is one atomic step. The gated INSERT is one too, as its
  docstring claims (`api/estimation_runs.py:1768-1778`).
- Statement times do not go back, and all times lie on one line: the database's clock and a process's monotonic
  clock advance together.
- Python 3.12's stdlib: json.loads also takes NaN and Infinity, an integer of more than 4300 digits is a ValueError
  read or written, and containers nested past the interpreter's limit are a RecursionError.
- A group id (uuid4) is new each time. A caller sees its own account under row-level security.

## What the proofs found

- The docstring of `api/push_delivery.py:8-12` says the pass stays inside its lease. The code bounds neither the
  wait for the claim's answer nor the badge read before the POST. The POSTs of one row stay apart in all runs
  exactly when those two waits together fit in 120 - 90 - 9.05 = 20.95 s (`LeaseHoldsIffLatencyFitsSlack`).
- EXHAUSTED_SQL carries no token, so the fifth claim it gave up on may still write. A row it fails "for good"
  (`api/push_delivery.py:65-66`) is never due again exactly when no 429 of that claim lands afterwards
  (`ExhaustionIsFinalIff`); in a run one does, and the row is open and due with four attempts (`ExhaustedRowReopens`).
- A merge reads the active brokers before its transaction. A survivor retired in between strands the moved
  identities under a retired broker (`StaleMergeKeepsOwnersIff`, `StaleReadStrandsIdentities`). Whatever any action
  of a history read however much earlier, ownership holds throughout exactly when no merge moves identities onto a
  survivor retired since its read (`LateOwnershipIff`).
- An unmerge reads its retired brokers before its transaction. Committed late it keeps ownership, but it revives a
  broker that a newer merge has retired since (`StaleUnmergeKeepsOwnership`, `StaleUnmergeIsFreshIff`,
  `StaleUndoRevives`).
- An unmerge does not bring back a loser that held no identity: the undo restores the brokers exactly when every
  loser held one (`UndoRestoresBrokersIff`). Merges undone newest-first always restore the owners, and the brokers
  exactly when none of the merges had an empty loser (`NewestFirstRestores`).
- Undone oldest-first, two merges can end with an active suppression over two identities under one broker
  (`OldestFirstContradictsLedger`). An unmerge keeps the book's ledger agreeing with ownership exactly when no
  standing suppression joins two identities it leaves under one broker, and a history does throughout exactly when
  each of its undos meets such a ledger (`UnmergeKeepsLedgerIff`, `LedgerAlwaysAgreesIff`). Whatever the ledger
  holds, it is enough, and needed, that the identities it brings together are together already
  (`UnmergeKeepsLedgersIffGathered`). Lifting rows repairs a contradicted ledger exactly when they include every
  offending one (`RepairIff`).
- `_update_run_terminal` has no status guard: a success landing on a swept run takes a slot the sweep gave back, so
  the month may pass its quota by the number of such finishes on its own runs and no more (`BudgetMonthly`,
  `FinishKeepsFullQuotaIff`), and for every quota, cap, sweep threshold and number a run from the empty table does
  (`BudgetBoundAttained`).
- A poll can answer "not landed" for an ad that lands, when the ad was once found gone and is queued again while the
  poll reads. A poll of a known ad is safe exactly when its first read is not of a gone, unheld, unqueued ad
  (`PollSafeIff`, `RequeuedAdCanBeLost`).
- A paste reads the queue row before it writes it. A row read live that the drain finishes, or fails for the last
  time, in between is answered `queued` with nothing left to serve (`PastedRowFinished`, `PastedRowGivenUp`);
  `PasteServesIff` says exactly when the answer leaves a row to serve. An ad that lands is never lost by it
  (`PasteNeverLosesALandingAd`).
- The docstring of `decode_cursor` promises a ValueError on a malformed token. The base64 decoder it calls skips
  stray characters, takes padding early in a group, ignores text after the closing padding, and drops unused bits
  (`DecodesIff`, `EncodesBackIff`). A token is answered with a pair exactly when it is ASCII, decodes, and its bytes
  are a JSON list of those two values, in any spelling (`DecodeCursorIff`); it is the token `encode_cursor` wrote
  exactly when also its letters, symbols and JSON text are as written (`DecodedIsCanonicalIff`). And json.loads may
  raise a RecursionError, which `decode_cursor` does not catch: exactly where the nesting limit changes what the text
  loads as (`RecursionErrorIff`), and for every limit some token does (`BracketsEscape`).
- A pair survives its token exactly when no string of it holds a high surrogate followed by a low one: json.dumps
  writes the two as one character's escapes (`PairSurvivesIff`).

## Model

| member | source | states |
|---|---|---|
| PushProtocol.TokensAlways | api/push_delivery.py:81-155 | in every reachable state, although a 429 takes tokens back: tokens lie between 1 and the row's attempts (never past five), later live claims carry larger tokens, and each attempt spent belongs to a live claim |
| PushProtocol.WriteLandsIffNewest | api/push_delivery.py:111-117 | in every run an outstanding claim's compare-and-set lands iff the row is still open and every later claim of it was handed back by a 429 |
| PushProtocol.OutstandingTokensDistinct | api/push_delivery.py:81-97 | two outstanding claims of one row never share a token, and none exceeds the row's attempts |
| PushProtocol.OlderNeverOverwrites | api/push_delivery.py:111-155 | after an outcome is recorded, every write that lands on the row belongs to a claim granted later |
| PushProtocol.ConservedAlways | api/push_delivery.py:91-97 | every row's attempts are its claims granted minus its 429 give-backs, in every run |
| PushProtocol.AttemptsAreClaimsMinusGiveBacks | api/push_delivery.py:137-146 | attempts stay in 0..5, so a row is claimed at most five times plus its 429s |
| PushProtocol.ClosedRowsNeverChange | api/push_delivery.py:67-71 | sent, gone and skipped rows never change again, the token-free exhaustion write included |
| PushProtocol.FailureIsFinal | api/push_delivery.py:147-155 | a failed outcome, or a retry on the fifth attempt, leaves the row never due with its claim spent |
| PushProtocol.FailedByItsClaimNeverChanges | api/push_delivery.py:147-155 | such a row is never changed again, although 'failed' still passes the compare-and-set's status check |
| PushOutcome.WriteBackLeaves | api/push_delivery.py:111-155 | in every run a write-back meets a row iff the row is open under its claim's token; then sent keeps the receipt and clears the reason, gone and skip give their reason, a 429 gives an attempt back and is due now, a retry is due in 2, 4, 8 or 16 minutes and never after the fifth; any other row stays |
| PushOutcome.SentIff | api/push_delivery.py:128-131 | in every run a row is sent iff one of its claims recorded a sent outcome, and it then bears that outcome's time and message id |
| PushOutcome.GoneIff | api/push_delivery.py:132 | a row is gone iff one of its claims recorded a gone outcome, whose reason it bears |
| PushOutcome.SkippedIff | api/push_delivery.py:46-119 | a row is skipped iff it was fanned out past the cap or one of its claims recorded a skip, whose reason it bears |
| PushOutcome.PendingIff | api/push_delivery.py:67-155 | a row is pending iff it was not capped, exhaustion never met it, and none of its claims recorded anything |
| PushOutcome.HeldDeviceIsNotClaimed | api/push_delivery.py:72-76 | from a 429 until its Retry-After (a minute without one) is over, no claim of any run takes a row of that device |
| PushOutcome.EndedIff | api/push_delivery.py:133-136 | a device ends iff one of its POSTs was answered gone, whether or not the row's write landed |
| PushTiming.DueMeansEarlierOver | api/push_delivery.py:81-97 | whenever a row is due, each earlier claim of it is finished or past its lease |
| PushTiming.PostsNeverOverlap | api/push_delivery.py:28-35 | in every run whose claim answers and badge reads fit 20.95 s, no two POSTs carrying one row overlap |
| PushTiming.OverlapAtLatency | api/push_delivery.py:292-330 | a run, for every larger wait up to 21 s, in which two POSTs of one row do overlap |
| PushTiming.LeaseHoldsIffLatencyFitsSlack | api/push_delivery.py:32-35 | the lease separates POSTs in all runs with waits up to s iff s is at most 20.95 s |
| PushTiming.ExhaustedMeansFifthClaimLapsed | api/push_delivery.py:65-71 | the exhaustion statement only meets rows whose fifth claim is unfinished and past its lease |
| PushExhaustion.ExhaustSpends | api/push_delivery.py:67-71 | every row it meets is failed, with no attempt left and never due |
| PushExhaustion.NeverDueUntilAWrite | api/push_delivery.py:111-155 | a row that is never due stays exactly as it is until a write-back lands on it |
| PushExhaustion.ExhaustionIsFinalIff | api/push_delivery.py:65-71 | a row exhaustion gave up on is never due again, at any later point of a run, iff no 429 lands on it meanwhile |
| PushExhaustion.ExhaustedRowReopens | api/push_delivery.py:137-146 | for every 429 a run from the empty lane in which it lands on an exhausted row and leaves it open and due with four attempts |
| PushLane.SkipReason | api/push_delivery.py:214-224 | nothing is skipped exactly when the row is unseen, visible, fresh and its device live; otherwise the first failing check, in that order, names the reason |
| PushLane.GroupsInClaimOrder | api/push_delivery.py:318-325 | each device's list and each reason's list are exactly the claimed rows due there, in claim order |
| PushLane.EveryRowGoesOnePlace | api/push_delivery.py:318-327 | each claimed row is pushed to its own device or skipped for its reason, never both, never dropped |
| PushLane.Partition | api/push_delivery.py:318-325 | the loop's two dicts are exactly the skips per reason and the kept rows per device, in claim order, each device once |
| PushLane.PassRecordsEachRow | api/push_delivery.py:334-350 | after a pass a kept row carries its device's outcome, recorded once at that device's turn; a raised or unreached device's rows are as the claim left them |
| PushLane.SkipsHitTheirRows | api/push_delivery.py:318-327 | the skip statements together skip each claimed row for its own reason, and leave every kept row alone |
| PushLane.Lane.Exhaust | api/push_delivery.py:67-71 | exactly the open, due rows with five attempts spent are failed, never due and named lease_expired unless already named; the count is how many; no other row changes |
| PushClaim.PlanWithinLimits | api/push_delivery.py:81-97 | a claim takes rows that are open, due, below five attempts, unlocked and off hold, each once, within both limits |
| PushClaim.PlanTakesTheFirst | api/push_delivery.py:81-91 | it passes over such a row only for a full window of such rows sooner by (next attempt, id), or for a full set of devices with sooner turns: a device's turn is its rows' least next attempt, then their least id |
| PushClaim.PlanIsEnabled | api/push_delivery.py:28-31 | so each claim is a step the protocol allows, whatever is locked |
| PushLane.Lane.Claim | api/push_delivery.py:81-112 | each planned row is leased for 120 s, one attempt spent, and its returned token passes the compare-and-set; no other row changes |
| PushLane.Lane.SkipAll | api/push_delivery.py:326-327 | a row changes only by a skip whose token it still carries, and every such row ends skipped |
| PushLane.Lane.Finalize | api/push_delivery.py:276-289 | each claimed row still open under its token bears the outcome (as WriteBackLeaves says), no other row changes; only a gone outcome ends the device, only a 429 holds it, for the later of two times |
| PushLane.Lane.Deliver | api/push_delivery.py:292-300 | a raise leaves every table as it was; else each row of the batch still as claimed takes the outcome, no other row changes, only a gone outcome ends the device, and only a 429 holds it, never for less |
| PushLane.Lane.DeliverDevices | api/push_delivery.py:331-350 | devices are reached in order until stop or the 90 s budget; the tables after each; the counters count the answers' kinds |
| PushLane.KindsCounted | api/push_delivery.py:344-350 | so each counter is how many devices answered sent, gone, throttled, retry or failed, or raised |
| PushLane.Lane.Pass | api/push_delivery.py:317-350 | after one pass each claimed row is skipped for its reason, carries the outcome of its device if that was reached and did not raise, or is as the claim left it; no other row changes; every kept row is reached unless stop or the budget ended the loop |
| BrokerLedger.SuppressionPairsExact | api/broker_review.py:370-386 | the pairs are exactly the lo < hi pairs of the cohort under different owners, each once |
| BrokerLedger.InsertedExact | api/broker_review.py:67-77 | the array insert keeps one active row per pair, keeps every old row, and afterwards exactly the old pairs and the given ones are suppressed |
| BrokerLedger.InsertedCount | api/broker_review.py:401-423 | the rowcount is the pairs not already active, not the pairs attempted |
| BrokerLedger.UnmergeRecordsItsSeparations | api/broker_review.py:327-346 | an unmerge's pairs are the cohort identities its own result separates, and each then has exactly one active suppression |
| BrokerEffects.MergeExact | api/broker_review.py:259-295 | committed iff at least two of the ids are active: every identity of theirs sits under the least, each other one of them is merged away into it, each moved identity has one live event naming where it came from, the standing NOs between them are lifted as operator_merge; nothing else changes |
| BrokerEffects.UnmergeExact | api/broker_review.py:316-367 | nothing without a live event; else each identity of the group is back where its event says, each retired broker is active, the group's events are undone, and every pair of its cohort that ends apart stands exactly once; nothing else changes |
| BrokerEffects.DismissExact | api/broker_review.py:178-230 | a cross-firm card, or a contact-bridge card over two different identities, keeps apart every pair of identities under two different brokers of the card, and no other pair; any other card writes nothing |
| BrokerEffects.LiftExact | api/broker_review.py:444-463 | a standing row is lifted for the reason given; nothing else changes |
| BrokerInvariants.OwnershipAlways | api/broker_review.py:270-293 | under merges, unmerges, dismissals and lifts in any order every identity sits under an active broker and merged_into points to a smaller id |
| BrokerInvariants.Survivor | api/broker_review.py:290-292 | following merged_into from any broker ends, at an active broker with no larger id |
| BrokerInvariants.StaleMergeKeepsOwnersIff | api/broker_review.py:265-274 | a merge committed over ids read earlier keeps ownership iff its survivor is still active |
| BrokerInvariants.StaleUnmergeKeepsOwnership | api/broker_review.py:316-366 | an undo committed after anything else ran since its read keeps ownership |
| BrokerInvariants.StaleUnmergeIsFreshIff | api/broker_review.py:318-361 | it writes the brokers a fresh read would iff every other broker of its list is active already |
| BrokerLate.LateStepExact | api/broker_review.py:259-366 | a late merge is refused by what it read and moves what is there when it commits; a late undo restores what is live then, over the brokers it read |
| BrokerLate.LateOwnershipIff | api/broker_review.py:259-366 | over any history whose merges and undos commit over what they read earlier, identities sit under active brokers at every point iff no merge moves identities onto a survivor retired since its read |
| BrokerLate.LateLedgerIff | api/broker_review.py:259-366 | and the ledger agrees with ownership at every point iff each undo commits over a ledger that allows it; stale merges are free |
| BrokerInvariants.MergeKeepsLedger | api/broker_review.py:83-91 | a merge lifts the suppressions it overrides and no others, and leaves none over identities under one broker |
| BrokerInvariants.DismissKeepsLedger | api/broker_review.py:203-229 | a judging card's dismissal suppresses every cross-broker pair of its brokers exactly once and no other, any other card's none, and neither contradicts ownership |
| BrokerInvariants.LiftKeepsLedger | api/broker_review.py:444-463 | a manual lift keeps the ledger agreeing with ownership |
| BrokerInvariants.RepairIff | api/broker_review.py:112-118 | manual lifts make a contradicted ledger agree with ownership iff they include every standing row over two identities under one broker |
| BrokerInvariants.UnmergeKeepsLedgerIff | api/broker_review.py:327-363 | an unmerge keeps this book's ledger agreeing with ownership iff no standing suppression joins two identities it leaves under one broker |
| BrokerInvariants.UnmergeKeepsLedger | api/broker_review.py:327-363 | an unmerge of gathered identities keeps the ledger agreeing with ownership |
| BrokerInvariants.UnmergeKeepsLedgersIffGathered | api/broker_review.py:327-363 | an unmerge keeps every agreeing ledger iff the identities it brings together are together already, a condition readable before the call |
| BrokerInvariants.TogetherAndRetiredIsGathered | api/broker_review.py:327-363 | restored identities under one broker, with the group's retired brokers still merged away, are gathered |
| BrokerInvariants.LedgerAlwaysAgreesIff | api/broker_review.py:178-463 | a history never has, at any point, an active suppression over two identities under one broker iff each of its undos meets a ledger that allows it |
| BrokerInvariants.LedgerAlwaysAgrees | api/broker_review.py:178-463 | over any history whose undos are gathered no active suppression ever covers two identities under one broker |
| BrokerHistory.UndoRestoresOwners | api/broker_review.py:348-357 | undoing a merge from the standing it left restores every owner |
| BrokerHistory.UndoRestoresBrokersIff | api/broker_review.py:259-295 | it restores every broker's status, merged_into and merged_at iff every loser held an identity |
| BrokerHistory.NewestFirstRestores | api/broker_review.py:316-367 | any nesting of merges undone newest-first, dismissals and lifts in between, restores every owner and live event; and every broker iff no merge of it had a loser without identities |
| BrokerHistory.NewestFirstRestoresAll | api/broker_review.py:316-367 | owners, brokers and live events all come back iff no merge had such a loser |
| BrokerHistory.NewestFirstKeepsLedger | api/broker_review.py:316-367 | no such history leaves a suppression contradicting ownership |
| BrokerHistory.OldestFirstContradictsLedger | api/broker_review.py:327-363 | for every book with such brokers, two merges undone oldest-first leave an active suppression over identities under one broker |
| BrokerHistory.StaleReadStrandsIdentities | api/broker_review.py:265-293 | for every book, a merge that commits after its survivor was merged away leaves identities under a retired broker |
| BrokerHistory.StaleUndoRevives | api/broker_review.py:318-361 | for every book, an undo that commits after another undo of its group and a new merge revives a broker that merge retired |
| BrokerBook.CohortRows | api/broker_review.py:389-398 | the cohort map holds exactly the rows that have a broker |
| BrokerBook.NoPairsIffOneOwner | api/broker_review.py:343-353 | no pair is derived iff every identity of the cohort lands under one broker: when the warning is due |
| BrokerBook.Tables.WriteSuppressions | api/broker_review.py:401-423 | pairs without audit columns are skipped; each other pair then stands exactly once; the count is the rows written |
| BrokerBook.Tables.MergeBrokers | api/broker_review.py:259-295 | refused with nothing changed iff fewer than two ids are active, or, whatever ran since its read, committed over the ids it read onto the least of them, row by row as MergeExact says; no identity is left under a retired loser; an agreeing ledger is kept whatever ran, ownership when nothing did |
| BrokerBook.Tables.RecordSeparation | api/broker_review.py:332-354 | the separations are derived and recorded while the cohort still stands as before; the note is due iff something is restored and nothing separated |
| BrokerBook.Tables.PutBack | api/broker_review.py:355-366 | each restored identity is under the broker it left, each listed broker active with no merge on it, the group has no live event, and nothing else changed |
| BrokerBook.Tables.UnmergeGroup | api/broker_review.py:316-367 | unknown or undone group: nothing changes; otherwise, whatever ran since its read, the whole undo over the brokers it read, row by row as UnmergeExact says, its count, and when its note is due |
| BrokerBook.Tables.CommitUndo | api/broker_review.py:327-366 | the undo's transaction: the book after it, the suppressions written, and when its note is due |
| BrokerBook.Tables.DismissCandidate | api/broker_review.py:178-230 | only a proposed card is dismissed, once; the ledger over the card's own fields as DismissExact says, and the count it writes; an agreeing ledger stays so |
| BrokerBook.Tables.LiftSuppression | api/broker_review.py:444-463 | over any ledger: unknown id, already lifted, or lifted now, after which the pair is not suppressed; an agreeing ledger stays so |
| BrokerReview.EvidencePair | api/broker_review.py:244-256 | the evidence's two ids, lo before hi, exactly when there are two different ones |
| EstimationRuns.CountsAre | api/estimation_runs.py:590-616 | the two counts are how many of the account's agent runs are pending or running, and how many of this month's have not failed |
| EstimationRuns.NextExact | api/estimation_runs.py:1738-1833 | each step of the system on the rows: the gate admits iff quota and cap have room and no run is in flight under the key; claim, finish and sweep rewrite the rows they name and no others |
| EstimationRuns.CapAndKeyAlways | api/estimation_runs.py:1762-1833 | in every interleaving of submits, claims, finishes and sweeps: pending or running agent runs within the cap, at most one pending or running run per key |
| EstimationRuns.BudgetAlways | api/estimation_runs.py:1738-1833 | this month's non-failed agent runs never pass the quota by more than the successes that landed on failed runs |
| EstimationRuns.BudgetMonthly | api/estimation_runs.py:590-603 | and by no more than the late successes on runs of that same month |
| EstimationRuns.QuotaHoldsWithoutLateFinish | api/estimation_runs.py:590-603 | with none, the quota holds in every interleaving |
| EstimationRuns.MonthlyQuotaHolds | api/estimation_runs.py:590-603 | a month in which no success lands on one of its own failed runs keeps its quota, whatever happened in earlier months |
| EstimationRuns.FinishKeepsFullQuotaIff | api/estimation_runs.py:1738-1759 | a terminal update keeps a full quota iff it is not a success on one of this month's failed agent runs |
| EstimationBound.BudgetBoundAttained | api/estimation_runs.py:1097-1129 | for every quota, cap, sweep threshold and n there is a metered run from the empty table, in order of time, whose month has n late successes and passes its quota by exactly n |
| EstimationRuns.FindInFlight | api/estimation_runs.py:619-631 | finds the newest in-flight run of the key, or nothing iff there is none |
| EstimationRuns.RunTable.PrepareMeteredSubmit | api/estimation_runs.py:642-688 | who is ungated, 403, short-circuited to the newest run of the key, 429 iff the counted runs fill the quota or the cap; a cleared submit passes the gate if nothing runs in between |
| EstimationRuns.RunTable.InsertRun | api/estimation_runs.py:1762-1833 | one row iff quota and cap have room and no run is in flight under its key, and its id |
| EstimationRuns.RunTable.SubmitCleared | api/estimation_runs.py:804-857 | whatever run it answers with is the only in-flight run of its key; 429 only when there is none; a created run is pending on the lane or running here |
| EstimationRuns.RunTable.ClaimOne | scraper/realtime_worker.py:1398-1407 | claims the oldest pending lane run that no other claimer has locked, or nothing iff there is none; a run just claimed is not stuck |
| EstimationRuns.RunTable.Finish | api/estimation_runs.py:1738-1759 | the row's new status whatever it was; no account gains an in-flight run |
| EstimationRuns.RunTable.Sweep | api/estimation_runs.py:1097-1129 | exactly the stuck runs fail, none is stuck afterwards, finished runs untouched |
| PipelineEffects.MoveExact | api/pipeline.py:334-392 | 404 iff there is no card, 422 iff the stage is not the account's; else the card has the stage and the place asked for, or the ones it had, and every other card stays; a stage change adds exactly its event and leaves no visible active dismissal when the stage is live; anything else adds nothing |
| PipelineEffects.AddExact | api/pipeline.py:225-296 | a card already there stays; a new one is one below the lowest card of an entry stage of the account, the first at 1, with its event; live dismissals are lifted |
| PipelineEffects.RemoveExact | api/pipeline.py:299-331 | the card is gone, the stage it left is logged, and nothing else changes |
| PipelineEffects.UpdateExact | api/pipeline.py:73-161 | the refusals; else the stage has the flags patched, a crown is taken from the account's other stages only, and dismissals are lifted only by a re-opening, of the cards it holds |
| PipelineEffects.CreateExact | api/pipeline.py:44-70 | a live stage that is not the entry, one right of every stage the account ever had, the first at 1 |
| PipelineEffects.ReorderNumbers | api/pipeline.py:164-186 | the listed stages are numbered from 1 in that order, and nothing else changes |
| PipelineEffects.ArchiveExact | api/pipeline.py:189-222 | 404, 409 for the entry or a live stage with cards, nothing the second time, else only the flag |
| PipelineEffects.DismissExact | api/dismissals.py:26-47 | 422 without a property, 409 iff a live card of it is visible; else one active row of the account, added iff there was none |
| PipelineEffects.UndismissExact | api/dismissals.py:50-63 | exactly the visible active dismissals of the property are lifted, by the operator |
| PipelineInvariants.LiveDealsNeverDismissed | api/dismissals.py:26-93 | after any requests of any accounts no account has both a card at a non-terminal stage and an active dismissal of one property |
| PipelineInvariants.UpdateKeepsDeals | api/pipeline.py:144-153 | re-opening a terminal stage that holds many cards lifts the dismissals of all of them |
| PipelineInvariants.AddKeepsDeals | api/pipeline.py:225-285 | adding a card, new or already there, keeps live deals undismissed |
| PipelineInvariants.MoveKeepsDeals | api/pipeline.py:355-386 | so does a move out of a terminal stage |
| PipelineInvariants.LedgerAlwaysReplays | api/pipeline.py:269-386 | the card events replay from empty to exactly the cards and stages, and each leaves from the stage held just before and changes it |
| PipelineInvariants.StagesAlways | api/pipeline.py:44-222 | one non-terminal entry stage and distinct live positions are kept by every request |
| PipelineInvariants.ReorderExact | api/pipeline.py:164-186 | a reorder is accepted iff it names every live stage once, and the stages then list in that order |
| PipelineInvariants.ListingUnique | api/pipeline.py:31-41 | the stage list is one list: distinct positions have one left-to-right order |
| PipelineBoard.UniqueKey | api/pipeline.py:412-427 | the key search ends, with the first free candidate |
| PipelineBoard.Tables.CreateStage | api/pipeline.py:44-70 | a fresh key, to the right of every stage the account ever had |
| PipelineBoard.Tables.UpdateStage | api/pipeline.py:73-161 | the refusals, the patched flags, the crown's move, and the lift after a re-opening |
| PipelineBoard.Tables.ReorderStages | api/pipeline.py:164-186 | refused with nothing changed, or the stages are numbered from 1 and the listing becomes the given order |
| PipelineBoard.Tables.ArchiveStage | api/pipeline.py:189-222 | the refusals; otherwise the stage is archived, by this call iff it was not, holding then none of the account's cards; nothing else changes |
| PipelineBoard.Tables.AddCard | api/pipeline.py:225-296 | idempotent; a new card goes one below the lowest card of the entry stage, the first at 1, and is logged |
| PipelineBoard.Tables.RemoveCard | api/pipeline.py:299-331 | removed iff it was there: the card is gone, its last stage logged, the rest untouched |
| PipelineBoard.Tables.MoveCard | api/pipeline.py:334-392 | the refusals; the card is where it was asked to be and no other moved; only a stage change is logged and re-checks dismissals |
| PipelineBoard.Tables.LiftDismissals | api/dismissals.py:74-93 | lifts exactly the visible active dismissals of properties that now hold a live card, and counts them |
| PipelineBoard.Tables.Dismiss | api/dismissals.py:26-47 | refused on a live deal, otherwise one active dismissal |
| PipelineBoard.Tables.Undismiss | api/dismissals.py:50-63 | lifts every active dismissal of the property the caller sees, and counts them; the caller's account has none left |
| PipelineBoard.RowCountIsHowMany | api/dismissals.py:50-93 | the row count both answer is the number of rows rewritten |
| EventIdentity.NothingNewIffAllTold | api/notifications.py:64-68 | a producer statement adds nothing iff everything it selects was told |
| EventIdentity.TellsWhatWasSelected | api/notifications.py:59-68 | after any statements an event is told iff some statement selected it |
| EventIdentity.TellAppends | api/notifications.py:64-68 | over any statements each event is told once and the first teller's row stays |
| EventIdentity.OrderDoesNotMatter | api/notifications.py:779-793 | two orders of the same work, from one worker or several, tell the same events, equally many |
| Monitor.SpellToldIffCaught | api/notifications.py:1005-1026 | a spell off the market is told iff an inactive pass runs after the 24 h dwell, before the return and inside 7 days, with monitoring begun before it |
| Monitor.LongSpellToldOnce | api/notifications.py:1005-1026 | a spell outlasting the dwell plus one pass period is told exactly once |
| Monitor.ShortSpellNeverTold | api/notifications.py:761-763 | while a spell of at most 24 h lasts nothing is told |
| Monitor.SpellToldAtMostOnce | api/notifications.py:1000-1026 | a spell is never told twice, by any number of passes |
| Monitor.DeparturesADayApart | api/notifications.py:1022-1023 | told departures have whole-second refs at least 86400 apart, and tellings more than a day apart |
| Monitor.InactiveBetweenReactivations | api/notifications.py:1036-1073 | between two reactivated events there is an inactive one, whatever the passes see |
| Monitor.ReturnToldIffSeen | api/notifications.py:1036-1073 | a told departure is answered iff some pass sees the property back before the next departure is told: no identity swallows an answer |
| Monitor.ReplyAtMostOnce | api/notifications.py:1036-1073 | and answered at most once |
| Monitor.SecondWorkerAddsNothing | api/notifications.py:64-68 | once a detector's row is in, running it again, here or in another worker, adds nothing |
| Monitor.Feed.CommitOne | api/notifications.py:779-793 | one statement's rows under ON CONFLICT DO NOTHING, and its rowcount |
| Monitor.Feed.MatchOnce | api/notifications.py:1114-1146 | nothing when nothing is monitored; otherwise the three statements in order, the reactivated one reading what the inactive one committed; the events added are counted |
| LocationFilter.CompiledMeansKeeps | api/location_filter.py:128-157 | in three-valued logic the fragments keep a row iff an included chip's code is the row's own at its level (or none is included) and no excluded one's is, for all chips and rows with NULL codes |
| LocationFilter.FragmentsCompare | api/location_filter.py:48-157 | the fragments compare exactly the columns of the chips' levels (region_id for kraj, and so on), each with its own side's placeholder for that level |
| LocationFilter.OrderAndRepeatsDoNotMatter | api/location_filter.py:106-112 | chip order and duplicates never change which rows are kept |
| LocationFilter.BareNotNeedsEveryCode | api/location_filter.py:149-156 | without COALESCE the exclusion keeps a row iff nothing hits and the row has a code at every excluded level |
| LocationFilter.FragmentsRender | api/location_filter.py:115-157 | every placeholder is supplied and every column is the alias's, both sides writing into one params dict |
| LocationFilter.ParamsSupplyBothSides | api/location_filter.py:144-148 | the exclude side's keys never overwrite the include side's |
| LocationFilter.SideEvaluates | api/location_filter.py:115-125 | a side's OR is true on a hit, unknown without one when a code is NULL, false otherwise |
| LocationFilter.SideListsTheChips | api/location_filter.py:106-112 | a side of the plan lists exactly the chips' codes, per level |
| LocationFilter.SideHasNoRepeats | api/location_filter.py:110-111 | each code once |
| LocationFilter.DistrictCodePlan | api/location_filter.py:106-112 | the loop's plan, and which codes it lists |
| LocationFilter.Arms | api/location_filter.py:115-125 | the arms joined in level order, and the params filled on the way |
| LocationFilter.DistrictWhere | api/location_filter.py:128-157 | an error iff there are chips and no alias; otherwise fragments meaning the in-memory predicate over the columns the chips' levels name, none for no chips |
| KeysetPaging.NoRowTwice | api/estimation_runs.py:1223-1263 | with rows coming and going between fetches, what a reader gets goes strictly down: no row twice |
| KeysetPaging.SteadyRowReadOnce | api/notifications.py:594-634 | a row that matched at every fetch is read exactly once by the time the feed ends |
| KeysetPaging.ReadsOnlyRows | api/notifications.py:594-634 | nothing is read that no fetch saw |
| KeysetPaging.ReaderEnds | api/estimation_runs.py:1251-1255 | a reader ends once its pages would hold more rows than ever matched |
| KeysetPaging.LiveReaderEnds | api/estimation_runs.py:1251-1255 | newer rows arriving meanwhile do not keep it going |
| KeysetPaging.LiveInsertsDoNotShow | api/estimation_runs.py:1223-1255 | on a feed gaining only newer rows, or none, the concatenated pages are the full sorted list of the first fetch |
| KeysetPaging.OffsetRepeatsTheSeam | api/cursor.py:3-10 | under OFFSET one newer row repeats the seam's row, for every list and limit |
| Cursor.CursorRoundTrip | api/cursor.py:19-34 | encoding fails iff an integer is too long to write; a pair reads back from its token, split surrogates joined; any other list's token is an error |
| Cursor.PairSurvivesIff | api/cursor.py:19-34 | a pair reads back as itself iff no string of it holds a high surrogate followed by a low one |
| Cursor.StrayCharacterIsIgnored | api/cursor.py:24-31 | a stray ASCII character anywhere in a token leaves what it decodes to unchanged |
| Cursor.DumpsReadBack | api/cursor.py:20-29 | any list's JSON text loads as the list of what its values read back as |
| Cursor.DecodeCursorIff | api/cursor.py:24-34 | a token is answered with a pair iff it is ASCII, its symbols decode, and their bytes are the UTF-8 text of a JSON list of exactly those two values, nested within the limit |
| Cursor.RecursionErrorIff | api/cursor.py:25-31 | a token raises something else than a ValueError iff the nesting limit changes what its text loads as; a larger limit changes nothing once it does not |
| Cursor.DocumentDeepIff | api/cursor.py:29 | a token holding a JSON document does iff the document nests past the limit |
| Cursor.BracketsEscape | api/cursor.py:25-31 | whatever the limit, one opening bracket more is a token that is neither answered nor a ValueError |
| Cursor.DecodedIsCanonicalIff | api/cursor.py:19-34 | an answered token is the one issued for its pair iff it is URL-safe, well formed, and its text is as json.dumps writes it: no space, no signed zero, no other spelling of a character |
| Base64.BytesReadBack | api/cursor.py:21-28 | any bytes survive the URL-safe base64 and the lenient decoder |
| Base64.AlphabetExact | api/cursor.py:21-28 | the alphabet is A-Z, a-z, 0-9, -, _ in order and = pads; the decoder also reads + and /, and skips every other ASCII character |
| Base64.LettersReadBack | api/cursor.py:21 | a token's letters are URL-safe ASCII and read back as the sextets they came from |
| Base64.DecodesIff | api/cursor.py:24-31 | a text of symbols decodes iff some padding closes a group, one after three sextets or the second after two, whatever follows it, or its sextets fill whole groups |
| Base64.EncodingIsWellFormed | api/cursor.py:21 | every encoding has no stray, whole groups, padding only at its end, and unused bits zero |
| Base64.EncodesBackIff | api/cursor.py:19-31 | a text decodes to bytes that encode back to it iff it is well formed |
| Base64.IssuedIff | api/cursor.py:19-21 | a token is the encoding of bytes iff its letters are URL-safe and its symbols well formed |
| Utf8.ReadsIff | api/cursor.py:28 | bytes read as a text iff they are its strict UTF-8 encoding |
| Json.GrammarExact | api/cursor.py:29 | the grammar's words, brackets, spaces and hexadecimal digits are those json.loads takes |
| Json.ValueScanned | api/cursor.py:29 | whatever the scanner reads as a value is a shaped JSON tree, no deeper than the limit, whose text is what it took |
| Json.ValueScans | api/cursor.py:29 | and every such tree's text, up to where a value may end, is read back as that tree |
| JsonText.LoadsIff | api/cursor.py:29 | a text loads as a document iff it is the text of that document, nested within the limit |
| JsonText.DeepIff | api/cursor.py:29 | it is a RecursionError iff it would load otherwise without the limit, and for a document iff that nests past it |
| JsonValues.StringReadsBack | api/cursor.py:20-29 | any string of code points, lone surrogates included, reads back from its escapes, split pairs joined |
| JsonValues.SurvivesIff | api/cursor.py:20-29 | it is unchanged iff no high surrogate is followed by a low one |
| JsonValues.WrittenIffTight | api/cursor.py:20 | a value's text is the one json.dumps writes iff no zero is signed and each character is spelled as dumps spells it |
| IngestPoll.PollAnswersIff | api/ingest.py:47-68 | held by the listing; else failed or queued by the queue row read first, given up or not; else gone by the last verdict; else not landed |
| IngestQueue.StatementExact | scraper/db.py:1805-2275 | each queue statement column by column: which rows it leaves alone, what it re-arms, how it moves the priority |
| IngestQueue.AdExact | scraper/db.py:2178-2256 | what each statement inserts, deletes and logs: an arriving row has five tries, a completed one is on record, and a give-up is logged once |
| IngestQueue.WellKeptAlways | scraper/db.py:2211-2256 | in every run a row is given up iff its five tries are spent, and then it is unclaimed |
| IngestQueue.GivenUpIffFiveFails | scraper/db.py:2211-2256 | while nothing re-arms or completes it, a row's attempts are its failures since, and it is given up iff they reach five |
| IngestQueue.ClaimedRowIsUndisturbed | scraper/db.py:1805-2060 | until its claimer releases, fails or completes it, no other statement changes a claimed row |
| IngestQueue.GiveUpsAreLogged | scraper/db.py:2218-2256 | until the log is pruned every row given up is on record as given up |
| IngestPoll.PollNeverLosesALandingAd | api/ingest.py:47-68 | whatever runs between its reads, a poll of an enqueued ad that lands never answers not-landed or gone |
| IngestPoll.SwappedPollLosesIt | api/ingest.py:53-56 | reading the listing first, every queued ad has a run that answers not-landed |
| IngestPoll.NotLandedNeedsARequeue | api/ingest.py:63-68 | with gone verdicts allowed, not-landed needs the ad gone, unheld and unqueued at the first read, and queued again during the poll |
| IngestPoll.RequeuedAdCanBeLost | api/ingest.py:63-68 | and such a run exists, though the ad lands |
| IngestPoll.PollSafeIff | api/ingest.py:47-68 | whatever may still run, a poll of a known ad never answers not-landed iff its first read is not of a gone, unheld, unqueued ad |
| IngestPoll.ArmServesIff | api/ingest.py:71-83 | whatever ran since the read, the arm's writes leave a row the drain will serve iff: read live, it is live still, and served already if read claimed; read missing, it is missing or live; or it was read given up |
| IngestPoll.PasteServesIff | api/ingest.py:26-44 | hence when the answer queued, or held of an inactive ad, leaves such a row, with any steps between the reads and the writes |
| IngestPoll.RearmServesIff | api/ingest.py:79-83 | with steps between the two writes of a row read given up, iff it is there, given up again or served |
| IngestPoll.PastedRowFinished | api/ingest.py:26-44 | every live row has a run that finishes it before the write: answered queued, nothing queued |
| IngestPoll.PastedRowGivenUp | api/ingest.py:26-44 | every live row one failure from the limit has a run that gives it up before the write: answered queued, given up, no listing |
| IngestPoll.PasteNeverLosesALandingAd | api/ingest.py:26-83 | after a paste answered queued, an ad that lands is queued or held |
| IngestPoll.PasteAlone | api/ingest.py:26-44 | uninterrupted: held, gone exactly when gone, unheld and unqueued, or a row the drain will serve; only the queue row changes |
| IngestPoll.ArmServes | api/ingest.py:71-83 | arming from the row as it stands serves the ad, and arming again changes nothing; a live row only gains priority |
| IngestPoll.Rows.Arm | api/ingest.py:71-83 | the queue row after the writes its read chooses, with any steps between them, and the row it answers with |
| IngestPoll.Rows.IngestLink | api/ingest.py:26-44 | refused with nothing changed, or the paste's answer and rows, with any steps between its statements |
| IngestPoll.Rows.IngestState | api/ingest.py:47-68 | the poll's answer with any steps between its reads, and what it refuses |

## Left out

- PushLane.Lane.Claim: returns the planned rows in claim order; the statement's own output order uses dispatch times, which are not modelled.
- PushProtocol.TokensAlways: fan-out writes any new row; which events and devices it joins, and the sharer cap's rule, are not modelled.
- PushLane.Lane.Pass: runs its statements over the rows as it claimed them; statements of other passes in between are PushProtocol's subject. A claim or skip statement that raises, which leaves the rows to their lease, the heartbeat dict and logging are not modelled.
- Web Push encryption, VAPID, the mapping from HTTP answers to the five outcomes, payload texts and topics: `send` is any outcome within 9.05 s.
- Broker recompute, the nightly sweep, the audit columns, `merge_candidate` and the list reads.
- EstimationRuns.BudgetAlways: the month only moves forward; entitlements, resolution of the input, yield derivation, traces and the agent loop are outside the run table.
- EstimationRuns.RunTable.SubmitCleared: stops at the answer; the background execution is the finish step. A setup failure's row is a plain failed row.
- PipelineBoard.UniqueKey: takes the slug as given; Unicode folding in `_slugify` is not modelled. Stage keys are taken lowercase, as slugs are.
- PipelineBoard.Tables.ArchiveStage: an archived stage may hold cards later, because moves and crowning do not look at archived_at; no such claim is made.
- Stage labels, colours, codes and their validation; `board_position` as a real; property merge resolution (a property id arrives resolved); the card carriers of a property merge.
- Monitor.SpellToldIffCaught: one (collection, property); the identity carries both, so pairs never meet. A spell's inactive_at is fixed for the spell; listings joining a property while it is inactive are not modelled.
- EventIdentity.TellAppends: rows a property merge marks as duplicates, and the merge lock, are not modelled.
- Monitor.Feed.MatchOnce: takes what the new_source SELECT yields as given.
- The price, new-source and watchdog detectors' joins, visibility, seen-marking and rendering: single statements over the same identity.
- LocationFilter.DistrictWhere: a fragment is its expression tree, not its SQL text; the map area is one function call and is not modelled.
- KeysetPaging.ReaderEnds: a page's rows are their sort keys; filters decide only which rows a snapshot holds. The legacy offset path and the totals are not modelled.
- Cursor.CursorRoundTrip: the values encoded are null, booleans, integers and strings; how json.dumps writes floats, lists and objects is not modelled, and those are read only as Other.
- Cursor.DecodeCursorIff: memory and time are unbounded; a number read as a float, a nested list and an object are one value, Other.
- IngestPoll.NotLandedNeedsARequeue: completions are not pruned in it; once a gone verdict is pruned, after 7 days, the poll answers not-landed.
- URL resolution, the drain's fetching and its retries beyond their effect on the queue row.
- Isolation below the statement or transaction, and crashes inside one.
