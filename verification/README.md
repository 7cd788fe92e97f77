# Verification model of the trade executor

A Dafny 4.11 project that models the hard cores of a risk-gated trade executor
and proves what they are for.  `dafny verify dfyconfig.toml` checks everything.

| Core | Files |
|---|---|
| Order book and BUY protocol of the intraday daemon | `OrderBook.dfy`, `BuyProtocol.dfy`, `BuyMarks.dfy`, `BuyDecisions.dfy`, `BuyRetries.dfy`, `BuyRestarts.dfy`, `BuyTwins.dfy`, `BuySolves.dfy`, `EntryPoll.dfy`, `Daemon.dfy` |
| Short-sell guard, Phase 0, exit planning | `SellGuard.dfy`, `ExitBatch.dfy` |
| Batch entry decisions and concentration caps | `EntryBatch.dfy` |
| End-of-day accounting | `EodFills.dfy`, `EodNames.dfy`, `EodReconcile.dfy`, `EodMarkBasis.dfy`, `EodMarkCorrection.dfy`, `EodAttribution.dfy`, `ExDividends.dfy` |
| Shared rate limiter, dividend back-adjustment | `RateLimiter.dfy`, `DividendAdjustment.dfy` |
| Uptime journal, ledger replay | `Uptime.dfy`, `LedgerReplay.dfy` |
| Wilder indicators | `Indicators.dfy` |
| Shared definitions | `Options.dfy`, `Money.dfy`, `Sums.dfy` |

Dollars and prices are exact reals, share counts are integers or reals, and
times and dates are integers or reals.  Classes are used where the program
mutates objects (`OrderBook`, `Daemon`, `Desk`, `SharedWindow`, `Frame`), and
arrays where it fills a series in place.  Calls to the broker, the vendor, the
store and the clock are parameters, or actions of an environment in a step
machine.

## The protocol models

`BuyProtocol` is a machine over the order book on disk, the day's trade rows, the
in-memory book, the already-traded set, the program counter, held and working
BUY shares, and two logs: the records whose order reached the broker, and the
decisions (entry ids) they carried out.  `Crash` is enabled in every live state,
so it falls between any two durable steps; planner rewrites, redeploys, saves
outside the entry path, fills, expiries and sales happen at any time.
`BuyMarks` says when the write-ahead mark is safe, `BuyDecisions` lifts
at-most-once from records to decisions, `BuyRetries` follows refused entries,
`BuyRestarts` says what a restart offers and when it is safe, and `BuySolves`, on
the failing runs of `BuyTwins`, when an intraday re-solve is.
Class `Daemon` is the program; every one of its methods is proved to be a run of
that machine, and a poll is proved, besides, to place exactly the entries it
should and to leave exactly what their replies call for (`EntryPoll`).  `SellGuard.Account` is the sell side of one ticker as a machine,
and class `Desk` is the program over all tickers with broker events between any
two of its steps.

Broker assumptions, each named in the model: on the BUY side `Rejected` means
nothing filled, an accepted order is live, ids tell orders apart, and cancelling a
timed-out order leaves nothing of it (`OrderRetry.Honest`); whether the cancel is
sent is proved, not assumed.  On the SELL side a last attempt that
timed out may be live or dead; the guard itself relies on at most one attempt of
a call being left alive, as the incident in its comments shows
(`ThreeLiveRetriesGoShort`).  Held, working-buy and open-sell figures are each read in one
step.  A withheld BUY from the correctness gate is the `withheld` flag of
`ExecuteEntry`; SELL steps never see it.

## What was found

Each item is a property that fails as the code is written, with the exact
condition or a concrete run proved beside the positive theorem.

1. **One record can be bought twice** when two pending records share a ticker.
   `mark_entry_executing` marks the first pending record of the ticker, not the
   one being placed.  If the second record fires first and the connection drops
   during placement, that record is still pending and is bought again on the next
   poll (`MarkOnTheWrongRecordBuysTwice`).  The mark is safe for every continuation
   exactly when it lands on the record placed or the ticker was traded already
   (`MarkIsSafeExactly`).  With one record per ticker the question does not arise:
   no run buys a record or a decision twice (`LoneRecordsBoughtOnce`).
2. **A vanished position is bought again.**  Restart reverts an in-doubt record
   when the broker shows neither a holding nor a working buy.  A position that was
   bought and then sold by its broker-side stop before the crash looks the same
   (`VanishedPositionBuysTwice`).  A restart and the next poll offer a record, pending
   or in doubt, exactly when its ticker was not executed, is not in trade rows the
   restart can read, and has no record in doubt that is unreadable or shown by the
   broker (`RestartOffersExactly`).  A restart is safe for every continuation exactly
   when that leaves out every bought record still in the book (`BootIsSafeExactly`).
3. **A planner rerun can buy a decision twice.**  The rerun reproduces the entry id,
   wipes the record in doubt, and writes a new pending record under the same id
   (`PlannerRerunBuysTwice`).  A rewrite is safe for every continuation exactly when
   it brings back no decision that was bought, or is being placed, while its ticker
   is not on the book's executed list (`RewriteIsSafeExactly`).  Trade rows do not
   help, because a restart may fail to read them, and neither does the daemon's own
   traded set, because a restart forgets it.  Intraday re-solves share one id per
   ticker and day, so a second one buys under the id of the first
   (`ResolveReusesItsId`).  A re-solve is safe for every continuation exactly when its
   decision was not bought, and is not in doubt unless its ticker was executed or has
   a bought record in the book (`SolveIsSafeExactly`).
4. **Phase 0 can go short.**  It sells against one snapshot of the holdings while
   open SELL shares are read fresh, and an urgent sell whose last attempt timed out
   is not counted though it may live.  From a covered account it is safe for every
   continuation exactly when nothing is held or no record sells, or no SELL was
   working at the snapshot and either one record sells or no timed-out order lives
   (`Phase0IsSafeExactly`, `WorkingSellThenUrgent`, `LiveTimeoutThenUrgent`).  A crash
   that loses the unsaved urgent marks leads to the first failing case
   (`CrashReplayGoesShort`).
5. **A rejected or skipped entry is not retried**, although the comment beside the
   rollback says it will be.  Its ticker joins the already-traded set, and until the
   daemon restarts no step offers it again (`RefusedIsNotRetried`).  A restart offers it
   under the condition of item 2 (`RestartRetriesTheRejected`), which a rejected record
   can fail with nothing executed and no trade row: the rollback goes by ticker, may
   return another record and leave the rejected one in doubt (`RejectedStaysInDoubt`).
   And it must still be in the book: a reload strips it from memory, and after the
   next save it is gone for every later run (`ErasedForGood`, `SaveErasesTheRejected`).
6. **An exit and a research reduce can both be queued** for one ticker, together
   asking for more shares than are held, exactly when both were asked for and the
   trim is at least one share (`OversoldExactly`).  The sell guard absorbs it.
7. **Batch caps need distinct names.**  A ticker listed twice overwrites its own
   tally entry, and a later name can then pass the cap (`DuplicateOverfillsSector`).
   Whatever else a batch holds, its caps are kept exactly when the names ahead of the
   last in priority order are distinct (`CapsHoldExactly`); in general the overshoot is
   at most what the tally forgot (`BatchWithinCaps`, `NothingForgottenExactly`).
8. **The correlation gate is not same-sector** for a new name: its sector is looked
   up in the book it is not in, so every holding is compared
   (`CorrelationIgnoresSectors`).  The comments say same-sector; the two agree in every
   market exactly when the whole book is in the name's sector
   (`CorrelationIsSectoralExactly`).
9. **The residual is not zero by construction.**  The true residual is exactly:
    cash the fills do not explain, plus interest NAV moved by without the interest
    line, less dividends already credited, plus same-day round trips, plus the gap
    between average cost and buy prices, plus revisions of the prior close
    (`ConservationOfRegularBook`).
10. **The attribution residual is not identically zero**, as the comment beside it
    says: fed with the reconciliation's own figure it is minus the dividend timing,
    plus the mark slices of names that vanished with no shares
    (`ResidualUnderReconciliation`, `ExDividendDayLeavesAResidual`).
11. **Anchored and full-ledger replays disagree** exactly when a name whose ledger
    is oversold has a net buy on the day (`AnchoredIsReplayExactly`,
    `OversoldNameDisagrees`).
12. **Dividend entitlement is not what the documentation says.**  Only today's
    positions are walked, so a name sold on its ex-date is credited nothing
    (`SoldOnExDateEarnsNothing`); with no prior shares today's are used, so a name
    bought on its ex-date is credited (`BoughtOnExDateEarns`).  A name's accrual is what
    it is due exactly when it was not sold away, not credited already and not bought
    today (`AccruesWhatIsDueExactly`); the book's, less what went to names bought today,
    is what it is due exactly when every prior holder of a paying name is still held
    and was not credited already (`AccruedIsEntitledExactly`).
13. **A cover trade counts on both sides** of the weighted prices
    (`SidesOfActions`).
14. **A rate limit below one** raises an index error instead of waiting
    (`AcquireSlot`, `Request`).

## Model

| member | source | states |
|---|---|---|
| `OrderBooks.OrderBook.MarkEntryExecuting` | executor/order_book.py:281-299 | the write-ahead stamp goes to the first pending record of the ticker and to nothing else |
| `OrderBooks.OrderBook.RevertEntryToPending` | executor/order_book.py:315-326 | the first executing record of the ticker becomes pending again, the rest of the book is unchanged |
| `OrderBooks.OrderBook.MarkEntryExecuted` | executor/order_book.py:328-346 | the first open record of the ticker moves to the executed list; executed records of the ticker leave the approved list |
| `OrderBooks.OrderBook.AddApprovedEntry` | executor/order_book.py:232-254 | a decision already pending under the same id is not added twice; any other is appended |
| `OrderBooks.OrderBook.MergeExecutedTickers` | executor/order_book.py:413-425 | a reloaded book keeps exactly the records of tickers not traded yet, in order |
| `OrderBooks.RestampHitsExactly` | executor/order_book.py:281-346 | a by-ticker mutation reaches a given record iff no earlier record of its ticker is eligible |
| `OrderBooks.RevertUndoesMark` | executor/order_book.py:281-326 | rolling back an intent restores the book iff no earlier record of the ticker was already in doubt |
| `BuyProtocol.NoRecordBoughtTwice` | executor/daemon.py:410-489 | over every run of polls, crashes, restarts, planner rewrites, re-solves, saves and broker events, no order-book record reaches the broker twice, provided the write-ahead mark lands on the record placed and a restart still sees landed orders |
| `BuyProtocol.InvAlongRun` | executor/daemon.py:2428-2501 | every reachable state keeps the whole invariant: a bought record that is still pending is blocked durably and in memory, and the record in flight is marked in doubt |
| `BuyProtocol.StepKeeps` | executor/daemon.py:1822-1856 | every single action of the machine, durable or volatile, keeps the invariant |
| `BuyProtocol.WriteAheadKeeps` | executor/daemon.py:2459-2464 | saving the intent before placement takes the record out of the pending walk and keeps later records of its ticker behind it |
| `BuyProtocol.RejectedKeeps` | executor/daemon.py:2476-2485 | reverting a rejected record never exposes a bought one |
| `BuyProtocol.FinalizeKeeps` | executor/daemon.py:2628-2630 | finalizing blocks the ticker durably and leaves unvisited records in place |
| `BuyProtocol.TickKeeps` | executor/daemon.py:1366-1368 | after reload and merge no pending record in memory has been bought |
| `BuyProtocol.RedeployKeeps` | executor/daemon.py:1725-1745 | adding a redeployed record keeps the invariant |
| `BuyProtocol.PlannerRewriteKeeps` | executor/main.py:2650-2652 | a planner overwriting the file between polls keeps the record-level invariant |
| `BuyProtocol.ReconcileSettles` | executor/daemon.py:432-489 | startup reconciliation finalizes every in-doubt ticker the broker shows or leaves its records as they were, and invents no record |
| `BuyProtocol.BootKeeps` | executor/daemon.py:1029-1039 | reconciliation followed by seeding restores the invariant from durable state alone |
| `BuyProtocol.OneRecordPerTickerMarksItself` | executor/order_book.py:281-299 | with one record per ticker the mark always lands on the record being placed |
| `BuyProtocol.OfferedAgainExactly` | executor/daemon.py:1366-1368 | after a placement that landed and then lost its connection, the next poll offers the bought record again iff the write-ahead mark went to another record |
| `BuyProtocol.MarkOnTheWrongRecordBuysTwice` | executor/daemon.py:1850-1856 | a concrete run from a fresh session in which a second record of a ticker is bought twice after a dropped connection |
| `BuyProtocol.VanishedPositionBuysTwice` | executor/daemon.py:467-478 | a concrete run in which a position sold at the broker before a restart is bought again |
| `BuyDecisions.NoDecisionBoughtTwice` | executor/order_book.py:51-65 | over every run that also brings back no bought decision, no entry id reaches the broker twice, however its records are rewritten |
| `BuyDecisions.SoundAlongRun` | executor/order_book.py:388-410 | every reachable state keeps a bought decision either in its very record or on the executed list, and out of the walk |
| `BuyDecisions.StepSound` | executor/daemon.py:1822-1856 | every action keeps the decision-level invariant: reconciliation, reload, intent, landing, rollback, finalizing, rewrite and re-solve |
| `BuyDecisions.RewriteIsSafeExactly` | executor/order_book.py:395-410 | a planner rewrite is safe for every continuation iff it brings back no bought or in-flight decision whose ticker is not on the executed list |
| `BuyDecisions.RewriteIsBoughtAgain` | executor/main.py:2648-2652 | the failing continuation for every other rewrite: land, crash, restart, reload, place |
| `BuyDecisions.PlannerRerunBuysTwice` | executor/order_book.py:51-65 | a concrete same-day run in which the rerun's record has the id of the one in doubt and both are bought |
| `BuyDecisions.ResolveReusesItsId` | executor/daemon.py:1725-1745 | a concrete run in which two re-solves of one ticker buy twice under one id |
| `BuySolves.SolveIsSafeExactly` | executor/daemon.py:1725-1745 | a re-solve is safe for every continuation iff its decision was not bought, and is not in doubt unless its ticker was executed or has a bought record in the book |
| `BuySolves.SolveIsBoughtAgain` | executor/order_book.py:232-254 | a re-solve of a bought decision is bought again in the same poll, traded ticker or not, in doubt or not |
| `BuySolves.SoundWhileDormant` | executor/daemon.py:432-489 | a record in doubt of a ticker executed or bought never wakes, over every run, and no decision is bought twice beside it |
| `BuyTwins.TwinsAreBought` | executor/daemon.py:467-478 | two records of one decision, one in doubt and one pending, of a ticker neither executed nor bought, are both bought by some continuation, whatever else the book holds |
| `BuyDecisions.LoneRecordsBoughtOnce` | executor/daemon.py:1825-1856 | with one record per ticker no assumption on the mark is left: no record and no decision is bought twice |
| `BuyDecisions.SpreadRunsMark` | executor/order_book.py:281-299 | if no plan and no re-solve adds a second record of a ticker, every mark of the run lands on the record placed |
| `BuyMarks.MarkIsSafeExactly` | executor/daemon.py:2459-2464 | the write-ahead mark is safe for every continuation iff it lands on the record placed or the ticker was traded already |
| `BuyMarks.StrayMarkBuysTwice` | executor/order_book.py:281-299 | from every state whose mark strays on an untraded ticker, a continuation buys the record twice |
| `BuyMarks.SafeFromLimbo` | executor/daemon.py:2476-2505 | a record placed under another record's mark, its ticker traded already, is bought once whatever follows |
| `BuyMarks.OrderlyAlongRun` | executor/daemon.py:1825-1826 | in every reachable state the walk visits the records of one ticker in book order |
| `BuyRetries.RefusedIsNotRetried` | executor/daemon.py:2476-2485 | until a restart, a rejected or skipped entry is never offered again and its ticker stays in the traded set |
| `BuyRetries.ErasedForGood` | executor/daemon.py:1366-1368 | once a reload has stripped a refused record and anything is saved, no later run offers it, restarts included |
| `BuyRetries.ReachedAlongRun` | executor/daemon.py:1366-1368 | in every reachable state a record stands for the same ticker on disk and in memory |
| `BuyRestarts.RestartOffersExactly` | executor/daemon.py:432-489 | for every good book, a restart and the next poll offer a record, pending or in doubt, iff its ticker was not executed, is not in readable trade rows, and has no record in doubt that is unreadable or shown by the broker |
| `BuyRestarts.SeedsExactly` | executor/daemon.py:1029-1039 | reconciliation followed by seeding puts exactly those tickers into the already-traded set |
| `BuyRestarts.ReconcileSpares` | executor/daemon.py:432-478 | of a ticker the broker does not show, reconciliation keeps every record, executes none, and leaves as many in doubt as it could not ask about |
| `BuyRestarts.BootIsSafeExactly` | executor/daemon.py:926-1039 | a restart is safe for every continuation iff every bought record still in the book is of a ticker held back by that rule |
| `BuyRestarts.SafeFromShadow` | executor/daemon.py:1366-1368 | a bought record that only the rebuilt traded set holds back is gone with the first save after a reload, and is bought once whatever follows |
| `BuyRestarts.RejectedStaysInDoubt` | executor/order_book.py:315-326 | a concrete run in which the rollback of a rejected record returns another one, and the restart offers neither |
| `BuyRetries.RestartRetriesTheRejected` | executor/daemon.py:2476-2485 | a concrete run in which a rejected entry is bought after a restart |
| `BuyRetries.SaveErasesTheRejected` | executor/daemon.py:1366-1368 | a concrete run in which a rejected entry is gone after a reload, a save and a restart |
| `OrderRetry.PlaceOrderWithRetry` | executor/daemon.py:492-561 | at most three sends, stopping at the first reply that is neither Rejected nor Timeout; the ids cancelled are those of the retried Timeouts, each once and in order, and no other; the audit trail numbers each attempt and names its cause |
| `OrderRetry.CancelledExactly` | executor/daemon.py:533-535 | every retried Timeout is cancelled, every cancelled id is one, and there are as many of the one as of the other |
| `OrderRetry.AtMostOneLive` | executor/daemon.py:492-561 | under the broker contract, and with every retried Timeout cancelled, one call leaves at most one live order, and leaves one iff its last attempt is live |
| `OrderRetry.MissedCancelLeavesTwo` | executor/daemon.py:533-535 | a live Timeout retried without its cancel stays live beside the next order |
| `DaemonEntries.Daemon.Boot` | executor/daemon.py:926-1039 | the startup code is the Boot step of the protocol machine |
| `DaemonEntries.Daemon.ReconcileExecutingEntries` | executor/daemon.py:410-489 | walking the in-doubt records and saving equals the reconciliation function, unreadable records being left alone |
| `DaemonEntries.Daemon.SeedExecuted` | executor/daemon.py:1029-1039 | the already-traded set is rebuilt from executed records, in-doubt records and readable trade rows |
| `DaemonEntries.Daemon.Reload` | executor/daemon.py:1366-1368 | the reload is the Tick step of the machine |
| `DaemonEntries.Daemon.ExecuteEntry` | executor/daemon.py:2370-2629 | a triggered entry is placed iff it asks for shares, nothing withholds it and no BUY of its ticker works; its last reply then decides landing, working shares, trade row, traded set, record and file; an exception leaves the traded set unchanged |
| `DaemonEntries.Daemon.PlaceEntry` | executor/daemon.py:2465-2629 | from the saved intent: the record is finalized if the last reply accepts, pending again if it rejects, in doubt otherwise, and the order lands iff it is live |
| `DaemonEntries.Daemon.CheckEntries` | executor/daemon.py:1825-1856 | an entry reached is placed iff its trigger fired, it asks for shares, nothing withholds it and no BUY of its ticker worked then; exactly the placed ones whose last reply is live land, in order and whole; rows, traded set and book change for the tickers concerned only; an exception ends the poll |
| `EntryPoll.AccountSays` | executor/daemon.py:1825-1856 | the account of a poll, spelled out: who was placed, what landed, and what that did to rows, traded set and book |
| `SellGuard.ValidateSellShares` | executor/daemon.py:296-345 | with shorts disallowed the capped quantity plus working sells never exceeds holdings, is cut only to exactly what is free, and is refused iff nothing is free |
| `SellGuard.StaleFigureIsSafeExactly` | executor/daemon.py:1108-1113 | a stale holdings figure is harmless for all request sizes iff it does not exceed the true one or leaves nothing to sell |
| `SellGuard.GuardSurvivesRetryExactly` | executor/daemon.py:296-561 | the guard followed by the retry loop takes no account short iff at most one of the attempts sent is left alive |
| `SellGuard.ContractProtectsGuard` | executor/daemon.py:492-561 | the broker contract, cancel before retry included, is enough for that |
| `SellGuard.ThreeLiveRetriesGoShort` | executor/daemon.py:309-313 | three live attempts of 77 shares against 155 held end 76 short |
| `SellGuard.SellsTheLesser` | executor/daemon.py:296-345 | a sell of the machine, urgent or intraday, orders the lesser of its request and what is free, and only an accepted urgent one comes off the copy |
| `SellGuard.NeverShort` | executor/daemon.py:2124-2155 | over every run of urgent and intraday sells, live and dead timeouts, fills, buys, crashes and replays, working sells never exceed holdings, provided Phase 0 starts with no SELL working and sells nothing of the ticker after a live timeout |
| `SellGuard.Phase0IsSafeExactly` | executor/daemon.py:1071-1155 | from a covered account Phase 0 is safe for every continuation iff nothing is held or no record sells, or no SELL was working at its snapshot and either one record sells or no timed-out order lives |
| `SellGuard.WorkingSellThenUrgent` | executor/daemon.py:1071-1155 | the failing continuation for every account with a working SELL |
| `SellGuard.LiveTimeoutThenUrgent` | executor/daemon.py:1141-1158 | the other failing continuation, for every holding: a timed-out sell fills and a second record sells the whole snapshot |
| `SellGuard.CrashReplayGoesShort` | executor/daemon.py:1340-1342 | a crash between an urgent sell and the save replays it and takes any position short |
| `SellGuard.Desk.ExecuteUrgent` | executor/daemon.py:1088-1280 | one urgent record, whatever the reply, does to the working sells, the cached map and its mark what the specified step does; an order that timed out and lives works without being counted |
| `SellGuard.Desk.Phase0` | executor/daemon.py:1071-1342 | each sell orders the lesser of its request and what its name has free, or nothing if it left nothing; it is left unmarked iff an order was attempted and not accepted; free is the snapshot less accepted sells before it less what works then; from quiet holdings, when no sell follows a live timeout of its own name, no name sells more than its snapshot and every sell stays covered |
| `SellGuard.QuietSells` | executor/daemon.py:1071-1155 | from quiet holdings, one record per name has free exactly what the snapshot held |
| `SellGuard.CarefulWhen` | executor/daemon.py:1071-1342 | one urgent sell record per name, or no live timeout, is enough for that |
| `SellGuard.Desk.ExecuteExit` | executor/daemon.py:2124-2155 | an intraday exit reads both figures together and keeps every working sell covered |
| `ExitBatch.Merge` | executor/deciders.py:1192-1202 | each ticker once: every research ticker, plus strategy tickers of the kind that are not barred |
| `ExitBatch.DecideExits` | executor/deciders.py:1192-1354 | at most one EXIT and one REDUCE per ticker; an order is queued iff it was asked for, the name is held and a trim is at least one share |
| `ExitBatch.TruncateIsTowardZero` | executor/deciders.py:1303 | the trimmed count is the nearest whole number between zero and the product |
| `ExitBatch.OversoldExactly` | executor/deciders.py:1282-1306 | more than the holding is queued for a ticker iff research reduces it while anyone exits it and the trim is positive |
| `EntryBatch.PrioritisedIsOrdered` | executor/deciders.py:421-470 | candidates are processed by urgency, score and alpha, highest first |
| `EntryBatch.HigherGoesFirst` | executor/deciders.py:453-466 | the key puts higher urgency first when that is on, then higher score, then higher alpha, missing scores counting as zero |
| `EntryBatch.PrioritisedIsStable` | executor/deciders.py:574-577 | candidates of equal rank keep their listing order |
| `EntryBatch.GatesSortTheBatch` | executor/deciders.py:590-947 | over a whole batch every order was eligible and well scored, and the entry gates refused exactly the candidates that are held, unpriced, without shares, overridden, or neither a dated catalyst nor confirmed by momentum |
| `EntryBatch.WorseMomentumNeverAdmits` | executor/deciders.py:640-783 | the gates are monotone: a candidate alike but with lower momentum readings, or a veto no weaker, passes only if the better one does |
| `EntryBatch.DecideEntries` | executor/deciders.py:574-1165 | every candidate is ordered or refused exactly once, orders are in priority order, and for distinct candidate tickers every sector and the whole book stay under the larger of their start and cap; a missing ATR aborts |
| `EntryBatch.PlanIsSound` | executor/deciders.py:574-1165 | the same three guarantees about the specified batch |
| `EntryBatch.EveryCandidateOnce` | executor/deciders.py:574-1065 | absent the abort, orders and refusals together are a permutation of the candidates |
| `EntryBatch.OrdersKeepOrder` | executor/deciders.py:574-577 | the orders keep the priority order |
| `EntryBatch.TallyWithinCaps` | executor/deciders.py:949-1045 | after any number of candidates the running book respects each cap the starting book respected and never makes an excess worse |
| `EntryBatch.BatchWithinCaps` | executor/deciders.py:579-586 | true exposure of a sector or the book is at most the larger of start and cap plus what the running book forgot |
| `EntryBatch.CapsHoldExactly` | executor/deciders.py:579-586 | every batch of these names keeps its caps, for all sizes, scores, books, limits and markets, iff the names ahead of the last in priority order are distinct |
| `EntryBatch.DistinctNamesKeepCaps` | executor/deciders.py:1040-1045 | distinct names ahead of the last are enough |
| `EntryBatch.CraftedBreaksCaps` | executor/deciders.py:1040-1045 | for any two equal names ahead of the last, a batch of those very names overfills a sector |
| `EntryBatch.TallyIdentity` | executor/deciders.py:1040-1045 | the running book equals the true exposure less the dollars of orders overwritten by a later order of the same name |
| `EntryBatch.NothingForgottenExactly` | executor/deciders.py:1040-1045 | nothing is forgotten iff no name is ordered twice |
| `EntryBatch.DuplicateOverfillsSector` | executor/deciders.py:1040-1045 | the smallest such batch: A buys 20, A buys 5, B buys 20, against a cap of 25 |
| `EntryBatch.ApprovalFits` | executor/risk_guard.py:617-650 | an approval leaves existing plus new within the sector cap and the total cap |
| `EntryBatch.ApprovedExactly` | executor/risk_guard.py:504-664 | an entry is approved iff every rule holds, the caps stated as existing plus new at most cap times NAV |
| `EntryBatch.CheckOrderNow` | executor/risk_guard.py:464-664 | the rules fire in the order written, each summing the running book it is given |
| `EntryBatch.CheckCorrelation` | executor/risk_guard.py:248-338 | blocks iff the mean correlation over comparable holdings exceeds the threshold |
| `EntryBatch.PeersExactly` | executor/risk_guard.py:276-296 | a name in the book with a named sector is compared with the comparable holdings of that sector alone, any other with all of them |
| `EntryBatch.CorrelationIgnoresSectors` | executor/risk_guard.py:276-296 | for a name not in the book the verdict does not depend on any sector |
| `EntryBatch.CorrelationIsSectoralExactly` | executor/risk_guard.py:255-296 | for a new name the verdict is the same-sector verdict in every market iff the whole book is in its sector |
| `EntryBatch.BlockedAcrossSectors` | executor/risk_guard.py:289-296 | one holding of another sector is enough to block the name |
| `EodFills.WeightedPrices` | executor/eod_report.py:250-267 | a price per ticker that traded on the side, equal to notional over shares |
| `EodFills.RealPricesDecide` | executor/eod_report.py:220-278 | a name's weighted price lies among its fills, among mapped prices of rows without a fill, and among estimates of rows without either, whatever a lesser price of a row says |
| `EodFills.EstimatesAreIgnored` | executor/eod_report.py:237-248 | prices that a better one overrides change neither weighted prices nor row cash |
| `EodFills.CountsExactly` | executor/eod_report.py:250-278 | a row counts iff it is on the side, names a ticker, moves shares and has a positive price of any kind |
| `EodFills.OneFilledExit` | executor/eod_report.py:250-278 | one filled exit is priced at its fill on the selling side alone, and its cash is the sale |
| `EodFills.OneFilledEntry` | executor/eod_report.py:250-278 | one filled entry is priced at its fill on the buying side alone, and its cash goes out |
| `EodFills.FillBeatsEstimate` | executor/eod_report.py:229-235 | an exit filled at 100 counts at 100 while its estimate reads 103.33 |
| `EodFills.SidesOfActions` | executor/eod_report.py:181-188 | entries count as buys and exits as sells only; a cover counts on both sides |
| `EodFills.SpelledSide` | executor/eod_report.py:254-255 | an action with SELL or BUY anywhere in it is on that side |
| `EodFills.VwapIsExact` | executor/eod_report.py:250-267 | shares traded at the weighted price are worth exactly what was paid |
| `EodFills.VwapIsBetween` | executor/eod_report.py:250-267 | a weighted price lies between the prices it averages |
| `EodFills.RowCashByName` | executor/eod_report.py:250-277 | the cash of all rows is the sum over names of sales less purchases |
| `EodNames.CleanNameLeaks` | executor/eod_reconcile.py:1170-1227 | for any hold, add, trim, entry, exit or round trip, value change plus cash less daily return and rotation is exactly round trips plus entry gap plus close revision |
| `EodNames.AddLeaks` | executor/eod_reconcile.py:1199-1220 | an add is measured from the prior close on kept shares and from the buy fills on added ones |
| `EodNames.TrimLeaks` | executor/eod_report.py:350-378 | a hold, trim or full exit splits exactly between the kept shares and the rotation |
| `EodNames.NewLeaks` | executor/eod_reconcile.py:1171-1173 | a name opened today leaks only the gap between average cost and its buys, and its round trips |
| `EodNames.StaleNameSurfaces` | executor/eod_reconcile.py:1177-1192 | a stale baseline reports no return and its whole price move lands in the residual |
| `EodNames.PercentMatchesDollars` | executor/eod_reconcile.py:1210-1226 | the reported percentage is the reported dollars over the cost of the shares at their baselines |
| `EodNames.NewNameReturn` | executor/eod_reconcile.py:1100-1228 | a name first held today returns shares times the close over its average cost, and nothing without one |
| `EodNames.HeldNameReturn` | executor/eod_reconcile.py:1100-1228 | a name held through is measured from the authoritative prior close of the right day, else from the persisted close, else from the persisted value; an older one reports nothing |
| `EodNames.AddedNameReturn` | executor/eod_reconcile.py:1100-1228 | kept shares are measured from the prior close and added ones from their fills |
| `EodNames.RotatedOut` | executor/eod_report.py:350-379 | shares rotated out realise the fills' price over the persisted prior close, and nothing without fills |
| `EodNames.SettledValues` | executor/eod_reconcile.py:312-352 | a name is worth its shares at the close on either day, or its stored value when there is no close; the price implied by a stored value gives that value back |
| `EodReconcile.SettledPositionValue` | executor/eod_reconcile.py:312-345 | sum of shares times close with the broker value as fallback, and exactly the names that fell back |
| `EodReconcile.TwoSettledValues` | executor/eod_reconcile.py:312-345 | the value before and after the settled-close override differ exactly by broker value left on zero-share names without a close |
| `EodReconcile.PricePositions` | executor/eod_reconcile.py:2160-2197 | every position is repriced at its close and the daily returns and settled values are summed |
| `EodReconcile.RotationRealizedNow` | executor/eod_report.py:350-378 | the loop over prior holdings is the sum of the rotation of each name |
| `EodReconcile.Conservation` | executor/eod_reconcile.py:2309-2419 | for every book and every trade list, the settled residual is unexplained cash and interest, less dividends already credited, plus what each name leaks |
| `EodReconcile.ConservationOfRegularBook` | executor/eod_reconcile.py:2309-2419 | with share counts tied to fills, the residual is exactly unexplained cash and interest, less dividends credited, plus round trips, entry gaps and close revisions |
| `EodReconcile.ResidualOfOneSidedBook` | executor/eod_reconcile.py:2309-2343 | with no round trips, entry gaps or revisions the residual is zero iff unexplained cash and interest equal the dividends credited |
| `EodReconcile.NothingUnattributed` | executor/eod_reconcile.py:2309-2419 | when cash moves only by fills and released dividends and interest only accrues, unattributed_true_usd is zero on either NAV basis |
| `EodReconcile.ResidualOnBasis` | executor/eod_reconcile.py:2374-2419 | on either basis the true residual is that of the settled book, shifted only by a prior headline on another basis and by strays |
| `EodReconcile.ResidualIgnoresBasis` | executor/eod_reconcile.py:1933-1998 | the same day on ib_netliq and on settled_close leaves the same true residual |
| `EodReconcile.WorkedDayReconciles` | executor/eod_reconcile.py:2309-2419 | a worked day with a sale, dividends, interest and an off-close mark, every line in dollars |
| `EodReconcile.Reconcile` | executor/eod_reconcile.py:1933-2419 | refused iff the settled basis has no cash leg or an unpriced name; otherwise the waterfall is the specified one and obeys the conservation law |
| `EodMarkBasis.PricingTimingByTicker` | executor/eod_report.py:303-347 | the map holds exactly the non-zero basis moves, the count is the uncovered names, and the map sums to the covered total |
| `EodMarkBasis.AttributeMarkBasis` | executor/eod_reconcile.py:496-572 | the running sums are the same covered total and uncovered count, and the explained part is the sum over off-close names, absent iff no name is covered |
| `EodMarkBasis.Telescopes` | executor/eod_report.py:303-347 | with no name uncovered the per-name moves add up to the change of the book basis |
| `EodMarkBasis.NavTermLessNames` | executor/eod_reconcile.py:2384-2404 | the NAV-level term less the per-name total is the change of NAV less cash, accruals and broker marks |
| `EodMarkBasis.UnexplainedIsSmall` | executor/eod_reconcile.py:521-571 | what off-close names do not explain is at most a tenth of a percent of the other names' market value on both days |
| `EodMarkBasis.OffByATenthOfAPercent` | executor/eod_reconcile.py:362-371 | a mark counts as off its close iff it misses it by a tenth of a percent of the close or more |
| `EodMarkBasis.ToleranceIsATenthOfAPercent` | executor/eod_reconcile.py:308 | what a name may leave unexplained is a thousandth of its market value |
| `EodMarkCorrection.DetectOutsideRange` | executor/eod_reconcile.py:596-652 | flags exactly the checkable positions whose mark is outside the day's range, once each, with the mark their value implies |
| `EodMarkCorrection.PlanCorrection` | executor/pnl_integrity.py:1004-1129 | applied iff some flag is repairable and the total is within the bound, refused iff it exceeds it; NAV moves by the total only when applied |
| `EodMarkCorrection.RepairableExactly` | executor/pnl_integrity.py:1004-1129 | a flag is repaired iff it has shares and a close inside the day's range, ends included, and the repair moves the mark to that close |
| `EodMarkCorrection.WithinBoundExactly` | executor/pnl_integrity.py:953-1001 | a total is within the bound iff it is at most ten thousand dollars, or at most one percent of NAV, in either direction |
| `EodMarkCorrection.ApplyCorrection` | executor/eod_reconcile.py:398-436 | refused iff a correction names no position; otherwise each named row carries the repaired mark and keeps the raw one |
| `EodMarkCorrection.RestatePrior` | executor/eod_reconcile.py:439-493 | an unapplied plan changes nothing; absent and already corrected rows are skipped |
| `EodMarkCorrection.NavAndMarksMoveTogether` | executor/eod_reconcile.py:1863-1921 | a correction leaves NAV less the sum of broker marks unchanged |
| `EodMarkCorrection.CorrectedNameIsClean` | executor/eod_reconcile.py:1882-1917 | a corrected row is worth shares times the settled close, so its basis is zero, its raw mark is kept and it is back inside the range |
| `EodMarkCorrection.RestateIsForwardWrite` | executor/eod_reconcile.py:439-493 | restating an old row writes exactly what forward-writing would have |
| `EodMarkCorrection.RestateIsIdempotent` | executor/eod_reconcile.py:439-493 | restating twice is restating once |
| `EodMarkCorrection.ForwardWrittenIsLeftAlone` | executor/eod_reconcile.py:474-478 | a row corrected on its own day is not touched by restating |
| `EodAttribution.ComputeAlphaAttribution` | executor/eod_report.py:389-540 | undefined iff there is no positive prior NAV or no benchmark; otherwise rows plus residual are dollar alpha and the residual is NAV change less position P&L, interest and unattributed, plus lost slices |
| `EodAttribution.SleevesTieOut` | executor/eod_report.py:419-536 | for arbitrary rotation the sleeves sum to dollar alpha up to exactly that residual |
| `EodAttribution.ResidualUnderReconciliation` | executor/eod_reconcile.py:2341-2343 | with the reconciliation's own figure the residual is the lost slices less the dividend timing, zero iff they agree |
| `EodAttribution.ExDividendDayLeavesAResidual` | executor/eod_report.py:523-536 | a session holding one paying name, credited by the accrual run itself, whose residual is minus the accrued 50 |
| `EodAttribution.NothingLost` | executor/eod_report.py:468-494 | no slice is lost when every vanished name had shares to sell |
| `EodAttribution.NameSleeves` | executor/eod_report.py:440-494 | a name kept whole, trimmed or sold out puts benchmark, realised fills and timing into exactly one of its two sleeves, in its own figures |
| `EodAttribution.SpyIsPercent` | executor/eod_report.py:422-424 | the benchmark return is read in percent |
| `EodAttribution.HeldRows` | executor/eod_report.py:440-466 | the held rows add up to the position sleeve and the capital they are benchmarked on |
| `EodAttribution.RotationRows` | executor/eod_report.py:468-494 | the rotation rows add up to the rotation sleeve, the realised dollars and the capital sold |
| `ExDividends.FetchExDividends` | executor/dividends.py:140-232 | nothing is established iff the vendor fails; otherwise, per held ticker or the benchmark, the sum of its counted amounts and its latest known pay date, and no entry for others |
| `ExDividends.CountsExactly` | executor/dividends.py:69-90 | a dividend counts iff it is dated and positive and goes ex after the prior run and no later than this one; on a first run, on that very day |
| `ExDividends.LatestPayIsLatest` | executor/dividends.py:223-232 | the recorded pay date is one of the events' dates and none is later |
| `ExDividends.QueryIsEnough` | executor/dividends.py:176-182 | the inclusive vendor window loses no dividend of the interval and the local edge drops the extra day |
| `ExDividends.RunsAddUp` | executor/dividends.py:69-90 | over increasing run dates the per-share totals add up to the dividends of the whole span |
| `ExDividends.CountedOnce` | executor/dividends.py:69-90 | a dividend of the span belongs to exactly one run |
| `ExDividends.AccruePositionDividends` | executor/dividends.py:242-314 | credits each entitled position of today once; the records pay out exactly what was credited |
| `ExDividends.CreditWrites` | executor/dividends.py:287-312 | crediting writes the dollars on the position, adds them to its return and restates the return on yesterday's value |
| `ExDividends.AccruesWhatIsDueExactly` | executor/dividends.py:252-286 | a name's accrual is prior shares times its dividend iff it was not sold away, not credited already and not bought today; the first two accrue nothing, the last accrues what nobody is due |
| `ExDividends.AccruedIsEntitledExactly` | executor/dividends.py:242-314 | the book's accrual, less what went to names bought today, is its entitlement iff every prior holder of a paying name is still among the positions and was not credited already |
| `ExDividends.EntitlementIdentity` | executor/dividends.py:242-314 | entitlement less accrual is the sum of the per-name shortfalls |
| `ExDividends.SoldOnExDateEarnsNothing` | executor/dividends.py:252-255 | a name sold on its ex-date, entitled to 50, is credited nothing |
| `ExDividends.BoughtOnExDateEarns` | executor/dividends.py:252-255 | a name bought on its ex-date, entitled to nothing, is credited 50 |
| `ExDividends.AskingMoreCreditsNoMore` | executor/dividends.py:242-314 | asking the vendor about more names than are held credits no more |
| `ExDividends.CreditConserves` | executor/dividends.py:295-298 | position returns grow by exactly the accrued dollars |
| `ExDividends.CreditIsIdempotent` | executor/dividends.py:275-286 | a name already credited is not credited again |
| `RateLimiter.AtMostLimitPerWindow` | polygon_client.py:108-149 | over every interleaving of clients any closed 60-second interval holds at most the largest limit of booked calls |
| `RateLimiter.InterleaveKeeps` | polygon_client.py:119-149 | every locked operation keeps the deque equal to the booked calls still in the window |
| `RateLimiter.RoomIsGranted` | polygon_client.py:132-143 | a slot is granted iff fewer than the limit were booked in the last 60 seconds |
| `RateLimiter.WaitOutlastsTheOldest` | polygon_client.py:119-143 | a caller told to wait finds the oldest call of the window 60.5 seconds old |
| `RateLimiter.WithinLimitsCounts` | polygon_client.py:132-143 | the per-call limits bound the number of calls in every window |
| `RateLimiter.SharedWindow.TryAcquire` | polygon_client.py:132-143 | one turn under the lock books exactly when there is room, else answers how long the head stays |
| `RateLimiter.SharedWindow.PeekWait` | polygon_client.py:123-130 | the wait query purges and books nothing |
| `RateLimiter.SharedWindow.AcquireSlot` | polygon_client.py:132-143 | a lone caller returns after at most one sleep per call above the limit and books one call; a limit below one fails |
| `RateLimiter.Request` | polygon_client.py:217-266 | one booked slot per send, at most four sends, stopping at the first answer that is not a 429; after each 429 the next send waits out the server's own delay and floors of 15, 30 and 60 seconds; the outcome is that of the last answer |
| `DividendAdjustment.Frame.ApplyDividendAdjustment` | polygon_client.py:553-624 | every bar of every price column is its price times the product of accepted ratios with a later ex-date, ratios taken from unadjusted closes |
| `DividendAdjustment.AdjustColumn` | polygon_client.py:617-622 | the nested in-place loop over one column equals the product formula |
| `DividendAdjustment.CollectFactors` | polygon_client.py:566-608 | the accepted ratios of the usable dividends in ex-date order |
| `DividendAdjustment.AcceptedExactly` | polygon_client.py:586-608 | a dividend is accepted iff it is smaller than the close before its ex-date; its ratio is the close after it over the close before |
| `DividendAdjustment.UsableExactly` | polygon_client.py:566-585 | usable iff its ex-date is known and no later than the last bar and its amount positive |
| `DividendAdjustment.OrderIrrelevant` | polygon_client.py:553-624 | the factor of a bar does not depend on the order dividends are listed in |
| `DividendAdjustment.AdjustmentIsUnitAndMonotone` | polygon_client.py:598-622 | factors lie in (0, 1], never decrease going forward, and the last bar is unadjusted |
| `DividendAdjustment.ExDateReturnIsTotalReturn` | polygon_client.py:591-622 | across a lone accepted ex-date the adjusted close ratio is close[ex] over close[prev] less the dividend |
| `Uptime.JournalIntervals` | executor/backfill_uptime.py:104-144 | the intervals are ordered, disjoint and inside the day, and cover an instant iff the last event so far is a start or the first event to come is a stop |
| `Uptime.CoverageIsActivity` | executor/backfill_uptime.py:113-142 | coverage of the walk is activity, for every sorted noisy journal |
| `Uptime.IntervalsAreOrdered` | executor/backfill_uptime.py:113-142 | emitted intervals never overlap |
| `Uptime.StretchesAreProper` | executor/backfill_uptime.py:129-142 | a stretch that stops the instant it starts is not emitted |
| `Uptime.DuplicateIsIgnored` | executor/backfill_uptime.py:121-138 | repeating a start or a stop leaves the intervals exactly as they were |
| `Uptime.TotalIsActiveTime` | executor/backfill_uptime.py:157-161 | the clipped total is the active time in the session |
| `Uptime.ComputeBackfillMetrics` | executor/backfill_uptime.py:147-176 | whole minutes of the clipped total, the fraction of the session, and one restart per interval after the first |
| `Uptime.Backfill` | executor/backfill_uptime.py:104-176 | active minutes are the measure of active time and never exceed the session |
| `LedgerReplay.AnchoredIsReplayExactly` | executor/backfill_eod_pnl.py:83-195 | one day rolled forward on the replayed prior book equals the full replay iff no oversold name has a net buy that day, or there was no anchor |
| `LedgerReplay.OversoldNameDisagrees` | executor/backfill_eod_pnl.py:83-195 | a three-row ledger on which the two books differ |
| `LedgerReplay.ChainIsReplayExactly` | executor/backfill_eod_pnl.py:139-195 | day after day over any horizon the anchored books are the replayed ones iff every step is clean |
| `LedgerReplay.NeverOversoldIsClean` | executor/backfill_eod_pnl.py:139-195 | a ledger that never oversells keeps the two in agreement |
| `LedgerReplay.AnchorForgetsHistory` | executor/backfill_eod_pnl.py:179-195 | with an anchor the result depends only on the snapshot and the day's net deltas |
| `LedgerReplay.HaltDayIsExact` | executor/backfill_eod_pnl.py:139-215 | a day without fills reproduces the anchor and never trips the divergence guard |
| `LedgerReplay.SynthesizePositions` | executor/backfill_eod_pnl.py:139-195 | the anchored book, or the flagged full replay when nothing anchors it |
| `LedgerReplay.OrderedCountIgnored` | executor/backfill_eod_pnl.py:98-226 | where a fill is on record the ordered count changes neither the book nor the day's cash |
| `LedgerReplay.AnchoredBookIsFills` | executor/backfill_eod_pnl.py:139-195 | a name whose day rows are filled ends at its positive prior count plus filled buys less filled sells, and is held only if that is positive |
| `LedgerReplay.CashIsFilled` | executor/backfill_eod_pnl.py:218-239 | the day's cash is sales less purchases at the filled counts |
| `LedgerReplay.PartialFillBooksTheFill` | executor/backfill_eod_pnl.py:98-226 | 60 filled out of 100 at 10 leave 61 shares of one held and 600 out |
| `LedgerReplay.DivergenceIsRefused` | executor/backfill_eod_pnl.py:198-215 | 7 against 20 positions is refused; a change of up to three names or of up to half is not |
| `LedgerReplay.NetRows` | executor/backfill_eod_pnl.py:83-136 | the running net of every touched ticker |
| `LedgerReplay.DayCashFlow` | executor/backfill_eod_pnl.py:218-239 | sales in, purchases out, unpriced rows ignored |
| `LedgerReplay.NavChange` | executor/backfill_eod_pnl.py:267-320 | NAV moves by prior shares times close change plus each fill's gain to the close, less what the clip at zero threw away |
| `LedgerReplay.NavChangeWhenPriced` | executor/backfill_eod_pnl.py:218-320 | with every fill priced and nothing clipped, NAV change is prior shares times close change plus signed fills times close less fill price |
| `LedgerReplay.BackfillDay` | executor/backfill_eod_pnl.py:355-437 | refused for the first reason that applies, force overriding those that only protect; otherwise NAV is the rolled cash plus the book at its closes, and on an anchor it obeys the conservation law for arbitrary prior closes |
| `LedgerReplay.WrittenExactly` | executor/backfill_eod_pnl.py:361-437 | a day is written iff it has a cash baseline and a close for every name and, unless forced, no row, no real snapshot and no divergence; otherwise the first of them refuses it |
| `Indicators.ComputeAtr` | executor/feature_lookup.py:260-314 | undefined below period + 1 bars; otherwise the in-place series is the seeded Wilder average of the true ranges |
| `Indicators.AtrHasNoLookAhead` | executor/feature_lookup.py:260-314 | bar i of the ATR series is the last bar of the series of the history ending there |
| `Indicators.AtrWithinTrueRanges` | executor/feature_lookup.py:303-312 | ATR lies between the smallest and largest true range seen so far |
| `Indicators.TrueRangeIsSpan` | executor/feature_lookup.py:285-294 | on a proper bar the true range is the span of the bar extended to the previous close |
| `Indicators.WilderRecurrence` | executor/feature_lookup.py:308-312 | period times the new average is period less one times the old plus the new sample |
| `Indicators.ComputeRsi` | executor/feature_lookup.py:317-349 | undefined below period + 1 bars; otherwise every bar is the index of the Wilder averages of gains and losses |
| `Indicators.RsiHasNoLookAhead` | executor/feature_lookup.py:317-356 | bar i of the RSI series is the last bar of the series of the history ending there, and lies in [0, 100] |
| `Indicators.RsiIsScaleFree` | executor/feature_lookup.py:317-356 | scaling every price by a positive constant leaves the RSI unchanged |
| `Indicators.RsiOfReflection` | executor/feature_lookup.py:317-356 | turning the price path upside down gives the complement, or 100 when nothing moved |
| `Indicators.RsiOfOneWay` | executor/feature_lookup.py:317-356 | a path that only rises has index 100, one that only falls 0 |
| `Indicators.RsiIsShareOfGains` | executor/feature_lookup.py:351-356 | the index is the gains' share of all movement, 100 iff nothing was lost |

## Left out

- BuyProtocol.NoRecordBoughtTwice: assumes the mark lands on the record placed and that a restart still sees landed orders; each is needed by a concrete run, and exact for every continuation by `MarkIsSafeExactly` and `BootIsSafeExactly`.
- BuyDecisions.NoDecisionBoughtTwice: assumes besides that no rewrite brings back a bought decision, exact by `RewriteIsSafeExactly`, and no re-solve one that is bought or in doubt; `SolveIsSafeExactly` gives the exact, wider condition for one re-solve.
- BuyDecisions.RewriteIsSafeExactly: the planner's load and save are one step, so a rewrite does not lose an executed list saved in between; plans ask for positive shares, as the entry planner does.
- BuyMarks.MarkIsSafeExactly: records in memory ask for positive shares, as planner and re-solve do.
- BuyRestarts.BootIsSafeExactly: records on disk ask for positive shares; its continuations keep the assumptions above at later marks and restarts, as those of the other exact conditions do.
- BuySolves.SolveIsSafeExactly: an id names its ticker, as ids are composed; records in memory ask for positive shares.
- SellGuard.NeverShort: assumes Phase 0 starts with no working SELL and sells nothing of the ticker after a timed-out attempt that lives; what a caller can check before Phase 0 is exact by `Phase0IsSafeExactly`.
- Uptime.JournalIntervals: the regular expressions that classify journal messages, and the journal command itself, are not modelled; events arrive classified, sorted and within the day.
- Uptime.ComputeBackfillMetrics: the rounding of the uptime fraction to four digits is not modelled.
- EodReconcile.Reconcile: the positive and negative broker accrual deltas are one input figure; the prior snapshot, its NAV and its cash are taken from one row; a prior row without cash is not modelled, and percentages of the headline are not computed.
- EodReconcile.NothingUnattributed: needs every fill row to carry the price that moved cash; a row priced at its arrival estimate shows in `CashGap` instead.
- EodMarkCorrection.RestatePrior: the recomputed per-row diagnostics (basis, off-close percentage) and the parsing of the stored plan are not modelled.
- EodAttribution.ComputeAlphaAttribution: basis points per row and the finiteness flag are not modelled.
- EntryBatch.CheckOrderNow: the regime-conditional minimum score and the drawdown multiplier are inputs; the position sizer is an input per candidate.
- LedgerReplay.SynthesizePositions: average cost and sector carried on the snapshot rows are not modelled.
- DaemonEntries.Daemon.ExecuteEntry: bracket legs, partial-fill share counts and stop records are not modelled; the order lands whole as working shares.
- Active stops, urgent covers, profit takes and high-water marks of the order book.
- Floating-point rounding, thread scheduling below the lock, time zones and calendars.
- Object storage, databases, the broker gateway, HTTP, messaging, logging, health and decision-capture code.
- Champion selection, correctness verdict, de-risk gate, alpha contract and configuration loading: each settled by reading one branch.
- The gap-backfill gate, entry triggers, market hours, bracket orders and emergency shutdown: single-branch tests and broker calls.
- The returns window lookup: the last n defined values up to a date, with no state or recurrence to prove.
- The breach classifier and the hard-gate tolerances: threshold tests on figures modelled here.
