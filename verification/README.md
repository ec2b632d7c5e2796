# FlightNotify, modelled and proved in Dafny

FlightNotify watches flight fares. A Cloudflare Worker is woken by a cron trigger,
asks a metered provider for prices, stores what it finds in D1 tables and sends
Telegram messages. Invocations may overlap, be redelivered, or die at any `await`;
what keeps them honest is that every shared row changes only through one conditional
SQL statement or one atomic batch. This project models that Worker (and, where they
are to agree, the older Python port) and proves what those statements achieve over
whole runs.

`dafny verify dfyconfig.toml` checks everything.

## How it is laid out

Code that works by changing rows is a class whose methods are proved against a
specification function of the old state (`QuotaLedger`, `AlertQueue`, `Leases`, `Sweep`,
`BotUpdates`, `Series`, `ConfigVersions`, `Offers`, `Tick`, `Export`). What the
protocols achieve is stated over runs: lists of events, each one atomic statement of
some invocation, in any order (`QuotaRuns`, `AlertRuns`, and the second halves of
`Leases`, `Sweep` and `BotUpdates`). A crash is an invocation that gets no more events,
and an invocation may wake up long after its claim or lease was given away. What was
really done, calls made, messages accepted, commands run, is kept in the state beside
the rows, so that the counters and states stored in the rows can be held against it.
Where a method and a run model the same code, a lemma says that an invocation nobody
interferes with leaves what the method leaves. Contracts say in figures what has to come
out, beside the specification functions that the proofs work with.

- **Quota.** `QuotaLedger` holds the statements on the usage row and the hour buckets,
  `QuotaRuns` every interleaving of reservations, settlements and provider syncs.
- **Alerts.** `AlertQueue` holds the claim, send and complete statements, `AlertRuns`
  every interleaving of creators, retry sweeps and expiry sweeps.
- **Leases.** One row serves for the scheduler lease and for a tracker lock.
- **Bot.** `BotUpdates`: one Telegram update, however often it is delivered;
  `BotStores`: what makes its reply unique.
- **Windows.** `DateWindows` generates the date pairs, `BisectionOrder` orders them,
  `Sweep` works through them cycle by cycle on two levels, `SweepRuns` over many ticks.
- **Encoding.** `DecimalText`, `Canonical`, `CanonicalReader` (a reader for RFC 8259
  text), `CanonicalMeaning`, `Fingerprints` and `ConfigVersions`: what the hashed texts
  can tell apart.
- **Money and evaluation.** `Money`, `Evaluation`, `Series`, `Offers`.
- **Ticks.** `Tick`: budget, counters and releases when any call may throw.
- **Export.** `Export`: references between the rows that leave the old database;
  `Timestamps`: their times as text.
- `Prelude`, `Counting` and `Sorting` serve the others.

## Where the obvious claim is false

Each of these is kept as the code has it, with a run or a value that shows it and the
exact condition under which the claim does hold.

- A provider sync reads the usage row in one statement and writes it in a later one. A
  reservation between the two is lost (`QuotaRuns.LostUpdateOverspends`). From a state within
  the budget, where the provider reports no tighter limit, calls reserved after the write can
  pass the budget exactly when some were reserved past the written figure before it
  (`QuotaRuns.SyncWriteIsSafeExactly`). That none were is the premise of `BudgetHolds`; it
  holds when each sync is written right after it is read
  (`QuotaRuns.SyncsAtOnceAreUndisturbed`). The hourly limit needs no such premise.
- A changed series empties the tracker's row in the database, but the tracker already in
  memory keeps the ids of its observations. The first fare of the new series is then
  compared with the old one (`Series.StaleTrackerAnnouncesLow`), exactly when the old
  observation is still there (`Series.FirstCheckIsBaselineIff`). The properties of whole
  series start from the row in the database.
- A release is to give back what was not used, but it never goes below what the provider
  reports. When a sync finds calls reported that are still reserved, a later release is cut
  short (`QuotaRuns.ReportedCallsClampTheRelease`). It is exact in every continuation until
  the next sync exactly when all that may yet be given back lies above the report
  (`QuotaRuns.NeverClampedIff`).
- Two bot handlers can both get a reply accepted when one stores its reply over the other's
  (`BotUpdates.ConcurrentRecoveryRepliesTwice`). If no reply is stored over another, at most
  one is accepted, however handlers overlap (`BotStores.OneReplyIfStoredOnce`); handlers that
  do not overlap never do so (`BotStores.SerialStoresOnce`). After the first store that may be
  over a reply, two acceptances can follow without another such store exactly when fewer than
  three attempts were claimed and a reply was in play: accepted, being sent, or refused for
  now with the refusal not recorded yet (`BotStores.StoringAcceptsTwiceIff`;
  `BotStores.LateRefusalAcceptsTwice` is a run of the last kind). One command, at most, holds
  always.
- A provider call that outlives its lease can be overlapped (`Leases.OverrunOverlaps`),
  exactly when its deadline is over at the time the newcomer read (`Leases.OverlapStartsIff`).
- With nothing left to book, a crash between opening a cycle and recording its number
  leaves the numbers one apart (`Sweep.CrashedAdvanceRecovers`, both directions).
- The two date generators differ on open-ended windows with a minimum of no night
  (`DateWindows.PortsAgreeExactly`).
- The share stored beside a price is rounded by `Math.round`, the compared one away from
  zero; they differ exactly on negative prices halfway between two cents
  (`Evaluation.StoredShareAgreesIff`). Prices are never negative.
- The calls of a check that throws are not counted, and a tick can make more calls than its
  budget allows (`Tick.LostCallsExceedTheBudget`). Ticks in which n trackers are due at most
  are sure not to exactly when n is at most one or the budget allows no search
  (`Tick.StaysWithinIff`). Calls made and calls counted are equal exactly when no check that
  threw had made one; otherwise they differ by one budget at most for each check that threw
  (`Tick.TickHolds`).

## Premises

- An unambiguous error from Telegram means that the message was not accepted; after a
  timeout or a malformed answer it may have been.
- The provider makes no more HTTP attempts in a search than it reports as its maximum.
  "Settled" is the count a reservation was settled with.
- Owner names are unique and the clock does not run backwards; times captured earlier may
  be stale by any amount.
- The keys of an object are distinct, as in JavaScript.
- Every amount that arithmetic is done on has been checked to be a safe integer, and on
  those the program's floating-point operations, including `Math.floor` of a quotient, are
  exact; they are integer operations here.
- JavaScript writes different finite numbers differently, so a number in canonical text is
  the text it is written as.
- During a series the price scope, the threshold basis and the party stay as they are;
  threshold, alert switches and minimum drops may change at every check.

## Model

| member | source | states |
|---|---|---|
| `QuotaLedger.Repo.UsageRow` | worker/src/db/repo.ts:806-826 | Makes the period's row if it is missing, and returns it; no other row changes. |
| `QuotaLedger.Repo.ReserveMonthlyCalls` | worker/src/db/repo.ts:844-863 | Succeeds exactly when effective usage plus the request fits the limit and what the provider says is left; only then does the row count them. |
| `QuotaLedger.Repo.ReleaseMonthlyCalls` | worker/src/db/repo.ts:865-877 | Gives capacity back, never below what the provider reported. |
| `QuotaLedger.Repo.ReserveHourlyCalls` | worker/src/db/repo.ts:880-896 | Succeeds exactly when the hour's bucket stays within the limit. |
| `QuotaLedger.Repo.ReleaseHourlyCalls` | worker/src/db/repo.ts:898-910 | Gives hourly capacity back, never below zero. |
| `QuotaLedger.QuotaManager.ReserveCalls` | worker/src/services/quota.ts:132-196 | Grants all of a request or nothing, and refuses exactly where the budget, the reserve, one of the provider's known monthly, remaining and hourly figures, or the hourly limit would be passed; a grant leaves row and hour within each of them, a refusal no more used than before. |
| `QuotaLedger.QuotaManager.FinalizeReservation` | worker/src/services/quota.ts:199-213 | Returns the unused part of a reservation to month and hour, with the reported count clamped to what was reserved. |
| `QuotaLedger.QuotaManager.SyncFromProvider` | worker/src/services/quota.ts:294-330 | Uninterrupted, the counter ends at the larger of its own and the provider's figure and the report is stored; a failed sync changes no figure. |
| `QuotaRuns.LedgerFollowsCharge` | worker/src/services/quota.ts:132-213 | Each statement of a reservation moves the stored counter at least as far as what its invocation owes. |
| `QuotaRuns.BudgetHolds` | worker/src/services/quota.ts:132-213 | In every interleaving with crashes and syncs no reservation disturbs: what the period had counted before plus the calls settled or outstanding stays within the stored counter, and within the budget unless that was passed before; with automated calls, within budget minus reserve. |
| `QuotaRuns.SyncsAtOnceAreUndisturbed` | worker/src/services/quota.ts:294-330 | Syncs written right after they are read disturb no reservation, so the budget holds in all such runs. |
| `QuotaRuns.CallsStayWithinLeft` | worker/src/db/repo.ts:844-863 | Until the next sync, in every interleaving and crash, what was counted before plus the calls of the run stays within the counter, and the counter within what the provider says is left, unless more was counted or reported at the start. |
| `QuotaRuns.InvocationAloneAccounts` | worker/src/services/quota.ts:132-213 | An invocation nobody interferes with is granted exactly within the known figures, and leaves exactly the calls the provider reported, at most its request, counted in month and hour, or nothing if refused. |
| `QuotaRuns.HourlyLimitHolds` | worker/src/db/repo.ts:880-910 | In every interleaving each hour bucket bounds what is settled or outstanding under it and stays within the limit; any rolling hour stays within twice the limit. |
| `QuotaRuns.UsageIsConserved` | worker/src/db/repo.ts:844-877 | From any state in which all that may yet be given back lies above what the provider reports, until the next sync, effective usage and the calls settled or outstanding move together, and there stays such room. |
| `QuotaRuns.ReleaseIsExact` | worker/src/db/repo.ts:865-877 | In such a state the clamp in the release statement cuts no release short. |
| `QuotaRuns.NeverClampedIff` | worker/src/db/repo.ts:844-877 | No release is cut short in any continuation before the next sync if and only if all that may yet be given back lies above what the provider reports. |
| `QuotaRuns.ReportedCallsClampTheRelease` | worker/src/db/repo.ts:865-877 | A concrete run in which a sync reports calls still reserved, and two unused ones are then not given back. |
| `QuotaRuns.FreshHasRoom` | worker/src/db/repo.ts:806-826 | With nobody in flight there is room, whatever the ledger and the provider say. |
| `QuotaRuns.SyncWriteIsSafeExactly` | worker/src/services/quota.ts:294-330 | From a state within the budget and with no tighter limit reported: reservations after a sync's write and before the next sync can take the calls past the budget if and only if something was reserved past the written figure since the sync read. |
| `QuotaRuns.LostUpdateOverspends` | worker/src/services/quota.ts:294-330 | A concrete run: a sync that straddles a reservation lets a budget of one be spent twice. |
| `AlertQueue.Repo.InsertAlertEvent` | worker/src/db/repo.ts:618-633 | Inserts and claims in one statement; true exactly for the caller whose key was new. |
| `AlertQueue.Repo.ClaimAlert` | worker/src/db/repo.ts:663-690 | Claims exactly the rows that are pending or due for a safe retry, within three attempts. |
| `AlertQueue.Repo.ClaimPendingAlerts` | worker/src/db/repo.ts:696-736 | Claims the first claimable rows, each once, until the batch is full or none is left, and touches nothing else. |
| `AlertQueue.Repo.CompleteAlertClaim` | worker/src/db/repo.ts:739-761 | Writes only while the row is still claimed by the caller. |
| `AlertQueue.Repo.MarkExpiredAlertClaimsUncertain` | worker/src/db/repo.ts:767-785 | Turns every expired claim, and nothing else, into `uncertain`. |
| `AlertQueue.AlertService.DeliverClaimed` | worker/src/services/alerts.ts:268-340 | While the claim is held the row records the answer: accepted, uncertain and final refusals are never claimable again; a retryable refusal before the third attempt is claimable from its due time on, as long ahead as Telegram asks for or 30 seconds doubled by attempt, at most an hour. An accepted send whose claim was lost is reported uncertain. |
| `AlertQueue.AlertService.HandleOne` | worker/src/services/alerts.ts:125-266 | A known key changes nothing; a new one records the answer to its one send as above, or is suppressed for good in the state its reason calls for. |
| `AlertQueue.AlertService.DeliverAll` | worker/src/services/alerts.ts:393-401 | Every claimed row records the answer to its own send, and those counted as delivered are those accepted. |
| `AlertQueue.AlertService.RetryPending` | worker/src/services/alerts.ts:380-402 | Every row tried was free (pending, or refused with leave and due), is sent once more and records the answer; expired claims become uncertain, all else stays; no free row is passed over while the batch has room; without a chat nothing is tried. |
| `AlertQueue.DelayDoubles` | worker/src/services/alerts.ts:315-319 | The wait begins at 30 seconds, doubles with each attempt up to an hour, and is longer where Telegram asks for more. |
| `AlertRuns.AtMostOneMessage` | worker/src/services/alerts.ts:189-340 | Under any interleaving of creators, retry and expiry sweeps, crashes and late senders: at most one accepted message a key, and at most three sends with the attempts made before the run, none if three or more were made before. |
| `AlertRuns.StoredStateIsTrue` | worker/src/db/repo.ts:739-785 | `sent` rows were accepted exactly once, `failed` rows never, suppressed rows were never sent, in every reachable state. |
| `AlertRuns.CreatedAlone` | worker/src/services/alerts.ts:189-340 | A new finding nobody interferes with is sent once, and its row records the answer; no other row changes. |
| `AlertRuns.RetriedAlone` | worker/src/services/alerts.ts:380-402 | A row that is free is taken, sent once more and records that answer. |
| `BisectionOrder.BisectionOrder` | worker/src/domain/dates.ts:76-89 | Returns a permutation of 0..n-1 that is fair in the sense below, and terminates. |
| `BisectionOrder.RunIsPermutation` | flightnotify/domain/dates.py:28-53 | Whatever the queue does in between, a finished run has visited every index once. |
| `BisectionOrder.RunIsFair` | worker/src/domain/dates.ts:65-89 | After the first 2^k - 1 visits, or all, every run of unvisited neighbours is at most floor(n / 2^k) long. |
| `BisectionOrder.RunsAgree` | flightnotify/domain/dates.py:28-53 | The order is a function of n: any two runs of the loop agree turn by turn, as the ports must. |
| `BisectionOrder.OrderedPairs` | worker/src/domain/dates.ts:196-198 | The queue holds every pair once, at its place in the fair order. |
| `DateWindows.GeneratePairs` | worker/src/domain/dates.ts:109-193 | Returns exactly the wanted trips in strict order, and fails on the first of the inconsistent arguments, each with its own condition, on too many trips or on none; both ports. |
| `DateWindows.WantedIs` | worker/src/domain/dates.ts:147-170 | A trip is wanted exactly if it leaves within the window and not in the past, stays a night at least and within each limit set, and returns within the return window; where neither that nor a maximum is set, it stays exactly the minimum (the Worker: clamped to one night). |
| `DateWindows.TripsAreUnique` | worker/src/domain/dates.ts:109-193 | Two strictly sorted lists of all wanted trips are the same list, so the result is determined by the window alone. |
| `DateWindows.SortingChangesNothing` | worker/src/domain/dates.ts:189-193 | The final sort returns its argument. |
| `DateWindows.PortsAgreeExactly` | flightnotify/domain/dates.py:102-117 | Both ports want the same trips if and only if the window is not open-ended with a minimum of no night. |
| `DateWindows.OpenEndedWindowsDiffer` | worker/src/domain/dates.ts:155-160 | In that case the Worker offers exactly the one-night trips and Python none. |
| `Leases.LeaseRow.Acquire` | worker/src/db/repo.ts:1183-1204 | Succeeds exactly on a free or expired row, and then owns it until now plus the lifetime. |
| `Leases.LeaseRow.Renew` | worker/src/db/repo.ts:1218-1234 | Succeeds exactly for the owner inside its lifetime. |
| `Leases.LeaseRow.Release` | worker/src/db/repo.ts:208-217 | Clears the row only for its owner. |
| `Leases.HeartbeatKeepsIff` | worker/src/db/repo.ts:1218-1234 | A heartbeat keeps the lease exactly for the owner on record before the deadline on record, and moves the deadline on. |
| `Leases.LiveOwnerRenews` | worker/src/db/repo.ts:1218-1234 | In every run an owner inside its deadline that asks does keep its lease. |
| `Leases.TurnLeavesNothing` | worker/src/scheduled.ts:169-222 | A newcomer that takes a free row, calls, ends its call and releases it leaves a free row and nothing else; it does not release while it calls. |
| `Leases.OneLiveLease` | worker/src/db/repo.ts:188-242 | With a monotone clock and however stale captured times, at most one owner is inside its deadline. |
| `Leases.OverlapNeedsOverrun` | worker/src/scheduled.ts:165-222 | Two ticks call the provider for one row at once only if one has outlived the deadline of its last heartbeat. |
| `Leases.OverlapStartsIff` | worker/src/db/repo.ts:1183-1204 | While an owner calls under the deadline on record, a newcomer gets to call beside it if and only if that deadline is over at the time it read. |
| `Leases.OverrunOverlaps` | worker/src/services/search.ts:246-251 | A concrete run in which a call past its deadline is overlapped, so the premise is needed. |
| `Sweep.LevelsAlwaysAgree` | worker/src/db/repo.ts:1511-1568 | After any statements in any order, every market row carries its parent's cycle and a parent is pending exactly when a child is. |
| `Sweep.ParentsAlwaysTell` | worker/src/db/repo.ts:1526-1568 | After any statements in any order a candidate with markets is pending while one of them is, else checked as soon as one is checked, and failed only if all failed. |
| `Sweep.LateMarkChangesNothing` | worker/src/db/repo.ts:1511-1568 | A mark from another cycle changes no row. |
| `Sweep.LowestIsLowest` | worker/src/db/repo.ts:1511-1568 | The parent's fare is the lowest a checked market of its cycle found. |
| `Sweep.MarkTakesOne` | worker/src/db/repo.ts:1511-1568 | An executed unit lowers the pending work by exactly one, any other mark by none. |
| `Sweep.ClaimTakesTheFront` | worker/src/db/repo.ts:1425-1439 | A claimable candidate is claimed unless the whole batch stands before it. |
| `Sweep.PlannedOk` | worker/src/services/search.ts:396-418 | A plan keeps both levels in agreement, leaves no past departure pending, and has work if and only if some departure is bookable. |
| `Sweep.CyclesFinish` | worker/src/db/repo.ts:1571-1592 | The cycle moves on by one, and only when no market row of the old one is pending. |
| `Sweep.Sweeper.Mark` | worker/src/db/repo.ts:1511-1568 | In a candidate of its cycle the row named gets the finding, checked with its fare or failed without one; the candidate tells of its markets and has their lowest checked fare; exactly the work named leaves the queue; nothing else changes. |
| `Sweep.Sweeper.ClaimWork` | worker/src/services/search.ts:406-418 | Each market that had no row gets one, past pending rows are retired, and where a new cycle is opened everything bookable is pending in it; all other rows, fares and days stay. The claim is the front of the queue. |
| `Sweep.Sweeper.PlanUnits` | worker/src/services/search.ts:396-451 | Work comes out if and only if some departure is bookable: all and only pending rows of the claimed candidates, at most the configured number, in the current cycle, none twice. |
| `SweepRuns.CycleCloses` | worker/src/services/search.ts:396-451 | However ticks are clamped or cut off, within one cycle they execute no more units than were pending at its start. |
| `SweepRuns.CycleEnds` | worker/src/services/search.ts:396-451 | While departures are bookable and each tick executes at least one unit, one of the first pending-plus-one ticks opens the next cycle. |
| `SweepRuns.NobodyWaitsLonger` | worker/src/db/repo.ts:1425-1439 | A due candidate that no plan has claimed has waited for no more units than were pending before it. |
| `SweepRuns.PlanHasAll` | worker/src/db/repo.ts:1351-1369 | Any plan leaves a row for every market, so both bounds hold from the first plan on. |
| `Sweep.CollectUnits` | worker/src/db/repo.ts:1371-1386 | A non-empty claim yields work, and every pending row of it. |
| `Sweep.CrashedAdvanceRecovers` | worker/src/services/search.ts:408-418 | Dying between the batch that opens a cycle and the write of its number, then planning again on any later day, ends as if nothing had happened if and only if some departure is still bookable. |
| `BotUpdates.TelegramBot.ClaimTelegramUpdate` | worker/src/db/repo.ts:1090-1111 | Exactly one caller creates the row; all read it back. |
| `BotUpdates.TelegramBot.ClaimTelegramReplyDelivery` | worker/src/db/repo.ts:1142-1161 | Claims an attempt exactly when the stored reply is ready and the attempt number still expected. |
| `BotUpdates.TelegramBot.Deliver` | worker/src/services/bot.ts:260-332 | Sends exactly when the attempt can still be claimed, and stores the phase its answer calls for; a row that moved on stays as it is and decides the answer to the webhook. |
| `BotUpdates.TelegramBot.HandleUpdate` | worker/src/services/bot.ts:104-190 | A new update of the right chat is dispatched and answered with the command's own reply, one of a stranger ignored; an abandoned one without a reply gets the notice instead, one with a reply fails unsent; a stored reply is sent while fewer than three attempts were made; anything else stays. Redelivery is asked for exactly while the row is not final. |
| `BotUpdates.DispatchedAtMostOnce` | worker/src/services/bot.ts:104-258 | Under any redelivery, concurrency and crash a command runs at most once, and never without authority. |
| `BotUpdates.HandlerAloneHandles` | worker/src/services/bot.ts:104-332 | From any state, a handler nobody interferes with ends with the row `HandleUpdate` leaves, and runs the command exactly for a new and authorised update. |
| `BotUpdates.RepliesFollowTheCommand` | worker/src/services/bot.ts:192-258 | Under any overlap and crash the command's own reply is stored, sent or answered only if the command was authorised and ran. |
| `BotUpdates.SerialRepliesOnce` | worker/src/services/bot.ts:104-332 | With one handler at a time, each free to die anywhere: at most one accepted reply, at most three sends, and what is being sent is stored. |
| `BotUpdates.ConcurrentRecoveryRepliesTwice` | worker/src/services/bot.ts:182-188 | A concrete run of overlapping handlers, one of which stores its reply over another's, in which two replies are accepted. |
| `BotStores.OneReplyIfStoredOnce` | worker/src/services/bot.ts:104-332 | Under any overlap and crash, if no reply is stored over another, at most one is accepted and at most three are sent, and what is about to be sent is what the row holds. |
| `BotStores.SerialStoresOnce` | worker/src/services/bot.ts:134-258 | Handlers that come one at a time never store over another's reply. |
| `BotStores.StoringAcceptsTwiceIff` | worker/src/services/bot.ts:182-332 | After a run of single stores a reply is stored: some continuation without a further store over a reply gets two accepted if and only if a reply was accepted, being sent or refused for now and not recorded, and fewer than three attempts were claimed. |
| `BotStores.LateRefusalAcceptsTwice` | worker/src/services/bot.ts:312-325 | A concrete run in which nothing was accepted or in flight when the reply was stored over, and a refusal recorded late lets two newcomers be accepted. |
| `DecimalText.IntTextsDiffer` | worker/src/domain/canonical.ts:82-85 | Different whole numbers have different texts. |
| `Canonical.CompareCodePoints` | worker/src/domain/canonical.ts:39-49 | The sign of the result is the dictionary order of the code points, and zero means the same string. |
| `Canonical.SameCodePoints` | worker/src/domain/canonical.ts:39-49 | Strings with the same code points are the same, lone surrogates included. |
| `Canonical.KeyBeforeIsTotal` | worker/src/domain/canonical.ts:39-49 | The order of keys is total and strict. |
| `Canonical.EncodeString` | worker/src/domain/canonical.ts:60-80 | The loop produces each code unit's escape in turn between quotes. |
| `Canonical.EscapeIs` | worker/src/domain/canonical.ts:51-80 | Every code unit's escape: the five short ones, quote and backslash, printable ASCII as it is, four lower-case hex digits otherwise. |
| `CanonicalReader.EscapedReads` | worker/src/domain/canonical.ts:60-80 | A reader after RFC 8259 section 7 recovers every string from its escapes. |
| `CanonicalReader.EncodeReads` | worker/src/domain/canonical.ts:93-111 | A reader recovers from the text of any value exactly its normal form, whatever non-digit follows. |
| `CanonicalMeaning.EncodeSucceedsIff` | worker/src/domain/canonical.ts:82-111 | Encoding fails if and only if a number anywhere is not finite. |
| `CanonicalMeaning.UniquelyReadable` | worker/src/domain/canonical.ts:93-116 | The whole text is read back as the value with null entries dropped and keys in order, with nothing left over. |
| `CanonicalMeaning.EncodeOfNormal` | worker/src/domain/canonical.ts:93-111 | Encoding a value and encoding its normal form give one text. |
| `CanonicalMeaning.EncodesEquallyIff` | worker/src/domain/canonical.ts:93-116 | Two values have the same text if and only if they have the same normal form. |
| `CanonicalMeaning.ObjectsEncodeEquallyIff` | worker/src/domain/canonical.ts:104-110 | Two objects have the same text if and only if they answer every key alike: neither insertion order nor null entries matter. |
| `CanonicalMeaning.EncodeIsPrintable` | worker/src/domain/canonical.ts:60-111 | All output is in 0x20..0x7e. |
| `Fingerprints.SameKeysAgree` | worker/src/domain/fingerprints.ts:26-28 | Objects with the same keys hash the same text if and only if their values have the same normal forms. |
| `Fingerprints.AlertHashInputsDiffer` | worker/src/domain/fingerprints.ts:102-114 | The text hashed into an alert key is equal for two findings if and only if all nine arguments are. |
| `Fingerprints.QueryHashInput` | worker/src/domain/fingerprints.ts:34-43 | The loop hashes the endpoint and the parameters without the excluded ones. |
| `Fingerprints.QueryHashInputsDiffer` | worker/src/domain/fingerprints.ts:31-43 | Two queries share a key if and only if the endpoint and every parameter but the API key and the two output switches agree. |
| `ConfigVersions.ComparisonPayload` | worker/src/services/tracker.ts:76-83 | The loop collects every comparison field and the sorted markets. |
| `ConfigVersions.SeriesKeysIff` | worker/src/services/tracker.ts:76-87 | Two trackers share a series if and only if every comparison field and the bag of markets agree. |
| `ConfigVersions.TrackerService.EnsureConfigVersion` | worker/src/services/tracker.ts:105-162 | A new version is made if and only if the key differs from the latest; numbers count up, neighbours differ, the row is emptied, and the tracker in memory keeps its observation ids. |
| `Money.DivideHalfUpIsNearest` | worker/src/domain/money.ts:31-42 | Fails only on an unsafe numerator or a zero denominator, and otherwise gives the nearest integer, ties away from zero. |
| `Money.NearestIsUnique` | worker/src/domain/money.ts:31-42 | Only one integer is nearest in that sense. |
| `Money.ShareOfTotal` | worker/src/domain/money.ts:44-51 | The share of a total made of shares is that share. |
| `Money.TotalOfShare` | worker/src/domain/money.ts:44-51 | A total rebuilt from a share is off by at most half a cent a seat. |
| `Money.SharesKeepOrder` | worker/src/domain/money.ts:44-46 | Shares keep the order of the totals. |
| `Money.DropPercentIsAPercentage` | worker/src/domain/money.ts:60-63 | A drop within the price is between 0 and 10000 hundredths of a percent, with both ends exact. |
| `Money.CentsRoundTrip` | worker/src/domain/money.ts:74-142 | Every safe number of cents is read back from its decimal text. |
| `Money.DecimalsDiffer` | worker/src/domain/money.ts:74-90 | No two amounts share a decimal text. |
| `Money.CentsAreNearest` | worker/src/domain/money.ts:127-142 | However many places an amount is written with, it is read as the nearest cent, ties away from zero. |
| `Evaluation.ComparableKeepsOrder` | worker/src/domain/evaluation.ts:88-96 | A cheaper price never compares dearer, on any scope and basis. |
| `Evaluation.ComparableIs` | worker/src/domain/evaluation.ts:60-96 | What a price compares as on each scope and basis (itself, the nearest share, the total of the seats), and exactly when the arithmetic is not safe. |
| `Evaluation.DecideThreshold` | worker/src/domain/evaluation.ts:213-249 | When the threshold alert goes out, and the reason given. |
| `Evaluation.DecideNewLow` | worker/src/domain/evaluation.ts:252-283 | When the new-low alert goes out, and the reason given. |
| `Evaluation.Evaluate` | worker/src/domain/evaluation.ts:155-297 | Throws exactly when the comparison or the drop is not safe; otherwise every field and both decisions with their reasons follow from the price, the rules and the state, each of the two minimum drops alone holding an alert back. |
| `Evaluation.StoredShareAgreesIff` | worker/src/services/search.ts:1002-1029 | The stored share, rounded by Math.round, equals the compared one if and only if the price is not negative or not halfway. |
| `Evaluation.StoredColumnsAgree` | worker/src/services/search.ts:1176-1203 | For real prices the stored columns are the compared amounts. |
| `Series.SearchService.Finalize` | worker/src/services/search.ts:807-873 | Evaluates the best observation against the tracker as read and writes latest, low and threshold state; on a missing observation or unsafe arithmetic the row stays. |
| `Series.LowIsMinimum` | worker/src/services/search.ts:857-873 | After any series of checks the stored low is the minimum of all earlier ones, with its observation, and the latest is the last. |
| `Series.StateIsHistory` | worker/src/services/search.ts:813-856 | What an evaluation is given is what the full history says. |
| `Series.NewLowIsBelowAll` | worker/src/domain/evaluation.ts:176-179 | A check is a new low if and only if it is not the first and is strictly below every earlier one. |
| `Series.NewLowAlertIff` | worker/src/domain/evaluation.ts:252-283 | When a new-low alert goes out, in terms of the history alone. |
| `Series.NewLowAlertsDecrease` | worker/src/domain/evaluation.ts:252-283 | A new-low alert is strictly below every earlier check, so alerts fall from one to the next. |
| `Series.ThresholdAlertIff` | worker/src/domain/evaluation.ts:213-249 | When a threshold alert goes out, in terms of the history alone: first check, or the check before was above its threshold, or a new low, with a large enough drop. |
| `Series.FirstCheckIsBaselineIff` | worker/src/services/tracker.ts:149-160 | With the tracker in memory, the first check of a new series has a baseline if and only if the old latest observation is still found; read again from the database it never has. |
| `Series.StaleTrackerAnnouncesLow` | worker/src/services/tracker.ts:149-160 | A concrete case in which the first fare of a new series is announced as a new low against the old one. |
| `Offers.ChooseRows` | worker/src/services/search.ts:629-665 | At most 25 rows in price order, nothing cheaper left out but for the best, one best row if and only if an offer is eligible, and it is the cheapest eligible one. |
| `Offers.RowsStoreWell` | worker/src/services/search.ts:629-665 | The same for every sorted arrangement of the offers. |
| `Offers.BestGoesLast` | worker/src/services/search.ts:655-664 | When the best replaces the last kept offer the list is still in order, so the second sort changes nothing. |
| `Offers.Check.PersistOffers` | worker/src/services/search.ts:621-764 | Appends the rows of one unit and keeps the best price the cheapest eligible seen, with its row; an equal price does not replace it. |
| `Offers.ExecuteUnits` | worker/src/services/search.ts:246-270 | Whatever the units answer, the check ends with the cheapest eligible offer of all of them. |
| `Tick.RunTracker` | worker/src/services/search.ts:223-270 | The calls made are those of the units the budget allows up to the first at which it stops; it throws exactly if such a unit or the settling does, and work remains exactly if a unit was left or not allowed. |
| `Tick.CheckWithinBudget` | worker/src/services/search.ts:223-270 | A check makes no more calls than its budget times the attempts of a search, and reports all of them if it reports. |
| `Tick.NothingRemainsIff` | worker/src/services/search.ts:221-270 | A check reports no work remaining if and only if its budget allowed every unit and every one was executed. |
| `Tick.Scheduler.CheckTracker` | worker/src/scheduled.ts:169-222 | A tracker locked elsewhere leaves no trace; any other gets one check within the budget left, counted once, between taking its lock and trying to release it; only the lock and the release can throw. |
| `Tick.Scheduler.CheckTrackers` | worker/src/scheduled.ts:169-223 | The trackers whose lock is to be had are checked in order, one check each, until all are done, the budget is spent, or a lock or release throws. |
| `Tick.Scheduler.RunScheduledTick` | worker/src/scheduled.ts:84-344 | That loop, and the report in terms of the answers: an error if and only if something threw outside a check, no work if and only if nothing was due, complete if and only if nothing is due any more, every check finished and budget is left, else partial; with the log of all locks and the lease release tried last. |
| `Tick.TickHolds` | worker/src/scheduled.ts:165-225 | Every lock is handed back at once and every locked tracker counted once; counted calls stay within budget times attempts; calls made exceed them by as much at most for each check that threw, and not at all if and only if no check that threw had made a call. |
| `Tick.CompleteMeansDone` | worker/src/scheduled.ts:225-237 | A tick reports itself complete only with nothing due, no check thrown, every locked tracker finished and every call counted. |
| `Tick.LostCallsExceedTheBudget` | worker/src/scheduled.ts:205-222 | A concrete tick of two trackers with a budget of one search of one attempt that makes two calls and counts none. |
| `Tick.StaysWithinIff` | worker/src/scheduled.ts:165-222 | All ticks with at most n distinct trackers due stay within budget times attempts if and only if n is at most one or the budget is zero. |
| `Tick.TimesIsProduct` | worker/src/scheduled.ts:165-206 | The bound is the product of the tick's budget and the attempts of a search. |
| `Export.EnforcedPointsBack` | flightnotify/d1_export.py:159-431 | Every enforced reference points to a table written earlier. |
| `Export.ExportResult.ResolveReferences` | flightnotify/d1_export.py:746-778 | Fails if and only if a required enforced reference dangles, and otherwise clears every dangling reference and nothing else. |
| `Export.RepairedIsConsistent` | flightnotify/d1_export.py:746-778 | After that every reference names an exported row. |
| `Export.Collect` | flightnotify/d1_export.py:702-743 | Table by table: exactly the rows of no excluded tracker and no excluded setting remain, in order; it fails if and only if one of them does not convert, or else needs a row that does not remain; otherwise each is exported with its loose references emptied. |
| `Timestamps.LayoutInOrder` | flightnotify/d1_export.py:477-496 | Texts of fixed-width decimal fields compare as their values do, an earlier field deciding. |
| `Timestamps.WrittenIsSource` | flightnotify/d1_export.py:477-496 | Every text of six numbers with their separators, up to six digits after a point and a final Z or not is a timestamp, and is exported to the millisecond, cut off. |
| `Timestamps.SourceIsWritten` | flightnotify/d1_export.py:53-55 | Every timestamp is such a text, so nothing else is exported. |
| `Timestamps.TextsInOrder` | flightnotify/d1_export.py:477-496 | Exported timestamps compare as text in the order of the milliseconds they name, and are equal if and only if those are. |
| `Timestamps.ExportKeepsOrder` | flightnotify/d1_export.py:477-496 | An earlier instant is exported as an earlier text, or as the same one within a millisecond. |
| `Timestamps.ExportIsStable` | flightnotify/d1_export.py:477-496 | The exported text always has the target's form, and is exported as it is. |

## Left out

- HTTP, the provider's payloads and its retry sleeps: a call is an outcome with a number of attempts.
- The text of Telegram messages, command parsing and what each command does: a send is accepted, refused or ambiguous, a command is one step.
- SHA-256: keys count as equal when the hashed texts are equal.
- Calendars, time zones and date text: dates are day numbers, instants are milliseconds; the validity check of date strings is not modelled. In exported timestamps digits are the ASCII ones, and the white space around them is already gone.
- How JavaScript writes a number that is not whole, and keys that it treats specially.
- `QuotaManager.snapshot` and `authorize`: estimates read before the reservation, which alone decides; `recordCalls` has no caller.
- The log of provider calls, and the pruning of logs, caches, hour buckets and old Telegram updates: an update is followed while its row is retained.
- AlertQueue.Repo.ClaimPendingAlerts: in the runs of `AlertRuns` a batch claim is a series of single claims, which allows more interleavings than the one statement does.
- Minimum spacing between alerts: the cooldown is checked when a finding is recorded and not again by the retry sweep, so none is claimed.
- QuotaRuns.BudgetHolds: the provider's reported attempt count may be lower than what it made on one error path, so the bound is on settled, not on billed, calls.
- Creating the missing usage row and reading it back are one step in the runs; so are the insert of a Telegram update and its reading back.
- Sweep: check counts, last-run ids and timestamps of candidates, and the repair of a queue whose definitions changed.
- ConfigVersions.TrackerService.EnsureConfigVersion: takes the fingerprint as its argument (`SeriesKeysIff` says what it tells apart), and leaves out the change reasons and the candidate queue.
- Series.SearchService.Finalize: the failure counters, parking, the approach notice and the scheduling of the next run.
- Offers: which offers are eligible (currency and stops) is given with the offer.
- Tick.RunTracker: quota refusals, cache misses and planning errors all count as units not executed; the digest and the housekeeping of a tick, whose errors are swallowed, are not modelled.
- Tracker deletion and its cascade, web routes, forms, sessions, charts, the CLI and logging.
- Export: columns other than keys and references (whether a row's values convert is given with the row), how values other than times are converted, and the rendering of SQL.
- The Python quota, search, scheduler and alert services: the Worker carries the harder protocols.
