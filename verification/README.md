# What this workstation promises, proved

A Dafny model of the parts of the workstation that carry state across time, and proofs of what
they promise over every input, every run or every reachable state. `dafny verify dfyconfig.toml`
checks all of it.

| what | where | the main results |
|---|---|---|
| The live screen | `LiveTimeline`, `LiveClient`, `LiveServer`, `LiveQueue`, `LiveDelivery`, `LiveSteps`, `LiveProtocol`, `LiveAnswers`, `LiveReach`, `LiveEndings`, `LiveScreen` | the timeline shown is the newest 500 of everything ever merged; nothing a stream mentioned is skipped in silence; from the server's log to the browser, across streams and resynchronisations within a page, what is shown has no hole, and exactly which streams are sent without one; in every interleaving at most one stream is open, for the session shown; what every answer, message and failure leaves on the screen, field by field |
| Rounding for display | `DisplayDecimals` | the digits returned denote exactly the input rounded half away from zero; idempotent and order-preserving; which text every value and unit is shown as |
| The backtest run store | `BacktestTables`, `BacktestResults`, `BacktestReads`, `BacktestStore` | all or nothing; a result and a failure read back as they were published and recorded; exactly when what has ended stays as it ended, and what is refused |
| The ledger fold and the paper engine | `PaperEvents`, `PaperLedger`, `PaperSource`, `PaperEngine`, `PaperReplay`, `PaperPrices`, `PaperFills`, `PaperInputs` | the fold is one pass; both sources agree; for every run of the engine the ledger replays to the same position and the fold reads the engine's state and money off it; every fill a bar calls for happens, at the stated price, and no other; the stop in force, what is pending and what is refused can be read off the ledger, and a ledger rebuilds exactly if the engine could have written it |
| The historical stream | `MockStream` | every candle once, in order, with no look-ahead, stamped with the end of its interval, one spacing of the clock apart |
| The request size limit | `Limits` | never more than the limit is heard; transparent below it; how often, and on top of what, it answers 413 |
| Notes under a version check | `JournalStore` | versions run 1, 2, 3, ...; no version is replaced twice |
| The shadow journal's pager | `ShadowJournal` | what is held is always a prefix of at most 500; loading terminates while it grows, and after how many pages |
| The synthetic market | `SyntheticProvider` | any window is a slice of any wider one; candles enclose; the wave is bounded, and rides on the trend; exactly which bars have no body |

`Sorting` holds what all of them need of stable sorting, selecting, mapping and unique keys;
`Wrappers` the option and result types.

The objects of the system keep their form: the screen, a reader's queue, the two stores, the clock,
a subscription and the limiter (`LiveScreen`, `Subscriber`, `Store`, `ManualClock`, `Subscription`,
`Limiter`) are classes whose methods say what they leave behind as a function of what they found.
The lemmas study those functions. Where several parties act - a person, timers, answers, messages,
writers - they are the steps of a state machine, and the results hold for every sequence of steps.

## What turned out otherwise than documented

The model follows the code. Where a promise fails, one lemma says exactly when it holds and another
shows an input for which it does not.

- A resynchronisation reads one page of 100 entries, yet moves the cursor to the snapshot's. After
  more than 100 missed entries the timeline has a hole that `timelineGap` does not report
  (`LiveServer.ResyncLeavesNoHoleIff`, `LiveServer.FarBehindLeavesAHole`).
- Cancelling and analysing take in a snapshot without a page: the entry they append is lost if
  their answer overtakes the stream (`LiveServer.SnapshotAloneLeavesNoHoleIff`,
  `LiveServer.AnalysisAnswerFirstLosesItsEntry`).
- A `STATE` or an `END` moves the cursor as well, and brings no entry
  (`LiveServer.CursorMessageLeavesNoHoleIff`, `LiveClient.AppliedIsCompleteIff`,
  `LiveClient.StateHidesSkippedEntries`). It hides something only if messages were lost or changed
  places on the way: along an ordered stream neither ever stands further on than a client that is
  still reading (`LiveDelivery.EveryRunIsHonest`).
- A new reader is said to be primed so that it cannot miss anything unsaid. It is registered and
  the session evaluated first: what that finds is queued ahead of the entries the reader missed, so
  that along a stream that loses nothing the client finds a gap and starts over, or, if there is
  much of both, the queue overflows before it is read (`LiveDelivery.FindsNoHoleIff`,
  `LiveDelivery.EvaluationGoesFirst`, `LiveQueue.SubscriptionOverflowsIff`,
  `LiveDelivery.EvaluationOverflows`).
- A failed attempt to open another session leaves the old one on the screen, looking live, with no
  stream behind it (`LiveProtocol.EveryRunIsAttended`, `LiveProtocol.FailedOpeningStrands`).
- Unmounting aborts the read under way. A resynchronisation takes that for a failure and tries
  again, on a screen that is gone; an opening does not (`LiveEndings.UnmountIsFinalIff`,
  `LiveEndings.AbortedResyncComesBack`).
- The documentation of publishing says that the first terminal transition wins; a FAILED run can
  nevertheless be failed again with another reason (`BacktestResults.FirstEndingWinsIff`,
  `BacktestResults.SecondReasonReplacesTheFirst`). And every integrity violation while creating a
  run is reported as a duplicate (`BacktestResults.CreateRefusedIff`).
- The outcome of a position that has not closed counts its exits' fees but not the fee for
  entering, which the engine has charged (`PaperReplay.FeesAgreeIff`,
  `PaperReplay.EntryFeeIsLeftOut`).
- A stop is said to fill at the open that gapped through it, never at a price the market skipped.
  On a bar that opens beyond the stop but enters by its slippage, it fills at the stop price
  (`PaperPrices.StopTakesTheFirstPriceIff`, `PaperPrices.GapIsSkipped`).
- A 413 sent after the application began its response is a second response start
  (`Limits.SecondStartIff`, `Limits.EarlyAnswerIsStartedTwice`), and an application with two
  receives under way can be answered twice (`Limits.OneRefusalIff`,
  `Limits.TwoWaitingReceivesAreAnsweredTwice`).
- A synthetic bar is said never to be a doji; with the default cycle every twelfth one is
  (`SyntheticProvider.BarHasNoBodyIff`, `SyntheticProvider.EveryTwelfthHasNoBody`).

## Model

The methods of `LiveScreen` that stand for a callback leave the refs as `LiveProtocol.Handle` says,
and keep the protocol safe.

| member | source | states |
|---|---|---|
| `LiveTimeline.Merge` | frontend/src/domain/live.ts:91-99 | the two loops and the sort hold exactly the newest 500 entries of both collections together, each `seq` once, in order, the later word on a `seq` winning |
| `LiveTimeline.MergedIsNewest` | frontend/src/domain/live.ts:83-99 | the same of the value merging computes, for any two collections, however they overlap |
| `LiveTimeline.NewestIsUnique` | frontend/src/domain/live.ts:87-99 | "the newest 500, in order" determines the timeline: there is only one |
| `LiveTimeline.MergeKeepsNewest` | frontend/src/domain/live.ts:91-99 | merging into the newest of everything so far gives the newest of everything now: what the bound dropped earlier is never missed |
| `LiveClient.HeldTimelineIsNewest` | frontend/src/domain/live.ts:107-236 | over every run of envelopes, snapshots, older pages and transport changes, for any tickets, the timeline held is the newest 500 of everything ever merged |
| `LiveClient.SessionHoldsNewest` | frontend/src/domain/live.ts:62-236 | a whole session, from a first page that repeats no `seq` on |
| `LiveClient.InitialTimelineIsNewest` | frontend/src/domain/live.ts:62-89 | the first page is not merged: it starts such a timeline exactly when it repeats no `seq` (for pages of at most 500) |
| `LiveClient.CursorNeverDecreases` | frontend/src/domain/live.ts:107-236 | no message, snapshot or page of any session or ticket moves the cursor back |
| `LiveClient.StreamIsContiguous` | frontend/src/domain/live.ts:115-168 | whatever is lost, repeated or reordered, the entries applied since a cursor are exactly the next ones up to the new cursor, each once and in order |
| `LiveClient.NothingHeardOfIsMissing` | frontend/src/domain/live.ts:115-178 | as long as no resynchronisation is demanded, every entry a stream message or heartbeat so much as mentioned has been applied |
| `LiveClient.DemandStays` | frontend/src/domain/live.ts:115-178 | a demand to resynchronise is not withdrawn by any later entry, heartbeat or demand |
| `LiveClient.AppliedIsCompleteIff` | frontend/src/domain/live.ts:115-168 | over every run of messages of every kind, whatever is lost, repeated or reordered: every entry between the first cursor and the last has been applied exactly when no `STATE` or `END` was accepted that stood further on than the screen |
| `LiveClient.StateHidesSkippedEntries` | frontend/src/domain/live.ts:129-144 | a run in which a `STATE` overtakes its entry and hides it for good, unreported |
| `LiveClient.MessageIsShown` | frontend/src/domain/live.ts:107-178 | what each kind of message does to session, cursor and entries: one of another session, a replaced stream or behind the screen changes nothing; one that shows something was missed changes none of the three; any other shows its session, moves the cursor to its own if that is further on, and the one next entry is merged |
| `LiveClient.MessageIsReported` | frontend/src/domain/live.ts:107-178 | what it does to the gap, the demand and its reason, the connection and the last heartbeat, and what the screen must do |
| `LiveClient.SnapshotIsShown` | frontend/src/domain/live.ts:193-219 | a snapshot and the page read with it are shown whole - its session and cursor, the newest of both sets of entries, a gap kept once reported, no demand left - unless it is of another session, or behind: then only the ticket is taken over |
| `LiveClient.TransportIsLogged` | frontend/src/domain/live.ts:245-256 | a change of the connection is shown and logged, the log keeping its last twenty; the content stays |
| `LiveClient.NoPageIsAGap` | frontend/src/domain/live.ts:62-81 | a session shown without a page shows nothing and says that something is missing |
| `LiveServer.PageIsSlice` | backend/app/application/live/workspace.py:570-584 | a page after an entry still retained starts at the very next one and is free of holes |
| `LiveServer.PageIs` | backend/app/application/live/workspace.py:570-586 | any page there is, in numbers: the limit brought to between 1 and 100, of the 500 entries retained, from the place asked for or the end; and it reports a gap exactly when it had to start later than asked |
| `LiveServer.MergeOfSlices` | frontend/src/domain/live.ts:87-99 | two stretches of the log that meet merge into one stretch, cut to its newest 500 |
| `LiveServer.LoadOlderExtends` | frontend/src/screens/Live.tsx:372-385 | one click on "older" - asked, cut by the server and merged at three different times, the stream going on - lowers the oldest entry shown by a page, or to the oldest retained when it was cut, and leaves no hole; nothing is asked for exactly when nothing older is known to be retained |
| `LiveServer.LoadingOlderReachesTheOldest` | frontend/src/domain/live.ts:228-243 | while the log grows, old entries are dropped, and the stream goes on before and during each read: clicking through the pages ends with a hole-free timeline from the oldest entry the server still retains |
| `LiveServer.FiveClicksAreEnough` | frontend/src/domain/live.ts:58-59 | five clicks always do, because the server retains no more than the client may hold |
| `LiveServer.OpeningLeavesNoHoleIff` | frontend/src/screens/Live.tsx:284-291 | a session opened by snapshot and then last page shows no hole exactly when the log moved on by at most a page in between |
| `LiveServer.ResyncLeavesNoHoleIff` | frontend/src/screens/Live.tsx:208-222 | a resynchronisation leaves no hole exactly when the snapshot is at most one page ahead of the cursor (or held already); otherwise there is one and `timelineGap` does not say so |
| `LiveServer.ResyncReportsDroppedEntries` | backend/app/application/live/workspace.py:579-583 | a resynchronisation reports a gap exactly when entries after the cursor are no longer retained (or one was reported before) |
| `LiveServer.FarBehindLeavesAHole` | frontend/src/screens/Live.tsx:208-222 | an input of the other kind: 101 entries missed, a hole, and `timelineGap` not set |
| `LiveServer.CursorMessageLeavesNoHoleIff` | frontend/src/domain/live.ts:129-168 | a `STATE` or `END` leaves no hole exactly when it is ignored or every entry up to its cursor was already held; `timelineGap` never says so |
| `LiveServer.SnapshotAloneLeavesNoHoleIff` | frontend/src/domain/live.ts:197-219 | a snapshot taken in without a page (cancelling, analysing) leaves no hole exactly when every entry up to it was already held |
| `LiveServer.AnalysisAnswerFirstLosesItsEntry` | frontend/src/screens/Live.tsx:360-364 | the entry an analysis appends is shown if the stream brings it before the answer, and lost unreported if it comes after |
| `LiveServer.NextEntryIsShown` | frontend/src/domain/live.ts:145-168 | the next entry of the log, delivered on the stream, is shown and moves the cursor by one |
| `LiveQueue.Subscriber.constructor` | backend/app/application/live/workspace.py:349-368 | an empty, open queue |
| `LiveQueue.Subscriber.Push` | backend/app/application/live/workspace.py:370-394 | appends; a full queue is dropped whole, replaced by one demand to resynchronise, counted, and closed; a closed one takes nothing |
| `LiveQueue.Subscriber.Next` | backend/app/application/live/workspace.py:396-406 | hands out what is queued in order, also after closing |
| `LiveQueue.PrimerContinues` | backend/app/application/live/workspace.py:736-794 | what a new subscription is primed with continues the log from the reader's cursor to the last entry, or is a demand to resynchronise, and by itself never overflows the queue |
| `LiveQueue.SubscriptionOverflowsIff` | backend/app/application/live/workspace.py:765-794 | registering, evaluating and priming overflow the new queue exactly when together they push more than 64 notifications, counted; what is left then is one demand |
| `LiveQueue.CatchUpIs` | backend/app/application/live/workspace.py:736-764 | exactly when a reader is told to resynchronise instead of being caught up, and with which reason: its cursor lies beyond the log, what follows it was dropped, or more than 62 entries are missing |
| `LiveQueue.PrimerIs` | backend/app/application/live/workspace.py:765-794 | what a subscription queues, message by message: every entry after the cursor or the one demand, then the state at the end of the log, then the end |
| `LiveDelivery.EvaluationOverflows` | backend/app/application/live/workspace.py:766-780 | which happens: 60 missed entries fit, two more found by the evaluation do not |
| `LiveDelivery.FindsNoHoleIff` | backend/app/application/live/workspace.py:736-794 | however a stream goes on, its reader finds no hole in it, exactly when the evaluation on subscribing found nothing, the reader had missed nothing before it, or the queue overflowed at once |
| `LiveDelivery.NewestComesFirst` | backend/app/application/live/workspace.py:766-794 | otherwise the very first message is the newest entry, and makes the client report a gap and resynchronise although nothing was lost |
| `LiveDelivery.EvaluationGoesFirst` | backend/app/application/live/workspace.py:766-794 | such a run, from opening on: a reader at 1, to whom 3, 2, 3 and the state are sent |
| `LiveDelivery.HappenIsHonest` | backend/app/api/routes/live.py:341-361 | every step between log and browser keeps: what is shown has no hole, and what is on its way repeats or continues what was read, or leads to a demand the server made; only after a subscription whose evaluation went ahead of missed entries may it leave one out |
| `LiveDelivery.EveryRunIsHonest` | backend/app/application/live/workspace.py:736-794 | from opening on, over any number of streams, lost connections, resynchronisations that reach their snapshot, older pages and answers - appends, evaluations, overflows, heartbeats, the end, a reader of any pace: what is shown never has a hole, and the client finds one in what it is sent only on a stream whose subscription put newer entries ahead of missed ones |
| `LiveDelivery.ResynchroniseIsHonest` | frontend/src/screens/Live.tsx:199-226 | a resynchronisation whose page leaves nothing out and reaches its snapshot takes what is shown, without a hole, to the next stream, whatever happened between its three reads |
| `LiveDelivery.QuietMeansCaughtUp` | frontend/src/domain/live.ts:115-168 | a client that is reading a stream, its first or a later one, and has read everything, shows the log without a hole up to its very last entry |
| `LiveSteps.RecordingIs` | backend/app/application/live/workspace.py:1050-1079 | recording appends the next entry and queues it with the session as it is; the end is queued last; a full queue becomes one demand |
| `LiveSteps.WritingIs` | backend/app/api/routes/live.py:341-361 | what is queued goes on the wire in order, a heartbeat with the cursor of the log when nothing is |
| `LiveSteps.ReadingIs` | frontend/src/screens/Live.tsx:167-178 | the browser takes in the first message and reads on, unless it shows something was missed or is the last |
| `LiveSteps.PageReadIs` | frontend/src/screens/Live.tsx:208-209 | the page of a resynchronisation: up to 100 entries after the cursor, of the 500 retained when it was cut |
| `LiveSteps.ResynchronisingIs` | frontend/src/screens/Live.tsx:209-226 | with snapshot and page there both are shown, unless behind, and the next stream is asked for from the snapshot if the session runs |
| `LiveSteps.SubscribingIs` | backend/app/application/live/workspace.py:736-794 | the stream asked for: what the evaluation found is recorded and queued first, then the primer for the cursor asked from |
| `LiveSteps.AnswerAloneIs` | frontend/src/screens/Live.tsx:318-331 | a snapshot taken in alone moves session and cursor, and no entry |
| `LiveSteps.OlderPageIsMerged` | frontend/src/screens/Live.tsx:372-385 | an older page of up to 100 entries is merged into what is shown by then, under the ticket it was asked for, and otherwise dropped |
| `LiveProtocol.StepIsSafe` | frontend/src/screens/Live.tsx:136-239 | every callback, answer, timer and message keeps: at most one stream, timer or read under way, the stream carrying the current generation and the shown state's; and it leaves a live session attended unless it is a stranding step |
| `LiveProtocol.EveryRunIsSafe` | frontend/src/screens/Live.tsx:136-396 | so in every interleaving |
| `LiveProtocol.EveryRunIsAttended` | frontend/src/screens/Live.tsx:271-299 | a session shown as live always has its stream open, a retry due or a read under way, in every run without a stranding step (a failed attempt to open another session, or unmounting) |
| `LiveProtocol.FailedOpeningStrands` | frontend/src/screens/Live.tsx:294-297 | a run from the start that takes such a step: the first session stays on the screen, looking live, with nothing behind it |
| `LiveEndings.UnmountIsFinalIff` | frontend/src/screens/Live.tsx:387-396 | after unmounting, which aborts the read under way, no answer, failure, timer or message ever opens a stream again - exactly when that read was not a resynchronisation |
| `LiveEndings.AbortedResyncComesBack` | frontend/src/screens/Live.tsx:227-238 | a resynchronisation aborted by unmounting fails, sets its retry timer, and the retry opens a stream on a screen that is gone |
| `LiveEndings.LeftStaysLeft` | frontend/src/screens/Live.tsx:333-348 | a session that was left is never painted again, whatever was still on its way |
| `LiveReach.EveryStreamStartsWithinReach` | frontend/src/screens/Live.tsx:208-222 | in every run, every open stream was asked for from a cursor the screen has reached |
| `LiveReach.DemandIsMet` | frontend/src/screens/Live.tsx:167-178 | a message that demands a resynchronisation closes the stream and starts the read at once under the next ticket; one that ends the session closes it for good; any other leaves it open |
| `LiveReach.ShownCursorNeverDecreases` | frontend/src/screens/Live.tsx:159-239 | across everything that happens while one session is shown, its cursor never goes back |
| `LiveAnswers.ResyncIsShown` | frontend/src/screens/Live.tsx:209-222 | a resynchronisation answered in time shows the newest of what was shown and of every entry it read, a gap if there was one or the page has one, and the reply's session and cursor, unless the reply is behind the screen; either way it goes on under the new ticket, with one stream from the reply's cursor exactly if the session runs; no other request is touched |
| `LiveAnswers.ResyncIsReported` | frontend/src/screens/Live.tsx:211-226 | and reports it: connecting or closed, the log ending in "resynchronised" and, for an ended session, "closed" |
| `LiveAnswers.OpeningIsShown` | frontend/src/screens/Live.tsx:284-292 | an opening answered in time shows the newest of its first page and the page's own gap, at the reply's session and cursor, with one stream from there exactly if the session runs |
| `LiveAnswers.SnapshotAnswerIsShown` | frontend/src/screens/Live.tsx:318-331 | a cancel or analyse answer for the session shown moves session and cursor, unless behind; entries, gap, ticket and connection stay |
| `LiveAnswers.OlderAnswerIsShown` | frontend/src/screens/Live.tsx:379-382 | an older page for the session and stream shown is merged, and nothing else changes |
| `LiveAnswers.OutdatedAnswersAreDropped` | frontend/src/screens/Live.tsx:210-210 | an answer or failure under another ticket or for another session paints nothing, and starts and stops nothing |
| `LiveAnswers.OpeningIsAskedFor` | frontend/src/screens/Live.tsx:271-283 | choosing a session stops stream and timer, aborts the read under way and asks for the session under the next ticket; what is shown stays until the answer |
| `LiveAnswers.ResyncIsAskedFor` | frontend/src/screens/Live.tsx:199-207 | so does asking again, by hand or by the timer, for the session shown |
| `LiveAnswers.OthersAreAskedFor` | frontend/src/screens/Live.tsx:372-379 | an older page is asked for exactly if something older than the first entry shown is retained, for the stream shown; an analysis or a cancellation for the session shown |
| `LiveAnswers.LeavingStops` | frontend/src/screens/Live.tsx:333-348 | leaving shows nothing, stops everything and outdates every read, removing also aborts; unmounting stops and aborts |
| `LiveAnswers.DeliveryIsShown` | frontend/src/screens/Live.tsx:167-178 | a message of the open stream is shown, nothing under way is touched unless it is the last, which stops the stream; one that is not for the screen changes nothing |
| `LiveAnswers.MissIsFollowed` | frontend/src/screens/Live.tsx:174-177 | one that shows something was missed stops the stream and has the session read again under the next ticket |
| `LiveAnswers.ConnectionIsShown` | frontend/src/screens/Live.tsx:163-193 | opened, lost and unreadable are shown and logged for what they are, and leave the content alone |
| `LiveAnswers.ConnectionIsFollowed` | frontend/src/screens/Live.tsx:179-193 | a lost stream has exactly one retry set; an unreadable message has the session read again |
| `LiveAnswers.FailureIsShown` | frontend/src/screens/Live.tsx:227-238 | a resynchronisation that fails shows a vanished session as closed and otherwise sets one retry; an opening that fails leaves all as it was |
| `LiveScreen.LiveScreen.constructor` | frontend/src/screens/Live.tsx:88-124 | a screen with nothing on it |
| `LiveScreen.LiveScreen.StopStream` | frontend/src/screens/Live.tsx:136-143 | closes the stream the screen holds and cancels its timer |
| `LiveScreen.LiveScreen.StartStream` | frontend/src/screens/Live.tsx:159-197 | stops what runs and opens a stream under the ticket given |
| `LiveScreen.LiveScreen.Resync` | frontend/src/screens/Live.tsx:199-207 | stops, aborts the read before, takes the next ticket and asks for snapshot and page |
| `LiveScreen.LiveScreen.ResyncAnswered` | frontend/src/screens/Live.tsx:209-226 | merges an answer that is still wanted and streams on, or shows the end |
| `LiveScreen.LiveScreen.ResyncFailed` | frontend/src/screens/Live.tsx:227-238 | shows a vanished session as closed, or retries later |
| `LiveScreen.LiveScreen.Open` | frontend/src/screens/Live.tsx:271-283 | stops, aborts the read before, takes the next ticket and asks for another session |
| `LiveScreen.LiveScreen.OpenAnswered` | frontend/src/screens/Live.tsx:284-296 | shows an answer that is still wanted, and streams if the session runs |
| `LiveScreen.LiveScreen.OpenFailed` | frontend/src/screens/Live.tsx:293-296 | leaves what is shown as it is |
| `LiveScreen.LiveScreen.AbortReads` | frontend/src/screens/Live.tsx:203-203 | aborts the read the screen can abort; it can only fail from then on |
| `LiveScreen.LiveScreen.BackToList` | frontend/src/screens/Live.tsx:409-417 | stops and outdates what is under way, without aborting it, and shows nothing |
| `LiveScreen.LiveScreen.Release` | frontend/src/screens/Live.tsx:333-340 | stops, aborts and outdates what is under way and shows nothing |
| `LiveScreen.LiveScreen.SnapshotAnswered` | frontend/src/screens/Live.tsx:318-331 | takes in a cancel or analyse answer for the session still shown |
| `LiveScreen.LiveScreen.LoadOlder` | frontend/src/screens/Live.tsx:372-379 | asks for an older page if there is one to ask for |
| `LiveScreen.LiveScreen.OlderAnswered` | frontend/src/screens/Live.tsx:379-382 | merges an older page under the ticket it was asked for |
| `LiveScreen.LiveScreen.OnOpen` | frontend/src/screens/Live.tsx:163-166 | marks the current stream open |
| `LiveScreen.LiveScreen.OnEnvelope` | frontend/src/screens/Live.tsx:167-178 | applies an envelope, and closes or resynchronises if that asks for it |
| `LiveScreen.LiveScreen.OnTransportLost` | frontend/src/screens/Live.tsx:179-188 | closes the source for good; the current stream shows the loss and retries later |
| `LiveScreen.LiveScreen.OnInvalid` | frontend/src/screens/Live.tsx:189-193 | resynchronises the current stream |
| `LiveScreen.LiveScreen.OnTimer` | frontend/src/screens/Live.tsx:187-187 | a due timer resynchronises |
| `LiveScreen.LiveScreen.OnUnmount` | frontend/src/screens/Live.tsx:387-395 | stops the stream and the timer and aborts the read under way |
| `DisplayDecimals.RoundingIsExact` | frontend/src/format/display.ts:105-145 | for every plain decimal and every number of places, the text returned is a plain decimal with exactly those places, denoting the input rounded half away from zero; its sign is the input's unless it is zero; only a carry lengthens its whole part |
| `DisplayDecimals.RoundingIsIdempotent` | frontend/src/format/display.ts:105-145 | rounding what was rounded changes nothing, whatever the text was |
| `DisplayDecimals.RoundingKeepsOrder` | frontend/src/format/display.ts:105-145 | a smaller value never rounds to a larger one, across signs and differing places |
| `DisplayDecimals.FormattingIsExact` | frontend/src/format/display.ts:76-172 | for every plain decimal and unit the text shown is the value rounded exactly to the unit's places, written out, followed by `%` for a percentage and by nothing else; units without places show the trimmed text; a text that is no plain decimal is shown trimmed and bare |
| `DisplayDecimals.DashIff` | frontend/src/format/display.ts:162-163 | the dash is shown exactly when the value is absent, blank or itself that dash |
| `DisplayDecimals.TrimIs` | frontend/src/format/display.ts:165-165 | trimming takes off white space at both ends and nothing else |
| `DisplayDecimals.PlainDecimalHasParts` | frontend/src/format/display.ts:97-97 | a plain decimal is an optional minus, digits, and optionally a point with digits |
| `DisplayDecimals.PartsArePlainDecimal` | frontend/src/format/display.ts:97-97 | and everything of that form is one |
| `DisplayDecimals.AmountExample` | frontend/src/format/display.ts:105-172 | "12.345" as an amount is shown as "12.35" |
| `DisplayDecimals.CarryExample` | frontend/src/format/display.ts:105-145 | "9.995" as an amount is shown as "10.00" |
| `DisplayDecimals.FormattingIsIdempotent` | frontend/src/format/display.ts:161-172 | formatting what was formatted changes nothing, for every unit |
| `DisplayDecimals.PercentIsNoDecimal` | frontend/src/format/display.ts:97-97 | a value dressed with `%` is no plain decimal any more, so it is never rounded or dressed twice |
| `DisplayDecimals.RoundingIsTrimmed` | frontend/src/format/display.ts:105-111 | the text returned carries no white space |
| `BacktestTables.CommitIsSound` | backend/app/adapters/persistence/backtest_store.py:72-211 | every transaction, refused or not, keeps the schema's constraints, and keeps rows and digests to COMPLETED runs |
| `BacktestTables.EveryRunIsSound` | backend/alembic/versions/0006_backtest.py:53-185 | so over every sequence of transactions from empty tables |
| `BacktestTables.FailIsConsistent` | backend/app/adapters/persistence/backtest_store.py:193-211 | failing an unfinished run can never be refused by the schema |
| `BacktestResults.PublishedReadsBack` | backend/app/adapters/persistence/backtest_store.py:120-191 | a published run reads back COMPLETED with what was published, its facts and the time of publishing - sorted by sequence and ordinal, reasons cut at 500 - whatever else is stored and however the database orders ids |
| `BacktestResults.ReadBackIsExactIff` | backend/app/adapters/persistence/backtest_store.py:394-468 | it reads back the very same, but for the cut reasons, exactly when decisions, positions and ledgers were in order |
| `BacktestResults.PositionsHaveTheirLedgers` | backend/app/adapters/persistence/backtest_store.py:423-468 | flattening all ledgers into rows and regrouping them by position gives every position its own ledger back |
| `BacktestResults.EndedStaysEnded` | backend/app/adapters/persistence/backtest_store.py:120-211 | whatever is created, published or failed afterwards, a COMPLETED run reads back the same for good and a FAILED one never becomes COMPLETED |
| `BacktestResults.LastFailureStands` | backend/app/adapters/persistence/backtest_store.py:193-211 | whatever happens after a run FAILED, its row is as it was but for the code, reason and time of the last failure recorded since |
| `BacktestResults.FirstEndingWinsIff` | backend/app/application/backtest/ports.py:40-46 | the first ending wins, throughout, exactly when no later failure of that run states another code, reason or time; and in the end exactly when the last one does not |
| `BacktestResults.SecondReasonReplacesTheFirst` | backend/app/adapters/persistence/backtest_store.py:193-211 | a run in which it does not: failed for one reason and then for another |
| `BacktestResults.CreateRefusedIff` | backend/app/adapters/persistence/backtest_store.py:72-107 | creating is refused, always as a duplicate, exactly for a taken id or attempt key, an unknown dataset, an interval that does not run forward, or a run that is created as ended |
| `BacktestResults.PublishAcceptedIff` | backend/alembic/versions/0006_backtest.py:111-185 | an unfinished run takes a result exactly when the schema can hold the result and none of its position ids is taken by any run |
| `BacktestResults.HeadAgrees` | backend/app/adapters/persistence/backtest_store.py:222-249 | the counts and digest of the light read are those of the full one |
| `BacktestResults.TracePageIsSlice` | backend/app/adapters/persistence/backtest_store.py:251-275 | a page of the trace is that stretch of the full result's decisions, with their total |
| `BacktestResults.PagesReadTheLedger` | backend/app/adapters/persistence/backtest_store.py:277-313 | paging through a ledger from sequence zero, each time from the last entry seen, reads all of it, each entry once |
| `BacktestReads.FailedReadsBack` | backend/app/adapters/persistence/backtest_store.py:193-211 | a run that is failed reads back FAILED, by the full and by the light read: code and reason each in its own field, the first 64 and 500 characters of what was given, the facts as created, no result, and the time of failing |
| `BacktestReads.EveryReadTells` | backend/app/adapters/persistence/backtest_store.py:471-492 | after every sequence of transactions: a run has a code and a reason exactly if it FAILED, a result exactly if it COMPLETED, the light read says the same, and of a run without a result it counts nothing |
| `BacktestReads.CreatedReadsBack` | backend/app/adapters/persistence/backtest_store.py:72-107 | a run just created reads back as it was handed over, with neither failure nor result |
| `BacktestReads.FactsStay` | backend/app/adapters/persistence/backtest_store.py:120-211 | what a run was asked to do never changes, and no run is ever lost |
| `BacktestReads.RefusalsAreNamed` | backend/app/adapters/persistence/backtest_store.py:120-211 | exactly when publishing or failing is refused as missing, terminal or completed; what is refused changes nothing |
| `BacktestReads.DecisionIsKept` | backend/app/adapters/persistence/backtest_store.py:158-175 | a stored decision is the one handed over, its two reasons cut to their first 500 characters |
| `BacktestReads.ResultReadsInOrder` | backend/app/adapters/persistence/backtest_store.py:394-468 | a result reads back with decisions, positions and every ledger numbered strictly upwards, whatever order it was handed over in |
| `BacktestReads.TracePageIsStretch` | backend/app/adapters/persistence/backtest_store.py:251-275 | entry `k` of a trace page is decision `offset + k` of the full read, up to the limit |
| `BacktestStore.Store.constructor` | backend/app/adapters/persistence/backtest_store.py:66-68 | empty tables over the known datasets |
| `BacktestStore.Store.CreateRun` | backend/app/adapters/persistence/backtest_store.py:72-107 | commits or refuses as `BacktestTables` says; the run comes back without a result, its times as they were given |
| `BacktestStore.Store.Publish` | backend/app/adapters/persistence/backtest_store.py:120-191 | builds all rows in its loops, then commits all of them with the status or nothing at all; returns the run as it reads back |
| `BacktestStore.Store.FailRun` | backend/app/adapters/persistence/backtest_store.py:193-211 | marks an unfinished run FAILED and returns it with code and reason, each cut, in its own field, the facts as they were, no result and the time given; refuses a COMPLETED one |
| `BacktestStore.Store.Hydrate` | backend/app/adapters/persistence/backtest_store.py:394-421 | the read that `BacktestReads` and `BacktestResults` are about: a result only for a run that has one |
| `BacktestStore.Store.Positions` | backend/app/adapters/persistence/backtest_store.py:423-468 | one query for all events, regrouped in memory: every position with its own ledger, in ordinal order |
| `BacktestStore.Store.LedgersOf` | backend/app/adapters/persistence/backtest_store.py:351-390 | the same ledgers, keyed by position, as the performance fold reads them |
| `PaperLedger.FoldIsOnePass` | backend/app/adapters/performance/paper_source.py:456-561 | for every sequence of events, complete or not: the membership tests, first-match searches, sums and reverse scan give the outcome (or the error) of one left-to-right pass with a small state |
| `PaperLedger.OnlyFinancialEventsMatter` | backend/app/adapters/performance/paper_source.py:456-561 | leaving out, or putting in, any events without a financial fact anywhere changes nothing |
| `PaperLedger.BothSourcesAgree` | backend/app/adapters/performance/backtest_source.py:82-86 | keeping only financial events and dropping only observations fold one ledger to the same outcome |
| `PaperLedger.MoneyIsConserved` | backend/app/adapters/performance/paper_source.py:495-520 | an unclosed position's gross is its fills' amounts plus those of exits without a market time, its fees likewise; its net is the difference exactly when fees are modelled and absent otherwise |
| `PaperLedger.ClosedIsAsRecorded` | backend/app/adapters/performance/paper_source.py:495-511 | a closed position's gross, fees and net are what its close recorded, each where it belongs, fees and net only if fees are modelled |
| `PaperLedger.FillsAreExits` | backend/app/adapters/performance/paper_source.py:513-521 | each fill is an exit with a market time, with that exit's gross and fee, and each such exit is a fill |
| `PaperLedger.FoldFailsIff` | backend/app/adapters/performance/paper_source.py:456-561 | exactly when a ledger cannot be folded for want of a creation, of its time, or of a time of closing |
| `PaperSource.FoldPositions` | backend/app/adapters/performance/paper_source.py:236-267 | grouping, folding and sorting: one record per selected position with events, in the order of the selection, each folding its own events; or the error of one that cannot be read |
| `PaperSource.FillCountsAgreeIff` | backend/app/adapters/performance/paper_source.py:261-266 | the two sources count the same fills exactly when every exit carries a market time |
| `PaperReplay.FoldReadsTheEngine` | backend/app/domain/paper/engine.py:485-734 | for every run of the engine the fold reads its ledger without error and sees its state, gross, times and - but for one thing - its fees and net |
| `PaperReplay.FeesAgreeIff` | backend/app/domain/paper/engine.py:686-689 | the one thing: the fee for entering is missing from an unclosed position's outcome, so the fees agree exactly when they are not modelled, the position has closed, or entering was free |
| `PaperReplay.EntryFeeIsLeftOut` | backend/app/domain/paper/engine.py:686-689 | a run in which they do not: entered at a fee and not closed yet, for every fee |
| `PaperReplay.LedgerRebuilds` | backend/app/domain/paper/engine.py:399-448 | for every sequence of inputs, let through or refused: replaying the stored ledger reproduces the very same position and ledger |
| `PaperReplay.EveryPositionHolds` | backend/app/domain/paper/engine.py:186-337 | every reachable position keeps the invariant behind these: books that mirror the ledger, entries numbered from one, units that add up |
| `PaperReplay.UnitsAreConserved` | backend/app/domain/paper/engine.py:666-684 | units entered are those that left through exits plus those remaining; a position has units exactly while it is exposed, and what remains covers the targets still to be filled |
| `PaperReplay.OnlyAPriceStopsABar` | backend/app/domain/paper/engine.py:615-682 | the refusals the source marks as unreachable are: a bar in its turn is refused only because a simulated price would not be positive |
| `PaperInputs.StopInForce` | backend/app/domain/paper/engine.py:277-320 | in every run the stop in force is the plan's until the ledger records that it was moved, and the price of entry from then on |
| `PaperInputs.BreakevenIsDecidedBy` | backend/app/domain/paper/engine.py:277-320 | in every run a request to move the stop is refused exactly when the position is not open, or the stop was not moved yet and the last bar did not close beyond the entry in its favour; let through it puts the stop at the entry, once, with one ledger entry, and changes nothing else |
| `PaperInputs.CloseIsDecidedBy` | backend/app/domain/paper/engine.py:245-274 | in every run a close is pending exactly while the position is exposed and the ledger records a request; it can be asked for exactly while exposed, and asking again changes nothing |
| `PaperInputs.CancelIsDecidedBy` | backend/app/domain/paper/engine.py:323-338 | in every run a position can be cancelled exactly while its entry is pending, and is cancelled exactly if the ledger says so |
| `PaperInputs.ObservationIsDecidedBy` | backend/app/domain/paper/engine.py:186-242 | in every run what happens to a bar is decided by the ledger: improper, seen already with the same or with other prices, overlapping, before the decision, after the end - each with its own answer - or new and worked through |
| `PaperInputs.StandsAtItsLastBar` | backend/app/domain/paper/engine.py:685-734 | in every run the bars in the ledger do not overlap, none is before the decision, and the position's mark, last bar and count of bars are theirs |
| `PaperInputs.TargetIsFilledIff` | backend/app/domain/paper/engine.py:615-642 | in every run a target counts as filled, at its own price, exactly if the ledger records a fill at that price, and that fill is for the units planned |
| `PaperInputs.OpeningIsDecidedBy` | backend/app/domain/paper/engine.py:107-150 | which check refuses an opening, and that it succeeds exactly when none does |
| `PaperInputs.OpenedIs` | backend/app/domain/paper/engine.py:107-157 | a position starts pending with its whole plan ahead, one ledger entry, no money and no bar |
| `PaperInputs.SpecIsValidIff` | backend/app/domain/paper/model.py:183-226 | a plan is valid exactly when it enters between its stop and one to five targets, each beyond the one before, for no more units than it has, at positive prices, with neither slippage nor fee negative |
| `PaperInputs.RebuildsIff` | backend/app/domain/paper/engine.py:412-453 | a ledger rebuilds exactly if it is one the engine would have written for some run of inputs, and then to that run's position |
| `PaperPrices.EveryRunIsStated` | backend/app/domain/paper/engine.py:485-664 | whatever was put in before, every entry, rejection, exit and ambiguity a bar adds is at the price, for the units, with the money and under the policy the rules state: targets at their own price, and in a bar that also reached the stop only if it opened at them; stops at their price or at the open that gapped through it; ambiguities only inside a bar that reached the stop |
| `PaperPrices.EveryFillIsStated` | backend/app/domain/paper/engine.py:485-664 | the same for one bar and any position that keeps its plan |
| `PaperPrices.TestsAreComparisons` | backend/app/domain/paper/rules.py:16-38 | for longs and shorts, what it means in prices that a bar reached the stop, opened beyond it, or may fill a target |
| `PaperPrices.EntriesInNumbers` | backend/app/domain/paper/rules.py:16-38 | a stated entry in numbers: the open plus the slippage against the position, all units, their fee; refused exactly when not between stop and first target |
| `PaperPrices.ExitsInNumbers` | backend/app/domain/paper/rules.py:16-38 | a stated exit in numbers: stop and manual close give the slippage away, a target does not; gross and fee are those of its units |
| `PaperFills.EveryRunIsComplete` | backend/app/domain/paper/engine.py:485-664 | and nothing a bar calls for is left out: after every new bar of every run, exactly the targets it should fill are filled; a position whose stop it reached is closed - or frozen, exactly when a target was reached as well and the policy halts; an ambiguity is recorded, once, exactly when stop and an open target were both reached, under either policy; a pending entry is made at the open or refused; a requested close happens |
| `PaperFills.BarIsComplete` | backend/app/domain/paper/engine.py:485-664 | the same for one bar and any position the engine can reach |
| `PaperPrices.NoExitIsOptimistic` | backend/app/domain/paper/rules.py:24-35 | no stated exit is better than what the bar traded at, than the stop, or than the open a manual close fills at |
| `PaperPrices.StopTakesTheFirstPriceIff` | backend/app/domain/paper/rules.py:24-26 | a stop exits no better than the first price that existed at or beyond it, except exactly on a bar that enters although it opened beyond the stop |
| `PaperPrices.EntryBarSkipsTheGap` | backend/app/domain/paper/engine.py:485-613 | on such a bar the position enters by its slippage and exits at the stop price the market had skipped |
| `PaperPrices.GapIsSkipped` | backend/app/domain/paper/engine.py:485-613 | a run that has one: stop 90, slippage 2, a bar that opens at 89 - in at 91, out at 88, where the open would have given 87 |
| `MockStream.HistoricalScript` | backend/app/adapters/live/mock_stream.py:123-168 | the loops and the sort build the script the lemmas below are about |
| `MockStream.EachCandleOnceInOrderIff` | backend/app/adapters/live/mock_stream.py:137-168 | every candle of a timeframe is emitted exactly once, the `k`-th being the `k`-th of its series with sequence `k`, exactly when the series never goes back in open time |
| `MockStream.EventsEndTheirIntervals` | backend/app/adapters/live/mock_stream.py:92-120 | every event is a candle of the market stamped with the end of its interval - its open time plus the seconds of its timeframe, written out - and, if sequenced, its place in the series |
| `MockStream.NoLookAhead` | backend/app/adapters/live/mock_stream.py:145-145 | interval ends, open time plus the timeframe's seconds, never go back, and no candle is emitted before a finer one that finishes at or before it |
| `MockStream.FinerCandlesCameFirst` | backend/app/adapters/live/mock_stream.py:132-136 | when a candle is emitted, every finer candle of the market that finished by then has been emitted before it |
| `MockStream.CandlesInsideCameFirst` | backend/app/adapters/live/mock_stream.py:132-136 | with candles aligned to their timeframes, a candle comes after every finer one that opens inside its interval |
| `MockStream.HistoricalScriptIsHeard` | backend/app/adapters/live/mock_stream.py:174-193 | a reader hears the connection, every candle one spacing of the clock apart, and the end if announced; with a negative spacing only the connection and the clock's error |
| `MockStream.ManualClock.Tick` | backend/app/adapters/live/mock_stream.py:60-63 | the clock moves by a delta that is not negative, and otherwise refuses and stands still |
| `MockStream.Subscription.Next` | backend/app/adapters/live/mock_stream.py:180-190 | resumes the script to its next item, moving the clock on the way; closed, failed or finished it yields nothing more |
| `MockStream.HeardIs` | backend/app/adapters/live/mock_stream.py:174-193 | what any script means to its reader, step by step; a failure is the last thing heard |
| `MockStream.BackfillResumes` | backend/app/adapters/live/mock_stream.py:227-236 | backfilling a played series gives exactly the candles after the last sequence seen, up to the limit |
| `MockStream.BackfillIs` | backend/app/adapters/live/mock_stream.py:227-236 | of any archive: only events with a later sequence, at most the limit, and all of them below it |
| `Limits.Limiter.Receive` | backend/app/api/limits.py:97-99 | after a refusal a receive is answered with a disconnect at once |
| `Limits.Limiter.Resume` | backend/app/api/limits.py:100-107 | counts what arrived, and at the first byte too many starts a 413 |
| `Limits.Limiter.FinishRefusal` | backend/app/api/limits.py:118-139 | sends the body of a 413 begun, and only then disconnects the application |
| `Limits.Limiter.Send` | backend/app/api/limits.py:109-114 | passes the application's messages on, and none after a refusal |
| `Limits.EveryRunIsLimited` | backend/app/api/limits.py:95-139 | for every chunking and interleaving, also between the two messages of a refusal: the application hears at most the limit, rejection means exactly that more arrived, and the wire carries what was passed before it and then only refusals, each body after its start |
| `Limits.TransparentIff` | backend/app/api/limits.py:95-116 | the middleware is transparent in both directions exactly while no more than the limit has arrived |
| `Limits.NothingAfterRefusal` | backend/app/api/limits.py:97-114 | after a refusal nothing of the body is heard and nothing the application sends reaches the wire |
| `Limits.RefusalsAreBounded` | backend/app/api/limits.py:100-106 | there are never more 413s than receives the application had under way at once |
| `Limits.ExactlyOneRefusal` | backend/app/api/limits.py:97-139 | an application that awaits one message at a time gets exactly one 413 when the body is too large, and none otherwise |
| `Limits.RefusalsAreCounted` | backend/app/api/limits.py:97-107 | in every run there are as many 413s as messages of the body that arrive from the one that crosses the limit on |
| `Limits.OneRefusalIff` | backend/app/api/limits.py:97-107 | so there is exactly one 413 exactly when the limit is crossed and nothing more of the body arrives, after that, to a receive already waiting |
| `Limits.RefusalReads` | backend/app/api/limits.py:118-139 | what the middleware says for itself is a 413 naming the limit and nothing else; to an application that awaits one message at a time once, whole, and in that order |
| `Limits.EveryReceiveIsAnsweredOnce` | backend/app/api/limits.py:95-116 | in every run every receive is answered once, or still waits for the server or between the two messages of a refusal; what arrives and what is said is taken down as it came |
| `Limits.FirstDeclarationDecides` | backend/app/api/limits.py:141-154 | the declared length is the number in the first header of that name in any case of letters, and none if it holds no number |
| `Limits.TwoWaitingReceivesAreAnsweredTwice` | backend/app/api/limits.py:97-139 | a run in which there are two, the one refusal inside the other on the wire |
| `Limits.SecondStartIff` | backend/app/api/limits.py:103-114 | the wire carries a second response start exactly when the refusal came after the application had begun its response |
| `Limits.EarlyAnswerIsStartedTwice` | backend/app/api/limits.py:103-114 | a run in which it does: the application answers before it has read the body |
| `Limits.ServeIsLimited` | backend/app/api/limits.py:79-116 | the whole call: other protocols pass untouched, a declared length over the limit is refused unread, everything else is limited as above; the refusal is a 413 |
| `JournalStore.Store.Save` | backend/app/adapters/persistence/journal_store.py:61-97 | inserts at version 1 or replaces the row still at the version named; otherwise a conflict, an unknown position or a constraint, and nothing changes |
| `JournalStore.Store.InsertRow` | backend/app/adapters/persistence/journal_store.py:99-134 | the insert alone, with the order its constraints are reported in |
| `JournalStore.VersionsCountSuccesses` | backend/app/adapters/persistence/journal_store.py:61-131 | over every interleaving of writers a note's versions run 1, 2, 3, ...: the `k`-th success named version `k - 1`, and what a reader gets is the last success's, created at the first's time |
| `JournalStore.NoVersionIsReplacedTwice` | backend/app/adapters/persistence/journal_store.py:69-97 | two saves that name the same version never both succeed |
| `JournalStore.ConflictNamesANewerVersion` | backend/app/adapters/persistence/journal_store.py:91-95 | a writer refused for a version it had read is told that version and a strictly newer one, and whenever the newer one is read, in a later transaction, it is newer still |
| `JournalStore.SaveSucceedsIff` | backend/app/adapters/persistence/journal_store.py:61-134 | a save succeeds exactly when it can be stored, names the version in force and has a position |
| `JournalStore.RefusalIsNamed` | backend/app/adapters/persistence/journal_store.py:61-134 | which refusal a save gets - a conflict naming both versions, an unknown position, or not storable - each exactly when; and that it changes nothing |
| `ShadowJournal.PageKeepsPrefix` | frontend/src/domain/shadow.ts:189-208 | a page asked for within the held prefix, cut whenever the server gets to it and delivered however late - after later ones too - keeps it a prefix and never shortens it |
| `ShadowJournal.EveryRunIsGood` | frontend/src/screens/Shadow.tsx:158-296 | every interleaving of recording, choosing and closing runs, asking, cutting and answering keeps the invariant behind that |
| `ShadowJournal.ClosedStaysClosed` | frontend/src/screens/Shadow.tsx:287-296 | a run that was closed is never shown again, whatever was still on its way, until one is opened |
| `ShadowJournal.HeldIsAlwaysAPrefix` | frontend/src/domain/shadow.ts:168-208 | what is held is always the first entries of its own run's journal: none missing, none twice, at most 500 |
| `ShadowJournal.OpeningIsShown` | frontend/src/screens/Shadow.tsx:158-196 | the first page of the run chosen last is shown: up to 50 entries, the total, and where to go on from |
| `ShadowJournal.PageIsShown` | frontend/src/screens/Shadow.tsx:198-226 | a later page of what is held extends it by up to 50 entries to at most 500, and the place to go on from |
| `ShadowJournal.OutdatedAnswersShowNothing` | frontend/src/domain/shadow.ts:189-192 | an answer for another run or ticket changes nothing that is shown |
| `ShadowJournal.AskingIs` | frontend/src/screens/Shadow.tsx:158-226 | what choosing, closing and loading more ask for, under which ticket and from which place |
| `ShadowJournal.AnyPageIs` | frontend/src/domain/shadow.ts:189-208 | any page, however it came about: below 500 entries nothing held is lost and every sequence it brings is held, in order; the next place is the page's unless it brought nothing or the journal is full; a page for another run or ticket changes nothing |
| `ShadowJournal.LoadingTerminates` | frontend/src/screens/Shadow.tsx:198-210 | while the journal grows, asking while there is a place to ask at comes to an end, holding all the journal had when the last page was cut or exactly its first 500 entries |
| `ShadowJournal.FiveHundredPagesAreEnough` | frontend/src/domain/shadow.ts:32-34 | 500 pages do, however it grows |
| `ShadowJournal.OneAtATimeGoesOn` | frontend/src/domain/shadow.ts:189-208 | and no fewer: while one entry is recorded between each page and the next, any smaller number leaves a place to ask at |
| `ShadowJournal.ElevenPagesAreEnough` | frontend/src/domain/shadow.ts:32-34 | eleven pages do if the journal stands still once the reader has caught up with it |
| `ShadowJournal.RunPageAddsOnlyNewRuns` | frontend/src/domain/shadow.ts:221-227 | the history lists no run twice, loses none and takes in every new one until it is full |
| `ShadowJournal.NewRunsKeepTheirOrder` | frontend/src/domain/shadow.ts:221-227 | new runs follow in the order of their page, 200 in all |
| `SyntheticProvider.WindowIsExact` | backend/app/adapters/market_data/synthetic_provider.py:117-135 | a window holds exactly the candles of non-negative index whose open time lies in it |
| `SyntheticProvider.WindowIsSliceOfWider` | backend/app/adapters/market_data/synthetic_provider.py:117-153 | any window is the matching stretch of any window around it |
| `SyntheticProvider.WaveIsBounded` | backend/app/adapters/market_data/synthetic_provider.py:212-223 | the wave stays within one either way and moves at most four parts of a cycle a candle, across the end of a cycle too |
| `SyntheticProvider.WaveIs` | backend/app/adapters/market_data/synthetic_provider.py:212-223 | its height is a straight line up to the middle of the cycle and down again |
| `SyntheticProvider.CycleDrifts` | backend/app/adapters/market_data/synthetic_provider.py:155-175 | one cycle later the price has moved by a cycle of the trend, up to the cent each was rounded by: up for a positive trend, down for a negative one |
| `SyntheticProvider.PriceIsNearest` | backend/app/adapters/market_data/synthetic_provider.py:226-227 | a price is its level moved by its wave, to the nearest cent, a half to the even one |
| `SyntheticProvider.WicksInNumbers` | backend/app/adapters/market_data/synthetic_provider.py:176-189 | high and low lie a quarter of the amplitude beyond open and close; every candle is closed and opens on its interval |
| `SyntheticProvider.VolumeIsNearest` | backend/app/adapters/market_data/synthetic_provider.py:176-189 | a volume is its base moved by its wave, and never below one unit |
| `SyntheticProvider.CandleEnclosesIff` | backend/app/adapters/market_data/synthetic_provider.py:155-189 | high and low enclose open and close exactly when the rounded spread is not negative: for every amplitude that is not |
| `SyntheticProvider.BarHasNoBodyIff` | backend/app/adapters/market_data/synthetic_provider.py:155-175 | a bar opens and closes at one price where the wave is level with itself a third of a cycle on and, of a profile whose wave moves more than a cent a candle, nowhere else |
| `SyntheticProvider.EveryTwelfthHasNoBody` | backend/app/adapters/market_data/synthetic_provider.py:164-170 | with the default cycle of 24, that is every twelfth bar from the ninth on |
| `SyntheticProvider.ApplyDefects` | backend/app/adapters/market_data/synthetic_provider.py:191-209 | every index touched exists; lengths, and which candles stand where, for each defect by itself |

## Left out

- Rendering, labels, translations, CSS, forms and schemas: no algorithm.
- HTTP, EventSource, JSON and `Decimal` parsing, the event loop and real timers: deliveries,
  answers and firings are steps that may come in any order. Reasons such as texts shown to a person
  are plain strings, left blank where no rule reads them.
- Market facts, indicators and analyses inside a live session: one opaque field. A `create` under
  way when the live screen unmounts (it opens the session once answered) is not a step of
  `LiveProtocol`; its listing and capability reads change no stream. The abort of an analysis under
  way is not modelled either: its answer may still come, and is guarded as the code guards it.
- LiveDelivery.EveryRunIsHonest: runs in which a resynchronisation does not reach its snapshot, an
  answer without a page names an entry not shown yet, or an older page is cut after the server has
  dropped the end of what is shown. `LiveServer` says of each that this is when it leaves a hole. A
  reader that names no cursor is not modelled: the screen always names one.
- The live server's limit on the number of subscribers and the removal of sessions: a subscription
  here always exists. What an evaluation finds is any sequence of changes; the freshness and the
  integrity of timeframes it goes by are not modelled.
- SQL text, isolation levels and finer interleavings inside one transaction: a transaction is one
  step, accepted exactly when the schema's constraints hold afterwards. Widths of text columns no
  rule reads, and the listing of runs, are not modelled. The encoded spec, approval and product
  snapshot are one opaque text, taken to decode to what was encoded.
- Amounts are real numbers: the 28-digit context of `Decimal` does not round here. Prices of the
  synthetic market are whole cents, its window's float division is an exact ceiling.
- PaperReplay.FoldReadsTheEngine: what an exit is worth is any function of direction, prices and
  units, since the product's own formula is another domain's; marks of open positions
  (`unrealized_gross`) and their verification against the stored row are not modelled.
- The engine's builder object is modelled on values: each of its methods is a function from the
  working position to the next, so that aliasing within one bar is not captured.
- PaperInputs.SpecIsValidIff: a plan's id, symbol, note and time zone, and a direction that is neither
  long nor short, are not checked here: no rule of the engine reads them.
- The date-range predicates of the two performance sources, which treat unfinished positions
  differently on purpose.
- PaperSource.FoldPositions: a missing key or an unreadable amount in an event, which the engine
  never writes, is not modelled.
- MockStream.BackfillResumes: the limit is not negative.
- SyntheticProvider.BarHasNoBodyIff: for a wave that moves a cent or less from candle to candle,
  only that level bars have no body, not which others round to one.
- ShadowJournal.EveryRunIsGood: aborted reads may still be answered here, which allows more runs than
  the browser does; the outcomes list beside the journal is not modelled.
- Limits: the wording of the refusal, the parsing of a header's number, and the bounded validation
  errors in the same file.
- The push provider and its buffer, the provider that fails on subscribing, superseded decisions,
  outcome counts, tag counts: they would only add easy members.
