# Nooma: a model of its proactive core, in Dafny

Nooma keeps a person's second brain and speaks first when something is due. This project models the parts of it
where state, failures, loops and formats meet, and proves what those parts promise:

- **One due scan** (`CheckPass.dfy`, over `Stores`, `PushQueue`, `RowOrder`, `PushLedger`, `DueTally`, `PassTrace`,
  `DigestPass`, `PassResult`, `DryRun`). Reminder rows move armed, fired, surfaced or expired behind conditional writes,
  while sends, reads, writes and audit rows fail, other processes change rows around every call, scans abort and
  processes restart. Proved over every run: how often a reminder and a timer can go out, and exactly when one goes out
  again; that nothing is marked as having reached the user before a message whose text tells of it went out, whatever
  fails or aborts; that an item a digest was seen with is in no later one; that a unit's stale
  reminders are retired only after the unit was planned again; that a scan does what its verdicts say of all the rows it
  read; what a dry run, which writes nothing, foretells of it; and that the audit trail counts what the report counts,
  lost races and all.
- **Recurring series and catch-ups** (`Series.dfy`, `CatchUp.dfy`): interleaved scans holding stale copies, as
  transition systems.
- **The digest** (`DigestText.dfy`, `DigestQuestions.dfy`): what goes into the one message, what gives way, and the
  counters read back from the audit trail.
- **The inbound channel** (`ChannelRunner.dfy`, `DedupRing.dfy`): an at-least-once transport, a cursor, and a ring.
- **The `.noomabundle` format** (`Bundle.dfy`, `BundleNames.dfy`): write, verify, extract, and the round trip.
- **The nightly derive phase** (`DeriveScreen.dfy`): a proposal whose key, or whose nearest comparable belief, is one the
  user retired is never created; a retired belief whose own vector cannot be used shields its key only.
- **Follow-ups** (`FollowUp.dfy`), **the focus round** (`FocusEdges.dfy`), and the two hand-written scanners
  (`EnvFile.dfy`, `YamlDocuments.dfy`, over `Text.dfy`).

`Options.dfy` holds the optional value they share. Code that changes things step by step is modelled as classes and
methods with loops; ports that may fail choose their outcome freely, and a write that reports a failure may have
landed. A fault-free outcome is never assumed. What went wrong is counted instead (`Stores.Faults`): a step that ends
in an error has to point to a read or a write that failed, and where a result needs that no write lost a race the
contract says so of that count (`Smooth`). What a scan read is kept too, so that "the due rows" in a contract are all
the rows there were at that moment and not rows of its own choosing; and the ports keep a journal of each pass: what
its reads found, every message and what it says, every mark, every mark that reported a failure, every audit row of a
message that was lost. What a process remembers is a function of that journal (`Ledger.After`), so that no contract
rests on a set of the model's own choosing. Instants are whole seconds.

What the proofs turned up, each stated as a member below:

- A reminder is pushed twice by one process only if it stood in a message after one whose audit row could not be
  written: `deliver` returns there, before it marks or remembers the rest. It goes out again exactly when the next scan
  reads it undelivered and deliverable (`CheckPass.Run`, `PushLedger.BehindExactlyWhen`,
  `PassResult.AReminderGoesOutAgainExactlyWhen`).
- A dry run does not foretell two things, both about reminders that name no event, which the gate takes for superseded
  once they are fired and their unit has a one-shot armed. One that the scan itself fires is judged again as a fired one:
  the scan then lapses it, and has it in its queue already, so it retires a reminder and pushes it as well. And one that
  waits undelivered beside a due one-shot of its unit is superseded for the dry run only: the scan has fired the other by
  then, finds nothing armed, and sends it (`DryRun.WhatADryRunForetells`, `DryRun.ARowIsStaleOnceFiredExactlyWhen`,
  `DryRun.ARowIsFreedExactlyWhen`, `DryRun.ARowStaleOnceFiredIsNotForetold`,
  `DryRun.AnUndeliveredRowIsFreedByTheDueLoop`, `DryRun.OneScanRetiresAndPushesExactlyWhen`). A dry run with nowhere to
  speak counts as delivered the rows it fires, none of which a scan would send.
- `Verify` accepts a manifest that lists one file twice, though its comment asks for every listed file once;
  `Extract` then refuses it (`Bundle.AFileListedTwiceIsVerifiedAndCannotBeUnpacked`).
- The comment on `expireStaleQuestions` bounds the open questions by arithmetic alone. With digests further apart
  than the audit window holds, no question is ever closed; the exact cadence is
  `DigestQuestions.TheWindowBoundsTheQueueExactlyWhenItHoldsEnoughDigests`. A digest whose audit row is not written
  asks again on top of it (`DigestQuestions.WithoutItsRowADigestAsksAgain`).
- A poller whose confirm failed after the work was done is stuck until something new arrives: what it handled is skipped
  at every later poll and never confirmed again (`ChannelRunner.Runner.HandleBatch`, `ChannelRunner.Runner.Run`).
- The ring forgets exactly the oldest ids, except that an empty id, once marked, would stay in its index for good; no
  transport of the program gives a message an empty id, so none arrives today
  (`DedupRing.ExactUnlessAnEmptyIdWasEvicted`, `DedupRing.AnEmptyIdIsNeverForgotten`).

## Model

| member | source | states |
|---|---|---|
| CheckPass.Run | internal/brain/check.go:159-353 | over any number of processes and scans, whatever fails: a timer goes out at most once ever; a reminder goes out again only if, by the events the ports recorded, in a pass before that its mark failed or it stood in a message after one whose audit row was lost; unless it stood like that, never more often than there were processes; while no audit row is lost nothing is left behind, and while nothing fails nothing goes out twice; the messages of every pass are pushes that word their reminders and at most one digest, of what that pass read; every pass marks only after a message that says it; an item marked after one digest is in no later one |
| CheckPass.Live | internal/brain/check.go:143-353 | one process, scan after scan: what it has pushed, left unmarked and left behind is exactly what the events of its scans leave; what it pushes again was left so before; each scan kept its order and said only what it read; no digest says again what one before it was seen with |
| CheckPass.Runner.constructor | internal/brain/check.go:81-91 | a new process remembers nothing; what a restart forgot is exactly what the passes so far left unmarked or behind |
| CheckPass.Runner.At | internal/brain/check.go:159-353 | one scan: no reminder is in two of its pushes, and one pushed before was left behind; every mark comes after a message of this scan that says it, stamps strictly increasing in the order shown, message after message and within one message from first to last, stale rows retired only after their unit was planned; however it ends, its messages are pushes that word their reminders and at most one digest, of what it read, whose marks are on their rows; what it remembers in the end is what its events leave; an error points to what failed; everything it fired is in a message it tried even when it aborts, or the messages of its queue, whose rows are as it read them, were tried in order up to one about which something could not be written; a dry run writes, sends, records and remembers nothing; one that ends well went through all the rows there were, did what the verdicts say when no write was lost, tried to say exactly the reminders it fired or queued again, and left one audit row for each effect it reports and each race it lost |
| CheckPass.Runner.SettleAndPush | internal/brain/check.go:166-338 | the rows and timers due are settled, the stale re-planned, and everything queued is pushed; a scan that aborts before its push still tries every reminder it had fired, in the messages of its queue, in order, up to one about which something could not be written; the queue holds each row once, as this scan read it |
| CheckPass.Runner.Settle | internal/brain/check.go:166-329 | the counts are those of the verdicts on all the rows read; the queue then holds exactly what was fired and what is queued again; a dry run counts the same and what it would push |
| CheckPass.Runner.DueLoop | internal/brain/check.go:188-240 | when no write is lost, the fired and expired counts, the parked rows and the settled rows are what the verdicts alone say, the settled rows have moved, and the queue holds exactly the fired ones; a dry run changes nothing and fails exactly when a row cannot be judged |
| CheckPass.Runner.DueOne | internal/brain/check.go:193-239 | one row parked, left, fired or expired as its verdict says, counted only when its write landed, each with its audit row; a reminder that cannot be pushed is said once a process |
| CheckPass.Runner.FireAndDeliver | internal/brain/deliver.go:30-59 | a row is queued exactly when this pass moved it out of armed and recorded it, so no process queues a row it already pushed; otherwise the race lost is recorded |
| CheckPass.Runner.LeaveArmed | internal/brain/deliver.go:71-89 | one conditional write takes the row out of armed and succeeds only on an armed row; a recurring row leaves a new armed one, its next occurrence, in the same write |
| CheckPass.Runner.Retire | internal/brain/reminder_gate.go:141-164 | an armed row is expired, an undelivered one lapsed, and the row is then over, with its audit row; after a conflict the row is no longer such a row, and that is recorded; a dry run reports it and writes nothing |
| CheckPass.Runner.Deliver | internal/brain/deliver.go:102-181 | one message is tried for the group when there is somewhere to speak, and goes out whole or not at all; a failed send marks nothing and is said once an outage for each reminder; after a successful one without error every row is surfaced or over and counted; where an audit row is lost exactly the rows after it are left behind; an error points to a reminder of this message |
| CheckPass.Runner.SayUndelivered | internal/brain/deliver.go:112-143 | one audit row for each reminder, or for each not yet said in this outage, which then counts as said |
| CheckPass.Runner.MarkRow | internal/brain/deliver.go:152-179 | a row that went out and could not be marked is remembered by the process, one that lost a race is already over; where its audit row is lost, exactly the rows after it are left behind |
| CheckPass.Runner.MarkSent | internal/brain/deliver.go:148-181 | every row of the message is marked even when an earlier one could not be, up to an audit row that is lost, at some position; exactly the rows after that position are then left behind; without error each row was delivered or had lost a race |
| CheckPass.Runner.Flush | internal/brain/render.go:57-69 | the queue is emptied before anything is sent; one message for each unit queued, first found first, rows by instant then id, all of them tried or those up to one about which something could not be written; nothing goes out twice in a flush; every reminder pushed was delivered, with its audit row, or moved on by another |
| CheckPass.Runner.TimerOne | internal/brain/check.go:268-320 | a timer is sent only by the scan whose write fired it, at most once ever; a lost race is recorded and skipped |
| CheckPass.Runner.TimerLoop | internal/brain/check.go:248-323 | when no write is lost every due timer has moved as its verdict says, those fired are tried once each, in order, and the counts are the verdicts' own; a dry run counts the same and changes nothing |
| CheckPass.Runner.Replan | internal/brain/reminder_step.go:41-118 | the stale rows are those the due loop parked and the late or superseded of all the undelivered ones, and those of units that can be planned for are retired; queued again are exactly the undelivered pushes that are deliverable, not touched by this pass and not remembered as sent |
| CheckPass.Runner.SortUndelivered | internal/brain/reminder_step.go:46-66 | the late and superseded set apart from those to push again, none of which this process pushed unless it is `behind` |
| CheckPass.Runner.RetireStale | internal/brain/reminder_step.go:68-102 | every unit with a stale row is gone through once and planned at most once; its rows are retired only after it was planned; nothing of a unit that cannot be read is planned or retired; all the other rows are over, or were moved on by another, each counted |
| CheckPass.Runner.RetireUnit | internal/brain/reminder_step.go:83-101 | one unit: planned first, then its rows retired, or held with nothing written |
| CheckPass.Runner.ReplanUnit | internal/brain/reminder_step.go:124-203 | a unit is held exactly when it cannot be read, and nothing of it is then written; one that is owed nothing is gone through with nothing written; otherwise its plan is written once and recorded |
| CheckPass.Runner.OpenCheckins | internal/brain/digest_checkin.go:31-82 | asked again are the three longest waiting (by stamp, then id) of exactly the open check-ins whose step is to ask again; those whose time is up are over, and signalled, when no write was lost; a skipped re-ask is recorded once a morning |
| CheckPass.Runner.CloseCheckin | internal/brain/digest_checkin.go:86-104 | a check-in nobody answered is over, recorded and then signalled as ignored, or another moved it on and that is recorded; a signal that fails is an error |
| CheckPass.Runner.SplitPast | internal/brain/reminder_gate.go:111-127 | past are exactly the rows whose event passed; carried exactly those not stale that are not pushes |
| CheckPass.Runner.KeepPending | internal/brain/digest.go:83-116 | of all the rows fired and unseen, those whose event is past are lapsed, each with its audit row, and those a digest may carry returned |
| CheckPass.Runner.SweepQuestions | internal/brain/digest.go:777-813 | the open questions enough digests went out on, by the audit rows read, are closed in order, each with its row, up to the first that cannot be; a dry run closes none |
| CheckPass.Runner.GatherDigest | internal/brain/digest.go:50-180 | nothing is read or written when no digest is owed; otherwise the questions due are closed first, what is to be said is what the rows read come to, and those whose event is past are lapsed before anything is composed |
| DigestPass.ReadyOf | internal/brain/digest.go:128-180 | no question and no goal check-in on a low-energy morning; a question row exactly when a question is asked, and goal words only for a goal check-in |
| CheckPass.Runner.SendDigest | internal/brain/digest.go:182-312 | at most the one message that fits is tried; marks follow only if it went out, and only after the focus it was ranked by became the incumbent; then all it said is marked, its audit row written, and one for each item held back; a message that did not go out leaves one row that says so |
| CheckPass.Runner.MarkItems | internal/brain/digest.go:251-255 | every item of the message is marked surfaced, in the order shown; a row moved on by another is an error here |
| CheckPass.Runner.MarkReasked | internal/brain/digest.go:256-264 | every check-in asked is restamped and counted in one write; one another moved on is recorded and skipped |
| CheckPass.Runner.MarkGoal | internal/brain/digest.go:265-279 | the goal check-in is fired and then surfaced, both after the message that asks it |
| CheckPass.Runner.MarkQuestion | internal/brain/digest.go:280-292 | the question is marked asked after the message that asks it |
| CheckPass.Runner.MarkDigest | internal/brain/digest.go:246-292 | after the send, everything said is marked, in the order shown: each item, each check-in asked again, the goal check-in fired then surfaced, the question; every mark was said and no message follows |
| CheckPass.Runner.RecordSent | internal/brain/digest.go:293-309 | the digest's row, then one row for each item held back, which is what later mornings count |
| CheckPass.Runner.ReadFocus | internal/brain/digest.go:389-400 | a focus that cannot be computed leaves one row and does not stop the digest; nothing is recorded when there is nowhere to speak |
| CheckPass.Runner.SayDigest | internal/brain/digest.go:208-244 | the first form that fits is tried; once it went out, and only then, the focus it was ranked by becomes the incumbent, before anything is marked |
| CheckPass.Runner.AssembleDigest | internal/brain/digest.go:38-312 | a digest is tried exactly when one is owed and there is something to say by what was read; however it ends, no message goes out but the digest of what was read, the first in drop order that fits, of the split ranked by the focus when there is one, and what it marked is on its row; a dry run composes it without a focus, counts what it would carry, and stops |
| DigestPass.ADigestSaysAllItIsHeldTo | internal/brain/digest.go:208-292 | each id a digest may mark is in its text: the item's line, the check-in's question, the relation question, or the goal's words if it has any |
| DigestPass.EveryMarkWasTold | internal/brain/digest.go:208-292 | whatever failed and however the pass ended, each surfaced, re-asked, goal or question mark follows a message of the same pass that tells of what it marks: a push that words it, or the digest of what was read with its line in the text |
| DigestPass.EachItemWasPending | internal/brain/digest.go:83-116 | every item a digest carries is a row it read fired and unseen, whatever the focus ranks |
| DigestPass.NeverCarriedAgain | internal/brain/digest.go:251-255 | an item whose mark after a digest landed is carried by no later digest |
| DigestPass.TheLongestWaitingAreAsked | internal/brain/digest_checkin.go:69-82 | at most three are asked, each to be asked again, and one left out waited no longer than any asked |
| DryRun.WhatADryRunForetells | internal/brain/check.go:129-158 | of a scan that loses no write and is alone, each judging fired rows by what is armed when it reads: the same due, fired, expired and timer counts; the lapsed differ by the rows the scan fires that are stale once fired, less the undelivered that only the dry run takes for superseded, and are the same if and only if these are as many; the reminders its messages say are those the dry run counts as delivered and those of the second kind that are sent, each once |
| DryRun.TheSameAreKeptExactlyWhen | internal/brain/digest.go:83-116 | a dry run and the scan keep the same rows for the digest if and only if the scan fires none that it could not say and its digest then carries |
| DryRun.ADryRunPacksTheDigestThatIsSent | internal/brain/digest.go:182-206 | and then what the dry run packs is the digest the scan sends, to the letter, with as many items carried, provided both ask the same check-ins again, the store lists unseen rows in one order (fired_at, id), and no focus ranks a low-energy morning anew |
| DryRun.ARowIsFreedExactlyWhen | internal/brain/reminder_gate.go:95-101 | an undelivered row is superseded for the dry run only, and sent by the scan, if and only if it names no event, its unit has one-shots armed and the due loop fires or expires every one of them, and it is not late (deliverable and not remembered) by itself |
| DryRun.ARowIsStaleOnceFiredExactlyWhen | internal/brain/reminder_gate.go:95-101 | a push the scan fires is lapsed by its re-plan step if and only if its unit can be planned for and it is late by itself once fired, or it names no event, is not past, and its unit has another one-shot the due loop leaves armed |
| DryRun.ARowStaleOnceFiredIsNotForetold | internal/brain/reminder_gate.go:66-101 | a due one-shot that names no event, whose unit has another armed: the dry run lapses nothing, a scan whose send fails lapses it |
| DryRun.AnUndeliveredRowIsFreedByTheDueLoop | internal/brain/reminder_gate.go:95-101 | an undelivered one-shot that names no event, beside the one armed one-shot of its unit, which is due: the dry run says one lapsed and one delivered, the scan lapses nothing and sends both |
| DryRun.TheDigestJudgesAlike | internal/brain/reminder_gate.go:111-127 | which fired rows a digest may carry and which it lapses does not depend on what is armed, so one judgment of a fired row serves a scan |
| DryRun.OneScanRetiresAndPushesExactlyWhen | internal/brain/reminder_step.go:41-118 | one scan both retires a reminder and says it if and only if it fires a push that is stale once fired |
| PassResult.QueuedAreTried | internal/brain/check.go:325-338 | a message is tried for exactly the reminders the verdicts fire and those queued again |
| PushLedger.EveryQueuedRowIsTried | internal/brain/render.go:57-69 | every queued reminder is in one of the messages a flush tries, and nothing else is |
| PushLedger.AllFiredAreTried | internal/brain/check.go:175-185 | every reminder a scan fired is in a message it tried, unless something about a queued one could not be written |
| PushLedger.OneLifeMore | internal/brain/check.go:415-417 | one more process adds at most one push of a reminder it did not leave behind |
| PushLedger.BehindExactlyWhen | internal/brain/deliver.go:173-178 | left behind is exactly what stands in a push after a reminder whose audit row was lost |
| PushLedger.UnmarkedExactlyWhen | internal/brain/deliver.go:164-172 | left unmarked is exactly what a push said and whose mark reported a failure |
| PushLedger.LeftBySomePass | internal/brain/check.go:415-417 | over a history, what may go out again is what some pass left unmarked or behind, and nothing else |
| PassResult.AReminderGoesOutAgainExactlyWhen | internal/brain/reminder_step.go:46-66 | a reminder that went out is tried again by a scan that loses no write if and only if it is read fired and unseen, a push and deliverable, and not remembered as unmarked; and then it was left behind, or forgotten by a restart |
| CheckPass.OneLife | internal/brain/check.go:81-91 | one process from start to end: what it remembered then is what its passes left, beginning with nothing; its passes kept their order and repeated nothing but what was left |
| DueTally.SplitIsWhole | internal/brain/reminder_step.go:68-81 | a unit's stale rows and the rest are all the stale rows, each once |
| DueTally.FirstFailureStops | internal/brain/check.go:188-192 | a row that cannot be judged ends the loop whatever comes after it |
| DueTally.TheTallyIsTheVerdicts | internal/brain/check.go:188-240 | the due loop moves exactly the rows whose verdict fires or expires them, each counted once, and parks exactly those to plan again |
| DueTally.AnUnseenRowHasOnePlace | internal/brain/reminder_gate.go:106-127 | a fired row nobody saw is pushed again, planned again, carried by the digest or lapsed by it, never two of these; one that is deliverable or past has one of them unless this pass or this process had it already |
| PushQueue.Queue.Groups | internal/brain/render.go:29-54 | one group for each unit in the order its first row was queued, one for each row of no unit, each holding exactly its rows, sorted by instant then id |
| PushQueue.EachRowGoesInOneMessage | internal/brain/render.go:28-54 | every queued row is in a group, no row in two, and a group is about one unit |
| PushQueue.SurfaceStamps.Take | internal/brain/check.go:613-628 | each stamp is at or after now and after every stamp before it |
| RowOrder.Sort | internal/brain/render.go:45-52 | the same rows, by instant and then id |
| Stores.TriggerStore.Leave | internal/store/sqlite/triggerrepo.go:194-204 | succeeds only on an armed row; no row is deleted or moved back, by it or by others around it |
| Stores.TriggerStore.Read | internal/store/sqlite/triggerrepo.go:163-188 | all the rows that satisfy the condition at that moment, each once |
| Stores.TriggerStore.Surface | internal/store/sqlite/triggerrepo.go:231-240 | surfaced_at is written only on a fired row that has none; a conflict means the row is not such a row |
| Stores.TriggerStore.Rearm | internal/store/sqlite/triggerrepo.go:206-229 | the row leaves armed and its successor is created, both or neither |
| Stores.TimerStore.Leave | internal/store/sqlite/timerrepo.go:159-186 | succeeds only on a pending timer, and what a timer came to stays |
| Series.SeriesNeverStopsNorForks | internal/brain/deliver.go:71-89 | in every state of every interleaving of scans with stale copies, the series of every row that has a rule has exactly one armed occurrence; rows are armed with a rule and an anchor or with neither (internal/brain/capture.go:1143-1147) |
| Series.LeaveKeepsOneArmed | internal/brain/deliver.go:71-89 | one leave of any copy, landed or lost, leaves a series with one armed occurrence |
| Series.StepKeepsInv | internal/brain/reminder_gate.go:141-164 | no scan, surface, lapse, move, arm or restart breaks it |
| Series.ARowIsLeftOnce | internal/store/sqlite/triggerrepo.go:206-229 | in every run, a row that has left armed stays so, and no scan with any copy of it can leave it again |
| Series.ALeaveGoesOnExactlyWhenItsCopyRecurs | internal/brain/deliver.go:71-89 | when a scan takes the one armed row of a series out of armed, one occurrence is armed after it if and only if the copy it held has both a rule and an anchor |
| CatchUp.AttemptsAreConsecutive | internal/brain/reminder_step.go:245-284 | in every state of every interleaving, the attempts used for one unit and event instant are exactly 1 to the number of creates that won |
| CatchUp.ARacedCreateAddsTheNextAttemptOrNothing | internal/brain/reminder_step.go:265-283 | a create adds the next attempt and nothing else, or, having lost the race, nothing |
| CatchUp.NextAttempt | internal/brain/reminder_step.go:257-263 | the loop over the ids already used, in any order |
| CatchUp.ScanIsOnePastTheLargest | internal/brain/reminder_step.go:257-263 | whatever order the rows come in, the next attempt is past every attempt among them and not past the next free one |
| CatchUp.AtoiOfItoa | internal/brain/reminder_step.go:260-264 | an attempt written into an id is read back as itself |
| CatchUp.InstantsDoNotMeet | internal/brain/reminder_step.go:257 | two instants of one unit never read each other's attempts |
| DigestText.GroupLines | internal/brain/digest.go:588-617 | every carried item is in exactly one line; a line is a due task with its unit's reminders, one unit's reminders, or one reminder of no unit |
| DigestText.Shorten | internal/brain/digest.go:619-632 | the loop ends at the first message in drop order within 4096 UTF-16 units, or at the last there is |
| DigestText.DigestMessage | internal/brain/digest.go:587-646 | the text, the items it holds, the check-ins it asks and the tasks it names are those of one grouping and one number of things dropped, the first that fits |
| DigestText.SentAndLeftAreTheCarried | internal/brain/digest.go:633-637 | items sent and items left are together exactly the carried ones, and a line is sent or left whole |
| DigestText.ReasksGiveWayFirst | internal/brain/digest.go:622-632 | the check-ins asked again give way before any line, the last line never does |
| DigestText.AMorningHasOneMessage | internal/brain/digest.go:587-646 | what a morning has to say fixes the text, the items sent and the check-ins asked |
| DigestText.OneLineAUnit | internal/brain/digest.go:593-617 | two items of one unit are in one line |
| DigestText.TheTextSaysWhatItHolds | internal/brain/digest.go:650-690 | the text carries every line kept, every check-in asked, the goal's words and the question |
| DigestText.WhatIsMarkedIsSaid | internal/brain/digest.go:633-646 | every item the caller will mark has its line in the text, every check-in asked its question |
| DigestQuestions.ExpireStaleQuestions | internal/brain/digest.go:777-813 | closes and records exactly the questions enough digests went out on, in order, up to the first that cannot be closed or recorded; a dry run closes none and counts the same |
| DigestQuestions.ClosedOrLeft | internal/brain/digest.go:786-811 | each open question is closed or left, once |
| DigestQuestions.HeldCounts | internal/brain/digest.go:489-505 | each item's held digests, counted from the rows that can be read |
| DigestQuestions.OpenQuestionsAreBounded | internal/brain/digest.go:771-776 | while the window covers the open questions, at most three stay open after a sweep besides those whose digest left no row, and one more is asked |
| DigestQuestions.WindowKeepsTheCount | internal/brain/digest.go:20-28 | the window changes no count as long as it holds the rows counted |
| DigestQuestions.TheWindowBoundsTheQueueExactlyWhenItHoldsEnoughDigests | internal/brain/digest.go:20-28 | with digests at a steady gap the queue is bounded if and only if three of them fit the window, else every question stays open |
| DigestQuestions.WithoutItsRowADigestAsksAgain | internal/brain/digest.go:280-309 | any number of digests whose audit rows are not written leave as many questions open |
| ChannelRunner.RunAcrossRestarts | internal/channels/runner.go:58-109 | over any restarts no message is acknowledged before a handler call on it succeeded |
| ChannelRunner.Runner.Run | internal/channels/runner.go:58-109 | nothing is lost over any polls; the waits are those of the streak of polls without progress, a failed poll being one, an empty batch not, and a batch that reports progress having moved the cursor; it ends early only on a refused credential; when everything past the cursor was handled by this process, nothing moves until something new arrives |
| ChannelRunner.Runner.HandleBatch | internal/channels/runner.go:129-161 | nothing is acknowledged before it was handled; a batch reports progress only when it was empty or the cursor moved; one in which no handler call and no confirm failed leaves nothing unhandled and makes progress if and only if it is empty or brings something not remembered; a batch of redeliveries moves nothing; a process handles one message again only after more than 256 others |
| ChannelRunner.Runner.HandleOne | internal/channels/runner.go:140-158 | handled, then marked, then confirmed; a failed handler marks and confirms nothing |
| ChannelRunner.BackoffForFailures | internal/channels/runner.go:171-183 | doubles from the base with each failure, capped |
| ChannelRunner.WaitsNeverShrinkWhileNothingMoves | internal/channels/runner.go:96-108 | while nothing moves each wait is at least the one before and at most the cap |
| DedupRing.Ring.Mark | internal/channels/dedup.go:49-60 | the ring and its index together take one new mark, the oldest evicted when full; a known id changes nothing |
| DedupRing.RingHoldsTheLastNewMarks | internal/channels/dedup.go:26-64 | after any marks the ring holds the last new ones, at most its capacity |
| DedupRing.ExactUnlessAnEmptyIdWasEvicted | internal/channels/dedup.go:44-60 | what is remembered is exactly the last new marks if and only if no empty id was evicted |
| DedupRing.AnEmptyIdIsNeverForgotten | internal/channels/dedup.go:54-56 | an empty id stays remembered after its slot was reused |
| DedupRing.Ring.TheIndexIsBounded | internal/channels/dedup.go:62-64 | the index holds the ids of the slots and no others, but for the one empty id it cannot forget |
| BundleNames.CheckName | internal/bundle/bundle.go:140-150 | accepts exactly the safe names |
| BundleNames.NameIsSafeExactlyWhen | internal/bundle/bundle.go:140-150 | the fixed point of path.Clean and the Windows rules together accept exactly the names without a backslash whose every segment is non-empty, not "." or "..", and not reserved |
| BundleNames.SafeNamesStayInsideAndApart | internal/bundle/bundle.go:314-335 | a safe name unpacks strictly inside the directory, and two safe names unpack to different places |
| Bundle.Write | internal/bundle/bundle.go:76-135 | succeeds exactly when every name is safe, none repeats or is the manifest's, every source is read and the output takes every part; the zip is the sources in order, then the manifest of their bytes; when it fails what was written is a beginning of that, and nothing when a name is refused |
| Bundle.Verify | internal/bundle/bundle.go:188-257 | returns a manifest exactly when the zip and that manifest agree entry for entry, no two names fold to one, every entry is regular and nothing is unlisted |
| Bundle.CheckEntry | internal/bundle/bundle.go:283-305 | accepts exactly an entry whose declared size, real size and hash are the listed ones, and takes at most one byte past the listed size |
| Bundle.ReadManifest | internal/bundle/bundle.go:259-277 | decodes a manifest within the bound and refuses a larger one |
| Bundle.VerifyAcceptsWhatWasWrittenExactlyWhen | internal/bundle/bundle.go:71-117 | Verify accepts what Write wrote, as the same manifest, if and only if the required files are there, the names (the manifest's included) fold apart, and the manifest is within 1 MiB |
| Bundle.Extract | internal/bundle/bundle.go:307-335 | into an empty directory: exactly the listed files with their checked bytes and the folders on the way; on a sound disk it fails only if a file does not match or two paths collide |
| Bundle.ExtractFile | internal/bundle/bundle.go:339-367 | replaces nothing; size and hash are checked again on the bytes written |
| Bundle.AboveIsADirectory | internal/bundle/bundle.go:331 | one path runs into another exactly when it is that name or a directory of it |
| Bundle.ApartExactlyWhenNoneNested | internal/bundle/bundle.go:324-334 | listed paths collide exactly when a name is the directory of another |
| Bundle.BundleAndRestore | internal/bundle/bundle.go:71-367 | bundling, verifying and extracting, where the output and the disk are sound, restores exactly the source bytes at their paths if and only if the sources are bundleable and acceptable and no name is the directory of another; whenever it succeeds it did |
| Bundle.VerifiedFilesUnpack | internal/bundle/bundle.go:180-187 | every file of a verified bundle matches when it is unpacked |
| Bundle.AFileListedTwiceIsVerifiedAndCannotBeUnpacked | internal/bundle/bundle.go:229-243 | whatever the files hold and however they are hashed, a manifest that names the database twice and decodes to itself agrees with its zip and cannot be unpacked |
| DeriveScreen.Derive | internal/brain/consolidate.go:628-708 | for every proposal: it is shielded (skipped) if and only if it derives a retired key, or its vector is unusable while retired beliefs exist, or a retired belief is near enough and no active one nearer; otherwise it reinforces the user's belief of that key, else the nearest active one, is created only when there is neither, and is skipped only when the store refused it; only a failed write ends it early, and only an embedding failure or an active belief's own vector stops the night |
| DeriveScreen.EmbedForMerge | internal/brain/consolidate.go:1083-1156 | pending proposals split into usable and unusable and retired beliefs into compared and dropped, each once, in order, with its own vector and cause, against one reference length |
| DeriveScreen.OnlyAnActiveBeliefCanStopTheMerge | internal/brain/consolidate.go:1009-1033 | every proposal and retired vector handed to the merge is finite, not zero and of the reference length, so the merge fails exactly when the active vectors are not usable together |
| DeriveScreen.MergeProposals | internal/core/consolidation/derive.go:140-193 | fails exactly on a refused or ragged existing vector or an unusable proposed one; otherwise each decision names a nearest existing belief at or above the cosine, or none |
| DeriveScreen.MergeAgainst | internal/brain/consolidate.go:724-743 | decisions are told apart by the proposals' own indices, one each |
| DeriveScreen.PersistRoutes | internal/brain/consolidate.go:761-820 | one outcome a proposal, in order, up to the first write or row that fails; an unusable one while retired beliefs exist is only a skip row; a refused write is a skip; a belief that cannot be reinforced further is left alone |
| DeriveScreen.ComparedIsRight | internal/core/consolidation/shield.go:112-128 | the first rule that matches decides, a tie going to the retired belief |
| DeriveScreen.Normalizes | internal/core/recall/vector.go:138-157 | refuses a component that is not finite before it refuses a vector of no magnitude |
| DeriveScreen.DecodeDerivedBeliefs | internal/brain/consolidate.go:973-1004 | keeps the sound candidates, the first of each topic key, in order |
| DeriveScreen.EachKeyIsProposedOnce | internal/brain/consolidate.go:960-972 | no key is proposed twice in one response and no soundly proposed key is dropped |
| DeriveScreen.TheFirstOfAKeyStands | internal/brain/consolidate.go:960-972 | of two candidates of one key the first stands |
| FollowUp.ConversationFor | internal/brain/followup.go:86-135 | the prompt shows every turn with the positions of exactly its lettered units, and each lettered unit as it stands now |
| FollowUp.LetteredUnitsAreLiveDistinctAndInOrder | internal/brain/followup.go:79-85 | at most twenty units are lettered, each live, named and once, in the order they first appear |
| FollowUp.OnlyNewerUnitsTakeALetterAway | internal/brain/followup.go:107-115 | a live unit goes unlettered only when turns at least as new as every turn naming it take all the letters |
| FollowUp.TheNewestUnitsAlwaysHaveALetter | internal/brain/followup.go:79-83 | while the turns from some turn on name no more live units than there are letters, each of them has one |
| FollowUp.About | internal/brain/followup.go:125-134 | a turn's positions name exactly its lettered units, in the turn's order |
| FocusEdges.FocusKeeper.Compute | internal/brain/focuskeeper.go:70-121 | a round is what direct reads of each member would give, both kinds selected against one snapshot, and there is none exactly when one of those reads fails; one relation read for each distinct member of the two snapshots, one threshold read for each type; nothing is stored |
| FocusEdges.EdgeCache.Edges | internal/brain/focuskeeper.go:137-163 | the memoised sweep is the sweep that reads each member directly, dormant relations dropped, in order, failures included |
| FocusEdges.EdgeCache.MemberEdges | internal/brain/focuskeeper.go:141-158 | a member's relations are read the first time it is swept and never again |
| FocusEdges.Bars.Awake | internal/brain/awake.go:49-61 | the relations without the dormant ones, in order, each type's bar read at most once; none exactly when a bar cannot be read |
| FocusEdges.FirstAwakeQuestion | internal/brain/awake.go:68-86 | the first question that is not asleep decides: it is found, or its bar could not be read; bars are read once a type and only as far as needed; without a relation store the first question is found |
| FocusEdges.SweepFailsExactlyWhen | internal/brain/focuskeeper.go:137-163 | a sweep fails exactly when some member's relations or one of their bars cannot be read |
| FocusEdges.FocusKeeper.Publish | internal/brain/focuskeeper.go:175-179 | what is held becomes the round's next incumbent, both kinds at once |
| FocusEdges.HeldIsAlwaysOneWholeRound | internal/brain/focuskeeper.go:175-179 | however writers interleave, what is held is what one step published: the two selections one writer computed in one round, against the snapshot it had loaded, which was held before; never a mix of two writers |
| FocusEdges.Score | internal/brain/focuskeeper.go:99-106 | each member carries the very score this round's ranking gave it, in the order selected |
| EnvFile.ParseEnvFile | internal/config/dotenv.go:37-73 | the line loop, error lines included |
| EnvFile.AcceptedExactlyWhenItDeclares | internal/config/dotenv.go:21-36 | a text is accepted as a map if and only if every line is blank, a comment or a good assignment, no key is assigned twice, and the map is exactly what they assign |
| EnvFile.WrittenReadsBackExactlyWhen | internal/config/dotenv.go:37-105 | KEY="value" lines parse back to the same map if and only if every key is valid and no value holds a newline |
| EnvFile.AcceptedIsClean | internal/config/dotenv.go:76-105 | every accepted key is valid and no accepted value holds a newline |
| EnvFile.Environment.ApplyEnv | internal/config/dotenv.go:122-132 | every variable already set keeps its value, the rest come from the file, a second application changes nothing; it fails exactly when the system refuses a variable to be set |
| YamlDocuments.SecondDocument | internal/config/decode.go:87-110 | true exactly when a marker line follows a line that started a document and something stands on that marker or later |
| YamlDocuments.IdleLinesNeverMatter | internal/config/decode.go:82-86 | adding or removing a blank or comment line never changes the verdict |
| YamlDocuments.AFramedStreamHoldsASecondExactlyWhen | internal/config/decode.go:82-86 | after comments and directives and one marker there is a second document if and only if another marker has content on it or after it |

## Left out

- The verdicts, plans and wording of `internal/core` (prospection, phrase, recall fusion, focus ranking): parameters, any function. The merge, the shield's routing rules and vector normalisation are modelled because the derive results need them.
- CheckPass.Runner.ReplanUnit: what a plan writes for a unit (`reminderSet.apply`, `refuse`, in files outside this model) is any change to armed or new rows; which unit, when and once, and its place before the retirements are modelled. `armCatchUp` is modelled on its own in `CatchUp.dfy`.
- SQL, JSON, YAML, zip and SHA-256: rows are maps behind conditional writes, an archive is its entries, the hash, the fold and the encoding are functions; the zip format's limit on a name's length is not modelled.
- Bundle.VerifyAcceptsWhatWasWrittenExactlyWhen: asks that the manifest decode to itself, which JSON gives for names and versions that are valid UTF-8.
- Bundle.BundleAndRestore: asks the same of the manifest it writes; case-insensitive collisions of directory names on the unpacking system are not modelled.
- CheckPass.Runner.At: starts with stamps and a queue not used yet and an empty record of the pass's events, all made by `Live` for each scan; the instants, verdicts, texts and digest inputs of one scan are its `Core`, any values, one judgment for each row and state over the whole scan (`DryRun.TheDigestJudgesAlike`); `conv.Add` (the chat turn a message becomes) is not modelled.
- CheckPass.Run: a check-in asked again is in several digests by design, and a goal check-in whose mark failed is then a push like any other; neither is bounded as a digest item.
- CheckPass.Runner.Deliver: a send that reports failure is taken not to have reached the user, so a message lost only in its answer is not counted as a push.
- CheckPass.Runner.AssembleDigest: the focus round is `FocusEdges.dfy`'s; here it is any second split of the same items.
- CheckPass.Runner.OpenCheckins: the snoozes read from the audit trail are part of the arbitrary step function.
- DryRun.WhatADryRunForetells: compares with a scan that nobody else writes around; what others change between the two is not foretold, and the carried count is `DryRun.ADryRunPacksTheDigestThatIsSent`'s.
- EnvFile.ParseEnvFile: the line scanner's 64 KiB line limit and I/O errors are not modelled.
- CatchUp.AttemptsAreConsecutive: runs shorter than the largest 64-bit integer.
- CheckPass.Runner.TimerLoop: the order of due rows and timers as the store sorts them is not fixed; any order is covered.
- Mutexes and goroutines: other processes and passes are modelled as changes to rows between any two calls, one process's own scans as sequential.
- The consolidation phases other than derive, the corrupted-id report, capture, correction, answers, HTTP, Telegram, the UI and the CLI.
- Time zones, daylight saving, the audit rows' rationale texts, the delay caveat, and the languages a message speaks.
