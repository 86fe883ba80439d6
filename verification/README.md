# Clockit, modelled and proved

Clockit is a shift clock. A phone clocks workers in and out, queueing taps while it is offline; a server judges where
and when each tap was made and stores it with single database commands; an employer's web page lays the shifts out on a
calendar and turns them, with the day's tips, into a payroll report and a CSV file. This project is a Dafny model of the
parts of that where interleavings, integer money or layout make the behaviour hard to see, and a proof of what they
promise. `dafny verify dfyconfig.toml` checks all of it.

## How the model is laid out

**The clock protocol.**
`Geo` holds the location rules. `Entries` is the `time_entries` collection: documents, the single commands that change
them, and what the two unique indexes enforce. `Requests` is the protocol as a state machine: a request is a program
counter with its locals, a world is the history of what steps could read, and an event is one atomic step of one
request, a failure, the clock, or a change of anchors or memberships. `Server` is the same machine as an object whose
methods read and write its collections; each method call is one event of the world, and the object carries the run it
has made, so the theorems about runs are theorems about it. `Lifecycle`, `WholeMilliseconds`, `AnswersAreTrue`,
`RepliesAreSnapshots`, `EvidenceIsSound`, `RefusalsHaveGrounds`, `PingsLeaveMarks` and `Closable` prove what every run
keeps; `AnswersInFull` tells each answer field by field against the call that got it, and `Provenance` traces every
document back to calls. `Replay` adds a phone draining its queue over a network that loses requests and replies and
leaves timed-out copies running, the live attempts at its taps among them, with further taps joining on the way;
`Convergence` proves that the taps still take effect once each, in order, and `DrainsFinish` that from every state of
such a drain the queue can be emptied. `EarlyTaps`, `LateCloses` and `OutOfOrderDiverges` draw the limits of that: the
live tap that overtakes the queue, the close that comes late, and taps captured out of order.

**The phone.**
`Queue`, `Merging` and `Outbox` are the offline queue: its pure pieces, its merge, and its whole life over taps, flushes,
drains, replies, kills and sign-out, the promise that guards the drain modelled apart from the drains themselves.
`OutboxConserves`, `StorageLoses` and `SignOutIsClean` prove what every run of it keeps, when it cannot, and what a
sign-out leaves; `OutboxStores` is the store that refines it. `QueueIsReplayed` shows that the queue `Replay` drains is
this one, and `OutboxConverges` that a run of the outbox beside a run of the server is such a drain, so that convergence
holds of the outbox. `ClockStores` is the write-generation guard over overlapping fetches, `ClockFlows` the two halves of
a tap over both stores, and `TapsAcrossSignOut` what becomes of a tap between its halves when a worker signs out.

**Payroll.**
`Sorting` and `Names` are the sorts and orders the program leans on. `Split`, `SplitOptimal`, `LeftoverCents` and
`SplitMethod` are the largest-remainder division of a tip pool. `Report` builds the report, `ReportIsRight` proves
what it promises and `ReportInFull` spells out its rows and days. `Table`, `ShiftBuckets`, `Money`, `Rfc4180`,
`Export` and `Ledger` take a report to a CSV file and show that a reader of section 2 of RFC 4180 gets back what was
written and that its columns balance.

**The calendar.**
`Segments` cuts shifts into days, `Lanes` places overlapping bars side by side, `Zones` finds the instant a day begins.

Instants on the server are nanoseconds; those a client sends are truncated to milliseconds as its request arrives, before
anything is judged (`StoringTruncatesNothing`). Calendar instants are whole minutes; days are
integers, which four-digit dates order the same way; money is integer cents. What comes from outside (the wall clock,
anchors, memberships, new ids, distances, formatted clock times) is a parameter or an event.

## What the code does where its own text says otherwise

- The comment on `startOfDay` says a repeated midnight yields the second one. It does only when the offset changes no
  later than UTC midnight; west of Greenwich the first one is returned (`WhichRepeatedMidnight`, `EarlierMidnightReturned`).
  `FirstInstantIff` gives exactly when the instant found is the first of its day.
- The comment on `ClockOut` says the entry handed back is the document written. It is the snapshot read earlier with the
  write applied. Over every run the two are the same exactly when, between the read and the write, the last ping did not
  move and no flag was added that neither the snapshot nor the close carried (`ClosedReplyIsTheDocumentIff`);
  `AnswerCanLackAFlag` and `SomeAnswerLacksAFlag` give runs in which a ping batch flags the shift in between and the
  answer lacks the flag. An assignment's answer is built the same way (`AssignedReplyIsTheDocumentIff`).
- A queue already stored can be lost unread. One process, from its launch to the next, loses it exactly when the launch
  read never came back good and a tap or a dismissal was made all the same: the write that follows replaces what was
  never read (`LaunchLosesIff`; `SomeLaunchLoses` is a run that does). Over every run nothing queued is missing exactly when no such loss has happened since
  the last sign-out, and where one has, precisely the items unread then are missing (`NothingIsLostOrReordered`).
- The comment on `wipeLocalState` says a sign-out wipes every device-wide trace of the worker. What is kept and what is
  sent from then on is indeed the next worker's, but for a send already out, which is never made again
  (`NothingSurvivesSignOut`). Until the next dismissal, sign-out or launch a record of that send is there exactly when it
  is answered by a refusal no retry can change (`OldRecordIff`; `ARecordCanOutlive` is such a run).
- Nor does a sign-out reach a tap whose live request is still out. It is queued afterwards, to be sent by whoever is
  signed in, exactly when that request fails in a way a retry may change while the app still runs
  (`QueuedAfterSignOutIff`; `ATapCanCross` is such a run), and it puts the earlier worker's shift on screen exactly when
  it is accepted, or is a close that is refused (`EndExposesIff`). With none out nothing crosses, and the screens show
  the next worker's shifts alone (`WhatTheQueueHolds`, `OnlyTheirOwnIsShown`).
- No index covers close ids. What keeps a late copy of a close off the next shift is the ordering check alone: a close
  about to look for an open shift can go on to close the one there exactly when that shift's clock-in was captured
  before it (`LateCloseIff`). So convergence is proved for taps captured one after another, and `SomeDrainDiverges` is a
  drain of three taps captured out of order that ends otherwise.
- The program promises no order between live taps and the queue. A live clock-in that overtakes it does no harm exactly
  when a shift is running as it reaches its insert (`EarlyClockInHarmlessIff`), a live clock-out exactly when the shift
  it found has been closed by the time it writes (`EarlyClockOutHarmlessIff`).

## Model

| member | source | states |
|---|---|---|
| Geo.FixAcceptedIff | backend/internal/entry/geo.go:36-69 | the rules accept a fix exactly when its reading is sound and the server clock lies between capture less the skew and capture plus the age bound, in plain arithmetic: saturating subtraction never decides a verdict |
| Geo.CloseAcceptedIff | backend/internal/entry/geo.go:71-81 | a queued close has no past bound at all, is never too old, is accepted whenever a clock-in would be, and otherwise fails for the same reason |
| Geo.EachRefusalIff | backend/internal/entry/geo.go:36-69 | which refusal a fix gets, each with its exact condition in plain arithmetic: a rule speaks only where every earlier one is content, and an out-of-range answer carries the distance and the limit |
| Entries.UpdateEvolves | backend/internal/entry/store.go:117-132 | each update operator only moves a document forward: closes once, books once, grows its flags |
| Entries.ExecIsStep | backend/internal/mongox/indexes.go:38-42 | any legal command keeps one document per client id and one open document per user, changes at most one document, and inserts only open ones |
| Lifecycle.History | backend/internal/entry/store.go:208-242 | over a whole history no document disappears, each only evolves, and the clock never runs back |
| Lifecycle.IdsArePermanent | backend/internal/entry/store.go:49-65 | a clock-in id or close id once recorded is found by every later lookup |
| Lifecycle.GapBetweenShifts | backend/internal/entry/handler.go:299-314 | between a shift open at one instant and closed at a later one there is an instant with nothing open |
| WholeMilliseconds.StoringTruncatesNothing | backend/internal/entry/store.go:29-31 | over any run, whatever instants clients send, truncating again as a write is stored changes neither the write nor anything stored, so an entry handed back and one read later agree on every instant |
| AnswersAreTrue.EventKeepsInv | backend/internal/entry/handler.go:160-314 | what every request knows in its locals stays true of the history under any event of any request |
| AnswersAreTrue.EveryAnswerIsTrue | backend/internal/entry/handler.go:160-314 | over any interleaving each answer held at an instant inside its request: created means no such id and nothing open at the insert; a refusal for an open shift means another shift was open with this id absent; nothing to close means neither an open shift nor this close at one moment; a replay names an entry really recorded under the id |
| AnswersAreTrue.EntryLifecycle | backend/internal/entry/store.go:117-132 | between any two reachable worlds every document keeps its keys and start, closes at most once and strictly after it began, is booked at most once and only when closed, with its verdict, and its flags and last ping only grow |
| AnswersInFull.CreatedInFull | backend/internal/entry/handler.go:160-215 | over every run a clock-in answered as created, told against the call: at some instant after it neither a shift under its key nor an open one, at the next this one document more; owner, key, employer and the point field by field are those sent, the time cut to the millisecond; flagged exactly as a queued fix older than the skew is at an instant of the request; and the document stays, with that owner, key and point |
| AnswersInFull.ClosedInFull | backend/internal/entry/handler.go:239-314 | over every run a clock-out that closed a shift, told against the call: the shift was the caller's and open at some instant after it, closed at the next, and the answer and the document for good have the close key sent and the point sent, field by field |
| AnswersInFull.ClosedFlagsInFull | backend/internal/entry/handler.go:225-230 | its flags are those the shift had at an instant of the request, and the backdated one exactly when the fix was queued and older than the skew at an instant of it |
| AnswersInFull.AssignedInFull | backend/internal/entry/handler.go:533-596 | an assignment that succeeded booked the caller's own closed, unbooked entry to the employer named, with the verdict answered, for good |
| AnswersInFull.OtherwiseInFull | backend/internal/entry/handler.go:160-314 | a replay is a document then recorded for the caller under the key sent; a refusal for an open shift had one open and none under the key at one instant; nothing to close had nothing open and nothing closed under the key at one instant |
| Provenance.NothingIsMadeUp | backend/internal/entry/store.go:153-242 | over every run each document was opened by a clock-in its user sent under its key with its point, closed, if at all, by a clock-out its user sent under its close key with that point, booked where its user asked, last pinged at an instant its user sent, and flagged only where its user sent cause |
| RepliesAreSnapshots.CloseReplyIff | backend/internal/entry/store.go:216-242 | a close applied to an earlier snapshot equals the document it leaves exactly when the last ping is the same and every flag there now is in the snapshot or the close |
| RepliesAreSnapshots.AssignReplyIff | backend/internal/entry/store.go:117-132 | an assignment applied to an earlier snapshot equals the document it leaves exactly when last ping and flags are the same |
| RepliesAreSnapshots.ClosedReplyIsTheDocumentIff | backend/internal/entry/store.go:208-242 | over any run a successful close was read at one instant of its request and written at a later one, and its answer is the document written exactly when neither the last ping nor a flag it does not carry came in between |
| RepliesAreSnapshots.AssignedReplyIsTheDocumentIff | backend/internal/entry/store.go:117-132 | over any run the answer of an assignment is the document written exactly when neither last ping nor flags changed between its read and its write |
| RepliesAreSnapshots.AnswerCanLackAFlag | backend/internal/entry/store.go:231-242 | from every reachable world with an open shift not yet flagged and a good close, some interleaving with a ping batch leaves the flag on the document and off the answer |
| RepliesAreSnapshots.SomeAnswerLacksAFlag | backend/internal/entry/store.go:231-242 | from an empty collection there is a run whose close answers without a flag its document has |
| EvidenceIsSound.EventKeepsSound | backend/internal/entry/handler.go:198-230 | every stored point carries the verdict it was judged by, under any event |
| EvidenceIsSound.NoLateOrSilentBackdating | backend/internal/entry/handler.go:225-230 | every stored clock-in was captured between the queued age before and the skew after its acceptance; an event accepted late has left the backdated flag for good; a shift of live events never carries it |
| EvidenceIsSound.LocationVerdictIsSound | backend/internal/entry/handler.go:573-614 | a verified booking has every point within the radius of the anchor its employer held when it was read to judge that point; an assignment records verified exactly when both points are within the one it read |
| EvidenceIsSound.AssignIsNeverRefusedForPosition | backend/internal/entry/handler.go:577-590 | an assignment never answers out of range |
| RefusalsHaveGrounds.EveryRefusalHasGrounds | backend/internal/entry/handler.go:160-314 | over any interleaving each refusal had its ground inside the request: a rule the fix failed by the server's clock against an anchor then held, a membership or employer absent, an entry absent, running or booked; a well-formed ping batch is never refused and a close never for its age |
| RefusalsHaveGrounds.BookingsAreMembers | backend/internal/entry/handler.go:672-701 | a shift is booked to an employer, at clock-in or later, only for someone who was its member during that request |
| PingsLeaveMarks.AcceptedPingsLeaveTheirMark | backend/internal/entry/handler.go:326-370 | an accepted batch was empty, or found nothing open at an instant of the request, or its shift, open at one, has from then on a last ping no earlier than any fix of the batch and the anomaly flag if one was raised |
| Closable.OpenShiftIsNeverStranded | backend/internal/entry/handler.go:239-297 | from every reachable world with an open shift, an unmocked, accurate, in-range queued close captured after the start closes it, under the key and at the point sent, however old and whatever memberships say |
| Closable.PersonalShiftClosesAtItsStart | backend/internal/entry/handler.go:651-658 | a personal shift can always be closed from where it started |
| Replay.InOrderDelivery | mobile/src/stores/outbox.ts:233-265 | delivering the taps once each, in order, leaves each clock-in under its key with its fix field by field, each close on the shift it was tapped for, and the earlier shifts untouched |
| Replay.WhatAReplyDoes | mobile/src/stores/outbox.ts:239-264 | a reply takes the head off the queue unless it is the server's own failure, and a refusal is kept for the record |
| Convergence.MoveKeepsConverging | mobile/src/stores/outbox.ts:233-265 | every send, reply, loss, timeout and server step keeps the server at in-order delivery of what has landed, with every copy still running accounted for |
| Convergence.HeadIsNeverRefused | mobile/src/stores/outbox.ts:239-260 | an outstanding send of the head never comes back as a refusal |
| Convergence.ReplayConverges | mobile/src/stores/outbox.ts:233-265 | once the queue is empty no answer it ever waited for was a refusal and the user's shifts are those of in-order delivery, however sends failed, lost replies or overlapped their own replay, whatever taps joined the queue on the way, and whether the live attempt made before a tap was queued was refused, landed with its reply lost, or is running still |
| Convergence.EveryTapHasItsDocument | mobile/src/stores/outbox.ts:233-265 | the same in documents: with the queue empty every clock-in tapped has a document under its key with its fix, field by field, closed under the key of the clock-out tapped after it with that fix, or open if none was; and any other document of the user was there before, as it is |
| EarlyTaps.EarlyClockInHarmlessIff | mobile/src/lib/clockFlow.ts:293-314 | the live clock-in of a later tap, at its insert while earlier taps are still to land, leaves the shifts those of some in-order delivery exactly when a shift is running |
| EarlyTaps.EarlyClockOutHarmlessIff | mobile/src/lib/clockFlow.ts:340-358 | the live clock-out of a later tap, at its write while earlier taps are still to land, leaves the shifts those of some in-order delivery exactly when the shift it found has been closed meanwhile |
| LateCloses.LateCloseIff | backend/internal/entry/handler.go:276-278 | in every reachable world a close about to look for an open shift can go on to close the one there, the rules permitting, exactly when its clock-in was captured before the close |
| OutOfOrderDiverges.SomeDrainDiverges | backend/internal/entry/handler.go:276-278 | a drain of three taps, the last captured before the second, empties its queue and leaves a shift closed that in-order delivery leaves running |
| DrainsFinish.EveryDrainCanFinish | mobile/src/stores/outbox.ts:233-265 | however a drain has gone so far, while the taps still queued pass the location rules some continuation empties the queue without a refusal, and leaves the shifts of in-order delivery |
| DrainsFinish.MoveKeepsTapped | backend/internal/entry/handler.go:533-571 | through any move of a drain a shift still running is that of the last tap landed and belongs to the employer tapped: no assignment reaches it |
| Server.ClockServer.FindOne | backend/internal/entry/store.go:139-151 | any matching document, or none exactly when there is none |
| Server.ClockServer.InsertOne | backend/internal/entry/store.go:180-194 | inserts exactly when no unique index already holds the key, and otherwise changes nothing |
| Server.ClockServer.UpdateOne | backend/internal/entry/store.go:220-230 | changes the named document exactly when the guard in its filter matches, and nothing else |
| Server.ClockServer.StepClockIn | backend/internal/entry/handler.go:160-215 | each read, check and write of a clock-in is the machine's step |
| Server.ClockServer.StepClockOut | backend/internal/entry/handler.go:239-314 | each read, check and write of a clock-out is the machine's step |
| Server.ClockServer.StepAssign | backend/internal/entry/handler.go:533-596 | each read, check and write of an assignment is the machine's step |
| Server.ClockServer.StepPings | backend/internal/entry/handler.go:326-370 | a ping batch touches the last ping and flags an anomaly on the open shift, or is dropped |
| Server.ClockServer.Advance | backend/internal/entry/handler.go:160-314 | one call is exactly one event of the world, the object stays in a state some run reaches, and an answer it ends with was true inside its request and, if a refusal, had its grounds there |
| Server.ClockServer.Fail | backend/internal/entry/handler.go:160-314 | a request cut short changes no document and keeps every run theorem true of the object |
| Queue.Chunk | mobile/src/stores/outbox.ts:139-150 | the loop cuts a batch as the specification does |
| Queue.ChunksAreTheBatch | mobile/src/stores/outbox.ts:139-150 | a tap or a batch of at most 64 fixes is queued as it is; a longer one in pieces of 64 but for the last, none empty, under the batch's key, a dash and a count, all distinct, that concatenate to the batch |
| Merging.UniqueKeys | mobile/src/stores/outbox.ts:187-189 | every key appears exactly once and none is lost |
| Merging.LastValueWins | mobile/src/stores/outbox.ts:187-189 | under each key the last value given survives |
| Merging.StoredFirst | mobile/src/stores/outbox.ts:304-315 | stored keys come first, in their stored order |
| Merging.MergeIsIdempotent | mobile/src/stores/outbox.ts:304-315 | merging the result again, alone or with what was stored, changes nothing |
| Outbox.AtMostOneSend | mobile/src/stores/outbox.ts:275-278 | however flushes, replies, kills and sign-outs overlap, a process never has two drains running nor two sends out, and the cached promise is that of the drain that runs |
| Outbox.DrainsNeverReturn | mobile/src/stores/outbox.ts:275-278 | over every run a drain that is over, by its end or by a kill, is never the drain that runs again |
| OutboxConserves.StepKeeps | mobile/src/stores/outbox.ts:233-278 | any tap, flush, reply, good or failed launch read, kill, sign-out or dismissal keeps the queue accounted for, in order |
| OutboxConserves.NothingIsLostOrReordered | mobile/src/stores/outbox.ts:230-333 | over any run what was queued, but for what storage let go of unread, is what was settled, in order, then what is still owed, every key once; nothing is missing exactly when no event lost anything since the last sign-out |
| OutboxConserves.TheHeadIsSent | mobile/src/stores/outbox.ts:238-243 | over any run the one send that may be out is of the head of the queue, or of the item that was the head, being sent by that very drain, when a worker signed out |
| OutboxConserves.OnlyAVerdictRemoves | mobile/src/stores/outbox.ts:243-264 | sign-out and lost storage aside, an item leaves only because its own send was accepted or refused with a status that is none of 0, 401, 429 and 500 or above |
| OutboxConserves.WhatAnAnswerDoes | mobile/src/stores/outbox.ts:241-264 | over every run, in numbers: a send answered 0, 401, 429, 500 or above, or by our own exception, leaves queue, records and storage as they are and finishes its drain; any other answer takes out the item sent and no other, in memory and storage, a refusal adds its record, with the row it marks, while fewer than 50 are kept, and the next head is sent |
| StorageLoses.LaunchLosesIff | mobile/src/stores/outbox.ts:320-332 | a process, from its launch to the next, fails to conserve the queue exactly when a queue was stored, its launch read never came back good, and a tap or a dismissal wrote over it |
| StorageLoses.SomeLaunchLoses | mobile/src/stores/outbox.ts:320-332 | a run in which a tap, a kill, a failed launch read and another tap leave the first tap nowhere |
| SignOutIsClean.NothingSurvivesSignOut | mobile/src/stores/outbox.ts:359-363 | whatever happens after a sign-out, nothing queued before it is in memory or on disk, and none of it is sent but a send already out, by the drain that made it and until it is answered, never again; records about earlier items are about such sends |
| SignOutIsClean.OldRecordIff | mobile/src/lib/signOut.ts:46-76 | over every run, after a sign-out and until the next dismissal, sign-out or launch, a record about the item whose send was out is in memory and on disk exactly when that send was answered by a refusal no retry can change |
| SignOutIsClean.ARecordCanOutlive | mobile/src/lib/signOut.ts:46-76 | for any clock tap and any such refusal a run after which its record is on the signed-out phone |
| QueueIsReplayed.EventIsMove | mobile/src/stores/outbox.ts:230-333 | sign-out and lost storage aside, every event of the outbox does to the clock taps owed, wherever they are kept, what its move of the replay does to the replay's queue |
| OutboxConverges.RunFollows | mobile/src/stores/outbox.ts:230-333 | a run of the outbox beside a run of the server, without loss or sign-out, is a drain of the replay with the same taps |
| OutboxConverges.OutboxDelivers | mobile/src/stores/outbox.ts:233-265 | whatever is tapped, flushed, killed and relaunched, lost, retried or finished late, once no clock tap is owed in memory or storage the user's shifts are those of delivering every tap once, in order, and every clock-in has its document |
| QueueIsReplayed.SendIsSend | mobile/src/stores/outbox.ts:238-243 | the clock tap a drain sends is the head of the replay's queue |
| OutboxStores.OutboxStore.Enqueue | mobile/src/stores/outbox.ts:271 | a tap joins the end of the queue, in its pieces, and storage follows; the records stay |
| OutboxStores.OutboxStore.Flush | mobile/src/stores/outbox.ts:275-278 | a second caller joins the drain in flight and changes nothing; otherwise exactly one starts, waiting for the launch read |
| OutboxStores.OutboxStore.Clear | mobile/src/stores/outbox.ts:275-278 | when a drain has returned the finally clears the cached promise, and then no drain is left |
| OutboxStores.OutboxStore.Settle | mobile/src/stores/outbox.ts:241-264 | a reply of 0, 401, 429, 500 or above, or our own exception, changes nothing but its drain; any other removes the item by key against the items of that moment, records a refusal, writes storage and sends the next head |
| OutboxStores.OutboxStore.Rehydrate | mobile/src/stores/outbox.ts:304-333 | the stored queue is merged in front and written back, not written when the read failed, and a waiting drain may go on |
| OutboxStores.OutboxStore.ClearForSignOut | mobile/src/stores/outbox.ts:359-363 | memory, storage and the pending read are dropped and a waiting drain may go on |
| ClockStores.NewestOpenIs | mobile/src/stores/clock.ts:12-20 | the fold finds the open entry with the latest start, of equals the first listed, or none exactly when all are closed |
| ClockStores.NewestClosedIs | mobile/src/stores/clock.ts:28-36 | the fold finds the closed entry with the latest end, of equals the first listed, or none exactly when none has ended |
| ClockStores.AnswerShowsTheOpenShift | mobile/src/stores/clock.ts:153-158 | over a database the server can reach, an installed answer shows the user's one open shift, or rightly none |
| ClockStores.AnswerInstalledIff | mobile/src/stores/clock.ts:153-158 | whatever happens between a fetch and its answer, the answer is installed exactly when nothing wrote, reset or began a later fetch in between, and otherwise nothing shown changes |
| ClockStores.NothingOlderShows | mobile/src/stores/clock.ts:106-158 | over any run, after a tap, a sign-out reset or the start of a fetch no answer fetched before it changes what is shown, however many are out, in whatever order they come, whatever fetches begin meanwhile |
| ClockStores.ClockStore.FinishHydrate | mobile/src/stores/clock.ts:153-158 | an answer on a stale ticket changes nothing shown, any other replaces both shown entries and leaves the pill |
| ClockFlows.ClockFlow.EndClockIn | mobile/src/lib/clockFlow.ts:293-314 | a clock-in ends queued, with its key and body unchanged and nothing shown moved, exactly for a failure of 0, 401, 429 or 500 and above; accepted, it shows the entry returned; refused, none, and a fetch begins exactly for the three verdicts that say the view was wrong |
| ClockFlows.ClockFlow.EndClockOut | mobile/src/lib/clockFlow.ts:340-369 | a close ends queued under the shift's clock-in key exactly for those statuses; accepted, nothing runs and the entry returned is the last closed; refused, the shift is back |
| ClockFlows.ClockFlow.BeginClockIn | mobile/src/lib/clockFlow.ts:278-291 | the entry shown at once is open, unverified and unflagged, with the key, employer and fix of the body sent |
| TapsAcrossSignOut.QueuedAfterSignOutIff | mobile/src/lib/clockFlow.ts:293-308 | over any run a tap whose request is out at a sign-out is queued afterwards exactly when that request ends in a failure a retry may change with the app still running |
| TapsAcrossSignOut.WhatTheQueueHolds | mobile/src/lib/signOut.ts:46-76 | after a sign-out memory, storage and every send come from what begins from then on and the taps that cross, none if no request was out, but for a send already out |
| TapsAcrossSignOut.EndExposesIff | mobile/src/lib/clockFlow.ts:309-314 | the end of a tap shows another worker's shift exactly when it was accepted with one, or is a refused close of one |
| TapsAcrossSignOut.OnlyTheirOwnIsShown | mobile/src/lib/signOut.ts:46-76 | from any sign-out of any run the screens show the next worker's shifts alone, whatever earlier fetches are still answered, unless a tap from before exposes another's |
| TapsAcrossSignOut.ATapCanCross | mobile/src/lib/clockFlow.ts:298-303 | for any clock-in a run in which it is made before a sign-out and sent by the flush after it |
| Sorting.SortByCorrect | backend/internal/tip/split.go:52-60 | the result is the input reordered and in order |
| Sorting.SortInPlace | backend/internal/tip/split.go:52-60 | the array operation computes that result in place |
| Sorting.SortIsStable | web/src/lib/week.ts:219-247 | elements in a tie stay in the order they came |
| Split.LeftoverInRange | backend/internal/tip/split.go:62-65 | the leftover is at least zero and below the number of parts, so the slice is in range |
| Split.WinnersHaveRemainders | backend/internal/tip/split.go:62-65 | a member with nothing left over never receives a leftover cent |
| Split.ShareIsFloorOrCeiling | backend/internal/tip/split.go:45-65 | each share is the floor of its exact quota, or one more where there was a remainder; members without minutes get nothing |
| Split.SharesAreExact | backend/internal/tip/split.go:24-67 | shares sum to exactly the pool as soon as anybody worked, and to zero otherwise |
| Split.SharesAreFair | backend/internal/tip/split.go:52-65 | more minutes never earn fewer cents, equal minutes differ by at most one cent, nobody is paid less than zero |
| SplitOptimal.NoSplitIsCloser | backend/internal/tip/split.go:9-15 | no other division of the pool into whole cents deviates less, in total, from the exact proportional shares |
| SplitOptimal.OrderOfMembersDoesNotMatter | backend/internal/tip/split.go:52-60 | permuting the members permutes the pairs of minutes and share |
| LeftoverCents.CentsGoInTurn | backend/internal/tip/split.go:9-15 | the rule without the sort: a member gets the whole cents of the exact quota and one more exactly when fewer members than cents left over are served before them, by larger remainder, then more minutes, then earlier place |
| LeftoverCents.TiesGoToMoreThenFirst | backend/internal/tip/split.go:52-60 | of equal minutes the member listed first is never paid less; of equal remainders the one with more minutes is never passed over |
| SplitMethod.SplitByMinutes | backend/internal/tip/split.go:24-67 | the loops, the in-place sort and the increments pay the whole pool or nothing, and to each exactly what the rule makes due, so one result and no other; of equal minutes the member listed first never less |
| SplitMethod.ProductsFit | backend/internal/tip/split.go:16-19 | for pools the write accepts and minutes from up to 600 of the longest durations no product leaves 64 bits |
| Report.BuildDay | backend/internal/tip/handler.go:233-270 | one row for each who worked, by name then id, with their part of the split, and totals that are the sums over the rows |
| Report.BuildReport | backend/internal/tip/handler.go:186-228 | days strictly ascending, one for every day with a tip or a counted shift and no other, each the day its inputs determine; the rows below say in full what that is |
| ReportIsRight.ReportIsDetermined | backend/internal/tip/handler.go:222-228 | inputs that agree on every day have exactly one report between them |
| ReportIsRight.EntryOrderDoesNotMatter | backend/internal/tip/handler.go:202-228 | neither the order of the entries nor any map's order of keys can show in the report |
| ReportIsRight.DayBalances | backend/internal/tip/handler.go:246-270 | a day's total is base pay plus tips, and its tips are the whole pool as soon as anyone worked a minute, else zero |
| ReportIsRight.EveryShiftIsPaidOnce | backend/internal/tip/handler.go:202-221 | the minutes on the report are those of the closed shifts of known members that clocked in within the requested days, each in exactly one cell: that of its member and of the day d with d * DAY <= inAt + loc(inAt) < (d + 1) * DAY |
| ReportInFull.EveryRowInFull | backend/internal/tip/handler.go:233-278 | every row is a known member's, with their name, email and rate; its minutes are those of the member's closed shifts whose clock-in fell on that day by the wall clock, at least one; its base pay the rate for them, its tip share the member's part of the pool split by the rows' minutes, its total the two |
| ReportInFull.RowsInOrder | backend/internal/tip/handler.go:234-240 | rows stand by name, then by id, compared character by character |
| ReportInFull.EveryDayInFull | backend/internal/tip/handler.go:193-228 | a day's pool is the last listed for it, its totals the sums over its rows, its total base pay and tips, and earlier days come first |
| ReportInFull.DayIsThereIff | backend/internal/tip/handler.go:193-221 | a day is on the report exactly when it has a pool, or a known member's closed shift began on it and it was requested |
| ReportInFull.EveryShiftHasItsRow | backend/internal/tip/handler.go:202-221 | each closed shift of a known member that began on a requested day has its member's row on that day |
| ReportInFull.MinutesAreTheLength | backend/internal/tip/handler.go:220 | a shift's minutes are the time from clock-in to clock-out to the nearest minute, as long as a Go duration can hold it |
| ReportIsRight.RangesCompose | backend/internal/tip/handler.go:213-216 | the report for a to c is the report for a to b followed by the report for the day after b to c |
| ReportIsRight.WindowOf | backend/internal/tip/store.go:45-56 | the windowed pools are exactly those of the requested days |
| ReportIsRight.WindowIsWide | backend/internal/tip/handler.go:330-353 | no instant of a requested day falls outside the prefilter, in any zone whose offsets lie within twelve hours of each other, whichever offset Go picks at a gap |
| ReportIsRight.PrefilterIsInvisible | backend/internal/tip/handler.go:330-353 | reading only the entries inside the window gives the same report |
| ReportIsRight.LastMembershipWins | backend/internal/tip/handler.go:187-192 | a user is known exactly when a membership names them, and the last that does gives the name and rate |
| ReportIsRight.LastPoolWins | backend/internal/tip/handler.go:193-200 | a day's pool is the last listed for it, and zero when none is |
| ReportIsRight.BasePayIsNearest | backend/internal/tip/handler.go:272-278 | base pay is the exact amount to the nearest cent, halves up |
| ReportIsRight.MinutesAreNearest | backend/internal/tip/handler.go:220 | a shift's minutes are its length to the nearest minute, halves away from zero |
| ShiftBuckets.ShiftsByMemberDay | web/src/lib/report.ts:54-76 | the buckets are the closed shifts by day and member, in clock-in order |
| ShiftBuckets.BucketIs | web/src/lib/report.ts:54-76 | a bucket holds exactly the closed shifts of its member whose clock-in fell on its day by the wall clock, as often as listed, in clock-in order |
| ShiftBuckets.EveryPaidRowHasItsShifts | web/src/lib/report.ts:25-28 | every row the backend paid finds the shifts it was paid for: at least one, their rounded minutes summing to the row's |
| Table.BuildRows | web/src/lib/report.ts:78-152 | a header and its members for each day, then the range total, or nothing for an empty range |
| Table.RangeTotalIsTheMembers | web/src/lib/report.ts:101-108 | the range total comes last, under the range, and its minutes, base pay, tip share and total are each the sum over the member lines above it |
| Table.DayInFull | web/src/lib/report.ts:82-130 | a day's line carries its pool and the sums of the lines under it and is noted exactly when there are none; each of those is one row's, under the name or else the email, with the shifts of that member and day, marked exactly when one is unverified |
| Rfc4180.FieldUndoes | web/src/lib/csv.ts:20-25 | any text is read back from its field |
| Rfc4180.FileUndoes | web/src/lib/csv.ts:105-107 | any records of two fields or more are read back from the joined file |
| Money.DollarsRead | web/src/lib/format.ts:34-36 | an amount is read back to the cent |
| Money.DollarsAreShort | web/src/lib/format.ts:34-36 | an amount has two decimals and no zero in front but the one before the point |
| Money.DollarsArePlain | web/src/lib/csv.ts:63-65 | an amount never needs quoting |
| Money.EmployeeName | web/src/lib/csv.ts:38-40 | no employee cell begins as a formula |
| Money.NameIsKept | web/src/lib/csv.ts:38-40 | the employee cell ends in the whole name, with one apostrophe before it exactly when the name would open a formula |
| Money.HoursRead | web/src/lib/format.ts:50-53 | worked time is read back to the minute |
| Money.HoursAreShort | web/src/lib/format.ts:50-53 | worked time has no zero in front but a lone hour |
| Export.ReportToCsv | web/src/lib/csv.ts:67-108 | the file parses to the nine column names, spelt out, and then exactly the nine-field records of the days, for any names |
| Export.WholeTableRecords | web/src/lib/csv.ts:71-103 | the lines drawn from the table, dates carried from the headers, are the records of the days |
| Ledger.LedgerBalances | web/src/lib/csv.ts:47-65 | for any report the backend builds the tip column sums to the pools and the total column to the payroll |
| Ledger.RecordReadsBack | web/src/lib/csv.ts:83-103 | under each column name the member's own of that day: the clock-in texts of their shifts, the clock-out texts, and the figures as read back, blank meaning unknown and never zero |
| Ledger.ClockCellsInFull | web/src/lib/csv.ts:85-92 | for a report and shifts over the same entries the third cell lists when exactly that member's closed shifts of that day began and the fourth when they ended, one text a shift, in clock-in order, a comma and a space between |
| Ledger.DayLinesInFull | web/src/lib/csv.ts:47-77 | a day's records are a line for the pool exactly when it is not what the rows were paid, the pool under tip_share and zero under total, and then the rows' lines in order |
| Ledger.EveryCellIsAnAmount | web/src/lib/csv.ts:89-100 | every tip and total cell reads as an amount |
| Segments.SegmentsFor | web/src/lib/week.ts:168-207 | the branches and the day loop cut as the specification does |
| Segments.ClosedShiftIsPartitioned | web/src/lib/week.ts:168-207 | a closed shift whose wall clock did not run back is cut into consecutive days, one segment each, covering exactly its time |
| Segments.BackwardShiftIsAMark | web/src/lib/week.ts:187-193 | a closed shift whose wall clock ran back is one segment of no length at the minute and on the day it began |
| Segments.OpenShiftStaysOnItsDay | web/src/lib/week.ts:173-185 | an open shift has one segment, on its clock-in day, to now or to that midnight |
| Segments.EveryReadableShiftIsDrawn | web/src/lib/week.ts:187-193 | a shift is drawn exactly when its timestamps can be read, always within 0 to 1440 |
| Segments.LengthsAddUp | web/src/lib/week.ts:199-207 | the lengths sum to the wall-clock difference |
| Segments.EachMinuteOnce | web/src/lib/week.ts:199-207 | each minute of the shift is in exactly one segment and no other minute in any |
| Segments.AtMostOneSegmentADay | web/src/lib/week.ts:199-207 | an entry's segments lie on strictly later and later days, so never two on one |
| Segments.LayoutWeek | web/src/lib/week.ts:254-269 | every shown day, and no other, has a layout of exactly its own segments |
| Segments.EachSegmentOnce | web/src/lib/week.ts:254-269 | a shown day holds a bar exactly as often as there are entries listed of that id with that segment, day and minutes, and no bar of another day |
| Lanes.AssignLanes | web/src/lib/week.ts:219-247 | the bars by start, then end, each in the first free lane, overlapping bars apart, every lane below its count, every count that of a component needing as many |
| Lanes.TwinsKeepTheirOrder | web/src/lib/week.ts:219-222 | bars of the same start and end are placed in the order they were listed |
| Lanes.NoLayoutUsesFewer | web/src/lib/week.ts:214-218 | any layout keeping overlapping bars apart uses at least as many lanes |
| Lanes.NoLargerClique | web/src/lib/week.ts:214-218 | no set of mutually overlapping bars outgrows the lane count |
| Lanes.LayoutIsDetermined | web/src/lib/week.ts:236-241 | keeping bars apart in the first free lane leaves no choice |
| Lanes.OverlappingShareACount | web/src/lib/week.ts:225-227 | overlapping bars divide the column by the same number |
| Zones.TwoProbesSuffice | web/src/lib/week.ts:140-149 | the instant found is on the day asked for, and is its midnight exactly when the day has one |
| Zones.JumpAtMidnight | web/src/lib/week.ts:125-128 | where the clock jumps forward exactly at midnight the day begins at the jump |
| Zones.FirstInstantIff | web/src/lib/week.ts:130-138 | the instant found is the first of its day except in exactly two stated situations |
| Zones.WhichRepeatedMidnight | web/src/lib/week.ts:130-138 | a repeated midnight yields the later instant exactly when the change comes no later than UTC midnight |
| Zones.EarlierMidnightReturned | web/src/lib/week.ts:130-138 | a zone and a day for which the earlier midnight is returned |

## Left out

- Haversine: distance is an abstract whole number of metres with distance zero from a point to itself.
- Encryption of locations, key management and caches: locations are plain values.
- HTTP binding, body validation, authentication and rate limiting: a request arrives with a well-formed body; any failure that takes no effect, a 401 or 429 among them, is the event Fail.
- Gateway pages: a 4xx that no handler sent is not modelled on the server side of the replay theorem; the queue itself is modelled for every status.
- The speed formula and stored breadcrumbs: an anomaly is a yes or no in the request; a failed re-read after a write is a failure of the request.
- created_at, metrics and the order of flags: flags are a set.
- One clock: server instances share a clock that never runs back.
- StepPings: does not model which breadcrumbs are stored, because nothing the properties speak of reads them.
- ReplayConverges: asks that no live attempt takes effect ahead of taps not yet settled, and limits other requests of the user to assignments and pings; when a live tap that overtakes does harm is stated beside it.
- EndClockIn: does not model reading the GPS, the weak-signal dialog or message texts, which are prompts and wording.
- BuildReport: models unbounded cents and minutes; only the products inside the tip split are shown to fit 64 bits.
- SegmentsFor: instants are whole minutes, because the formatter stops at the minute.
- ReportToCsv: clock times and dates are any text the formatter gives, dates free of quotes, commas and line breaks.
- Dollars: is exact for every integer; the program's doubles are exact up to about 45 trillion dollars.
- TwoProbesSuffice: a zone here changes its offset once; two changes within a day or two of the same midnight are not modelled.
- Week starts, month ends, day-key parsing and Date.UTC: library arithmetic on dates; days are integers.
- Memberships, invitations, tip upserts, tracking, history grouping, the screens and the waiting pill: smaller claims about wording or one store.
- Token refresh and sign-in: sign-out is one event.
