# Call slots, counters, timers, records and addresses

This project models the call-slot allocator of the Bayonne telephony server
together with everything that has to agree with it: the statistics nodes, the
registration limits, the timer thread and the queue of call records. Beside it
stand three smaller models: the suspension of a segment of slots, the URI
functions, and the failover walk over SRV records.

`dafny verify dfyconfig.toml` checks all of it. Proofs hide definitions that
they do not need (`hide`), which keeps them quick.

## How the model is built

**One critical section, one function.** Module `Calls` holds the shared state
of the allocator (slots, free list, 177 buckets, statistics nodes, posted
records, and what was said on the wire) and one function for each section that
the code runs under a lock. A release takes several of them: under the slot
mutex the STOP record is posted and the slot goes idle, then each counter is
given back under its own lock, then the mutex is given up, and only then the
slot moves from its bucket to the free list. `phase` says how far a release has
come, so other threads can act in between.

**All interleavings.** Module `Exchange` is the SIP driver as a step system.
SIP threads reserve capacity, claim a slot or undo the reservation; any thread
posts any event to any slot at any moment, also through a pointer that is out of
date; the timer thread expires slots; a release goes on one section at a time.
`Keeping` shows that every step keeps the invariant; what follows for every reachable
state and run is in `Theorems`, `Admission`, `Histories`, `CallRecords`, `Events` and
`Farewells`.

**Told twice.** What a step does is stated a second time without the functions that
compute it: who is admitted by the calls that are there (`Admission`), durations by the
times at which records are posted (`CallRecords.CallTimes`), statistics by the uses of a
run (`Histories`), the last word on a call by what the call was (`Farewells.StepTells`),
every event by its effect on the call (`Events`), and what a call counts on by its
registration, span and board (`Service.ServiceCounts`).

**Objects refine functions.** `Timeslots` holds the classes. Their methods
update fields as the source does, and each method's contract says that the
shared state it leaves is the one that the function of `Calls` computes. The
lists are sequences there; `Links` proves that the pointer operations behind
them (`enlist`, `delist` over one `Next` per slot) compute exactly those
sequences and that `Next` chains never loop, and `Wiring` that they follow every
run of the exchange: in each reachable state the chains spell the free list and
the buckets, and no operation meets a slot that is still on another list.

**Two systems together.** `Background` is the timer thread against threads that
arm timers and then signal. `Deadlines` runs it together with the exchange on
the same timers. What the two prove adds up. Suppose no scan takes longer than L, the
thread wakes when it asked to, and whoever arms a timer notifies before it is due.
Then no timer in any run is ever overdue by more than 2 L. Within 2 L of its deadline
every live script has been stepped, unless some other event has reached its call
first (`Deadlines.LiveScriptsAreStepped`). In the same time every call that waits for
its release with a timer, as after a refused invite, has begun that release, whatever
else happens (`Deadlines.RefusedAreReleased`); and in the same run, once the sections
of the release have been gone through, its slot has come to the free list, off every
count.

**Reference definitions.** Wrapped sixteen-bit counters are compared with the
true number of calls over a whole history; a bucket walk with a scan of all
slots; the record queue's pointers with the sequence of posts; the buffer
functions with functions on strings.

**Widths.** Statistics `current`, `min`, `max` and `peak` are sixteen bits wide,
totals sixty-four, a sequence number thirty-two, `pri` sixteen, a parsed port
sixteen; all wrap in the model as they do in the code.

### Where the code does not do what it is for

The model follows the code, and says exactly when the intended property holds.

- The admission test compares a registration's limit with sixteen-bit counters, so
  a limit of 65536 or more refuses nobody; and a registration that got no statistics
  node, because the table was full, is not tested at all. A nonzero limit is kept in
  every run if and only if there is a node and the limit is below 65536, or slots and
  threads cannot exceed it, or no thread takes invites (`Limits.LimitKept`). The
  counters themselves are exact modulo 65536 always (`Theorems.NodeCounts`).
- `lastcall` is the time at which a node was last emptied if and only if no call
  leaves while the sixteen-bit counters show one call and there are more
  (`Stats.LastCall`).
- Statistics are exact if and only if the true count never leaves sixteen bits
  (`Stats.WindowStatistics`).
- A slot and a sequence number identify a call if and only if the slot has had
  at most 2^32 calls (`CallRecords.SequenceIdentifies`).
- The base class disables a slot in a call by giving up its mutex twice; the SIP
  driver never does (`Calls.LockHandOff`, `Calls.LocksBalance`).
- A caller that has gone is declined all the same if the news met the release
  handler, which rejects it, while a transaction was pending, and only then
  (`Farewells.FarewellAfterDrop`, with a run in `Farewells.DeclinedAfterDrop`).
- An invite that is challenged keeps a slot without a timer, and its place in the
  registration's count, for as long as no RELEASE event comes
  (`Theorems.ChallengedIsUnarmed`, `Theorems.UnarmedStays`).
- The timer thread counts a deadline from the end of the scan that found it, so
  it may sleep past it by what that scan took, and the next scan may take as long
  again to come to the slot; both happen, and nothing later does
  (`Background.NeverLate`, `Background.LagIsReal`, `Background.TwoScansLate`).
- Posting a record does not move the end of the pending list along. A drain gets
  the first and the latest of the records posted since the one before, and the
  others are lost (`Records.Queue.Post`, `Records.Queue.Detach`). With the end moved
  along (`advances`) it gets all of them in order.
- A window between two drains is written only if it holds a STOP, so a START alone
  in its window never reaches the file, with or without that repair. The file holds
  all that was posted, in order, if and only if each window is empty or holds a STOP
  and, without the repair, no more than two records (`Records.InOrder`).
- The drain's FILE pointer is not reset when the file is closed. Every use of it
  meets an open file if and only if no pass without a STOP comes after one with a
  STOP (`Records.Queue.Finish`, `Records.Queue.Drain`); what is said of the written
  records holds under that condition.
- A failed suspend leaves the slots before the first offline one disabled
  (`Segments.Segment.Suspend`).
- Splitting and joining URIs, printing and parsing hosts, and dialling relative
  to an identity are inverse exactly on the domains that `Uri.SplitJoin`,
  `Uri.JoinSplit`, `Uri.HostPort` and `Uri.RelativeDial` name.
- hostid and portid take any run of lower-case letters before a colon for a scheme, so
  of `localhost:5060` they make neither host nor port; and portid does not skip a user,
  so with a colon in the user, or a bracketed host behind one, it reads 0
  (`Uri.Schemeless`, `Uri.BehindUser`).
- `next` steps `pri` past 65535 to 0, so the SRV walk ends if and only if no record
  has that priority (`Srv.WalkEnds`). It visits every greater priority if and only
  if each has a record that none behind it, of this or a greater priority, outweighs
  (`Srv.VisitsAll`); one that has none is skipped (`Srv.HeavierSkips`).

## Model

| member | source | states |
|---|---|---|
| Theorems.NodeCounts | common/stats.cpp:102-134 | in every reachable state each node's counters are the slots its calls occupy plus the invites that hold a reservation and no slot, modulo 65536; active is their true number iff neither direction exceeds sixteen bits |
| Theorems.AdmissionControl | common/registry.cpp:90-110 | a registration with a statistics node and a nonzero limit below 65536 never has more calls than its limit, and its counters are exact |
| Limits.LimitKept | common/registry.cpp:90-104 | of every registration: a nonzero limit is exceeded in no run iff it has a node and the limit is below 65536, or slots and SIP threads together are no more than the limit, or there are no SIP threads |
| Limits.Overrun | common/registry.cpp:90-104 | otherwise a run that fills slots and then threads exceeds it |
| Admission.AdmittedIffRoom | common/registry.cpp:90-104 | in every reachable state an invite is admitted iff there is no limit, no node, or the limit is above the calls of both directions as sixteen bits show them; admitted it counts once on that node and on no other, refused it changes nothing |
| Admission.BelowLimitIsAdmitted | common/registry.cpp:90-104 | with a node and a nonzero limit below 65536: an invite is admitted iff the registration has fewer calls than its limit |
| Limits.LoadsReached | common/registry.cpp:90-104 | the loads that such a registration reaches in runs are exactly those up to its limit for which there are slots and threads |
| Histories.NodeHistory | common/stats.cpp:114-134 | in every run each node is what the run's admissions, calls served, undos and give-backs leave of an untouched one, at their times, and that history's true number of calls is the number of calls there |
| Histories.StatisticsAreRight | common/stats.cpp:102-134 | with fewer than 65536 slots and threads, at every moment of every run all fields of every node are exact, current is the number of calls there, and lastcall the time at which the node was last emptied |
| Theorems.NoUnderflow | common/timeslot.cpp:258-264 | no undo or give-back takes from a node what is not there; the counter is at zero, and wraps, iff the true number is a multiple of 65536 |
| Theorems.DriverCounters | common/driver.cpp:512-522 | the driver's count per direction is the number of slots in a call or still owing it, modulo 65536, and exactly that iff these are at most 65535 |
| Theorems.ListPartition | common/timeslot.cpp:142-191 | every slot is on exactly one list, once, and its handler, started field and release progress say which |
| Theorems.MovesAreSafe | common/timeslot.cpp:266-270 | a slot is only enlisted when it has just left the one list it was on |
| Theorems.IndexAgrees | common/timeslot.cpp:120-140 | get returns the newest bucketed call with the cid if its release has not begun, and otherwise nothing, with repeated cids allowed |
| Theorems.OneTeardown | sipw/timeslot.cpp:231-273 | of terminating a call, declining it and taking note in its script that the caller has gone, at most one happens, once, in every run |
| Farewells.FarewellAfterDrop | sipw/timeslot.cpp:246-273 | for every DROP that reaches a call in any run: a farewell to that side follows only if it met the release handler with a transaction pending, and then always by the time the call is over |
| Farewells.DeclinedAfterDrop | common/timeslot.cpp:347-364 | from every start there is a run that declines a call after its caller has dropped it |
| Farewells.StepTells | sipw/timeslot.cpp:231-273 | every step leaves an answered or pending call as it was, or ends that and says exactly one word on it: the caller has gone at a DROP, else terminated if it was answered, else declined |
| Farewells.OnlyLastWords | sipw/timeslot.cpp:231-273 | nothing else is ever said: a step says nothing or the last word on a call that is live before it and not after |
| Farewells.ToldInRun | sipw/timeslot.cpp:231-273 | in every run an answered or pending call that is so no more has heard exactly one word, and of the right kind |
| Events.ReleaseEndsCall | common/timeslot.cpp:295-361 | RELEASE begins the release of a call whichever handler it meets, and TIMEOUT does in the release handler: the slot is idle, still owes its counters, and one STOP is posted that tells the time gone by |
| Events.HangupEndsScript | common/timeslot.cpp:302-304 | HANGUP leaves a call in its script waiting for its release with no timer |
| Events.DropEndsScript | common/timeslot.cpp:299-301 | so does DROP, which is taken down as the caller's going |
| Events.DropInRelease | common/timeslot.cpp:347-364 | in the release handler DROP changes nothing |
| Events.TimeoutStepsScript | common/timeslot.cpp:305-310 | TIMEOUT steps the script: it goes on with a new deadline, or it ends |
| Events.BaseScriptEnds | common/timeslot.cpp:290-381 | the same events for a slot of the base class, which says nothing to anybody |
| Events.RejectedIffDeaf | common/timeslot.cpp:290-364 | of both kinds of slot and all four handlers: which events are rejected, and that these change nothing |
| Events.ShutdownIdles | common/timeslot.cpp:366-369 | SHUTDOWN makes a slot idle and moves it nowhere; a slot in its script rejects it |
| Events.ServedInvite | sipw/thread.cpp:325-352 | with a slot free the call of an invite goes to the first one and is found under its cid at once, in its script with the stepping timer, or in the release handler with the ring time or, challenged, no timer; with none free nothing happens but that the reservation awaits its undo |
| Theorems.ScriptsNeverStall | common/timeslot.cpp:290-315 | a slot in its script has an armed timer, and when it expires the script is armed again or over |
| Theorems.UnarmedWaits | sipw/thread.cpp:335-361 | a slot that waits for its release without a timer is left alone by every step but a RELEASE event; TIMEOUT comes from timers only |
| Theorems.ChallengedIsUnarmed | sipw/thread.cpp:335-361 | a challenged invite leaves its slot so, counted on its registration |
| Theorems.UnarmedStays | sipw/thread.cpp:335-361 | through any run without a RELEASE for it the slot stays taken, with all its counts |
| Keeping.InitHolds | common/timeslot.cpp:59-87 | the invariant holds after the constructors |
| Keeping.NextKeeps | common/timeslot.cpp:230-271 | every step of every thread keeps the invariant, also in the middle of releases |
| Keeping.Safety | common/timeslot.cpp:290-364 | the invariant holds at every point of every run |
| Keeping.TimersKeep | common/timeslot.cpp:429-434 | every section that leaves a slot in its script leaves its timer armed |
| CallRecords.RecordTrace | common/timeslot.cpp:166-177 | per slot, records alternate START and STOP, each STOP carries the sequence and start time of its START, and STARTs count up by one |
| CallRecords.SequenceIdentifies | common/timeslot.cpp:159 | slot and sequence identify a call iff the slot has had at most 2^32 calls |
| CallRecords.StepIsTimed | common/timeslot.cpp:142-252 | a step posts at most one record; a START tells the time of its claim, a STOP matches the START before it and tells how long ago that was |
| CallRecords.CallTimes | common/timeslot.cpp:142-252 | over every run each START was posted at the time that it tells and each STOP as long after its START as its duration says, on a clock that wraps at 64 bits |
| CallRecords.ElapsedIsDifference | common/timeslot.cpp:246 | unless the clock was set back the duration is the difference of the two times |
| Stats.WindowStatistics | common/stats.cpp:114-180 | over every history, current is the true count, min and max its extremes in the open window, pmin and pmax those of the closed one, peak the all-time maximum, iff the true count fits sixteen bits throughout |
| Stats.TotalsAreExact | common/stats.cpp:114-180 | total, period and pperiod count the assignments of the whole history and of the open and the closed window, modulo their width |
| Stats.DirectionsAreIndependent | common/stats.cpp:114-134 | each direction's counter is what its own changes alone make it, however they interleave with the other's |
| Stats.ActiveIsCalls | common/stats.cpp:102-105 | over every history of a node, active is the number of calls in progress in both directions iff neither exceeds sixteen bits, and never more |
| Stats.LastCall | common/stats.cpp:125-134 | at every moment of a history lastcall is when the node was last emptied, iff no Leave finds other calls that the counters hide, unless at that very time |
| Stats.LastCallFits | common/stats.cpp:125-134 | and so always while both directions fit sixteen bits |
| Stats.Statmap.Update | common/stats.cpp:114-123 | one call more, with maximum and peak |
| Stats.Statmap.Release | common/stats.cpp:125-134 | one call less, with the minimum, and the time of the last call if it was the only one |
| Stats.Pool.constructor | common/stats.cpp:48-59 | room for the nodes beside the system node, all untouched |
| Stats.Pool.Take | common/stats.cpp:90-100 | hands out the next unused node, never one twice, or none when all are taken |
| Stats.Pool.Period | common/stats.cpp:136-180 | closes the window of every node in use and of no other |
| Registry.Registration.Attach | common/registry.cpp:90-104 | admits and counts iff there is no limit or the node is below it |
| Registry.Registration.Release | common/registry.cpp:106-110 | gives one count back |
| Registry.UndoRestoresAdmission | sipw/thread.cpp:325-333 | reserving and undoing leave the admission test as it was |
| Calls.SectionsFinish | common/timeslot.cpp:230-271 | the sections of a release run one after the other are the whole release |
| Calls.ReleaseInOneGo | common/timeslot.cpp:230-271 | what a whole release does to slot, lists, counters and records |
| Calls.LockHandOff | common/timeslot.cpp:462-472 | every handler gives up the slot mutex iff it answers RELEASE, except the base class disabling a slot in a call |
| Calls.PostHandOff | common/timeslot.cpp:462-472 | the same for a whole post |
| Calls.LocksBalance | common/timeslot.cpp:405-427 | over any run of posts the mutex is given up as often as taken iff no slot in a call is disabled by the base class |
| Links.Links.Enlist | common/timeslot.cpp:151 | pushes a slot that is on no list, and keeps all lists disjoint chains |
| Links.Links.Remove | common/timeslot.cpp:268 | the walk removes the first occurrence and nothing else, from whichever place |
| Links.Links.Shift | common/timeslot.cpp:267-270 | moves a slot between two lists |
| Links.Acyclic | common/timeslot.cpp:126-136 | a chain that ends visits no slot twice, so every walk ends |
| Wiring.ListsMove | common/timeslot.cpp:142-271 | of all steps only taking a slot and the end of its release move it, from one list to the front of another |
| Wiring.Wire | common/timeslot.cpp:59-87 | the constructors' chains spell the free list and empty buckets |
| Wiring.Follow | common/timeslot.cpp:142-271 | after each step the chains spell the lists again |
| Wiring.FollowRun | common/timeslot.cpp:142-271 | through every run the chains are acyclic, disjoint and spell the model's lists |
| Timeslots.Timeslot.constructor | common/timeslot.cpp:59-87 | a blank, idle slot |
| Timeslots.Timeslot.Allocate | common/timeslot.cpp:142-178 | changes fields, lists, counters and records as the model's allocation does |
| Timeslots.Timeslot.Fill | sipw/timeslot.cpp:52-60 | the fields that an allocation sets |
| Timeslots.Timeslot.Incoming | sipw/timeslot.cpp:62-229 | ring timer, then script and its timer, by outcome |
| Timeslots.Timeslot.Drop | sipw/timeslot.cpp:231-244 | terminates, else declines, else says nothing |
| Timeslots.Timeslot.Disconnect | sipw/timeslot.cpp:246-255 | the remote side is gone and nothing is sent |
| Timeslots.Timeslot.Hangup | sipw/timeslot.cpp:257-262 | a farewell, and the release handler |
| Timeslots.Timeslot.Release | common/timeslot.cpp:230-271 | is the model's release run to its end, with the mutex given up once |
| Timeslots.Timeslot.Disable | common/timeslot.cpp:405-427 | is the model's disable, with the mutex given up once, or twice for a slot in a call |
| Timeslots.Timeslot.Enable | common/timeslot.cpp:384-398 | back to idle on top of the free list |
| Timeslots.Timeslot.OnScript | common/timeslot.cpp:290-315 | the script handler for every event |
| Timeslots.Timeslot.OnOffline | common/timeslot.cpp:317-330 | the offline handler for every event |
| Timeslots.Timeslot.OnIdle | common/timeslot.cpp:332-345 | the idle handler for every event |
| Timeslots.Timeslot.OnRelease | common/timeslot.cpp:347-364 | the release handler for every event |
| Timeslots.Timeslot.Post | common/timeslot.cpp:462-472 | the mutex is taken once and given up once, or twice by the base class in the one case |
| Timeslots.Timeslot.GetExpires | sipw/timeslot.cpp:38-50 | takes the mutex and keeps it, and resets a due timer |
| Timeslots.Timeslot.Expire | common/timeslot.cpp:278-288 | delivers TIMEOUT iff the timer was due, and gives the mutex up exactly once |
| Timeslots.PostReleases | common/timeslot.cpp:230-271 | a post that releases leaves the slot idle on top of the free list, out of its bucket, with one more STOP, in whichever handler it met the call |
| Timeslots.OwedInOrder | common/timeslot.cpp:258-264 | the order in which the counters of a call go back |
| Timeslots.SeatsInOrder | common/timeslot.cpp:160-164 | the order in which they were taken |
| Timeslots.Switchboard.Get | common/timeslot.cpp:120-140 | the loop is the model's bucket walk |
| Timeslots.Switchboard.Assign | common/timeslot.cpp:180-191 | takes the head of the free list or nothing |
| Timeslots.Switchboard.PostTo | sipw/thread.cpp:177-283 | posting to one slot changes the shared state as the model does and leaves all other slots alone; a RELEASE for a call leaves its slot idle on top of the free list |
| Timeslots.Switchboard.Invite | sipw/thread.cpp:325-352 | reserve, assign and serve or undo is the run of those steps of the exchange |
| Segments.DisabledIsOffline | common/timeslot.cpp:405-427 | disabling keeps every invariant, changes this slot only, posts the STOP of its call, and leaves it on no list |
| Segments.EnabledIsBack | common/timeslot.cpp:384-398 | enabling keeps every invariant and changes this slot only |
| Segments.Segment.Suspend | common/segment.cpp:33-55 | succeeds iff live and no slot of the range was offline; then exactly those slots are offline, off all lists, with their STOPs posted |
| Segments.Segment.Resume | common/segment.cpp:57-79 | succeeds iff suspended and all slots of the range are offline; then exactly those are back on the free list |
| Segments.Segment.DisableAll | common/segment.cpp:43-52 | the loop stops at the first slot that rejects |
| Segments.Segment.EnableAll | common/segment.cpp:67-76 | likewise |
| Segments.SuspendResume | common/segment.cpp:33-79 | what a suspend took offline no ENABLE rejects, and back in service its slots are idle, the other slots untouched and the STOPs posted |
| Service.Cycle | common/segment.cpp:33-79 | suspend succeeds iff no slot of the range was offline, a resume that follows succeeds too, and the two return exactly those slots to the free list |
| Service.FreshIsQuiet | common/timeslot.cpp:59-87 | a segment may be suspended after the constructors |
| Service.TakeKeeps | common/timeslot.cpp:142-178 | and after any slot has been taken, with whatever span, board and registration it counts on |
| Service.TellKeeps | common/timeslot.cpp:290-364 | and after any event has been posted to any slot |
| Service.ServiceIsQuiet | common/timeslot.cpp:142-364 | and so after any sequence of these, with calls in progress |
| Service.ServiceCounts | common/timeslot.cpp:142-271 | after any service of the base class each counter is the number of calls in progress that count there, each once for the driver, its registration, its span and its board, modulo 65536 |
| Service.ReleaseIsBothWays | common/timeslot.cpp:230-271 | releasing a call is what disabling its slot and enabling it again comes to |
| Background.NextKeeps | common/thread.cpp:86-134 | every step keeps every armed timer covered: by a signal, by its own notify still to come, by the scan under way, or by the deadline slept for plus one scan's duration |
| Background.NoLostDeadline | common/thread.cpp:86-134 | in every interleaving, whatever other threads still owe, the thread asleep will wake in time for every timer whose own notify has come, and once it is due no decision but to scan is possible |
| Background.NextOnTime | common/thread.cpp:97-133 | every prompt step keeps: a scan begins at most one scan late for what it has still to visit, and otherwise no timer is later than that |
| Background.NeverLate | common/thread.cpp:97-133 | in every state of every prompt run no armed timer is overdue by more than two scans |
| Background.FiresInTime | common/thread.cpp:119-125 | in every prompt run an armed timer has fired within two scans of its deadline, once that moment has passed, unless it was armed anew or disarmed before |
| Background.LagIsReal | common/thread.cpp:117-126 | for every scan duration there is a prompt run that oversleeps by exactly that much |
| Background.TwoScansLate | common/thread.cpp:112-126 | and goes on to fire the timer exactly two scans late |
| Background.ScanFires | common/thread.cpp:119-125 | a timer due ahead of the scan has fired when the scan has passed its slot, unless rearmed or disarmed meanwhile |
| Background.SweepExact | common/thread.cpp:116-126 | a whole scan fires exactly the due timers, last slot first, and finds the least time remaining among the others |
| Background.ScanSets | common/thread.cpp:116-126 | after it a deadline is known iff some timer that it met is still to come, and that is the least time remaining, counted from the scan's end |
| Background.Background.Arm | sipw/timeslot.cpp:32-36 | arming is the two steps of setting the timer and signalling |
| Background.Background.BeforeWait | common/thread.cpp:106-111 | the thread waits iff there is no signal and nothing is due, until the deadline that it knows of or for a slice, whichever is less, and for just a slice without one |
| Background.Background.AfterWait | common/thread.cpp:112-131 | scans iff signalled or due, and clears the signal |
| Background.Background.Scan | common/thread.cpp:116-126 | the loop is the model's scan of all slots |
| Deadlines.AfterKeeps | common/timeslot.cpp:278-288 | exchange and timer thread together keep both invariants and agree on every timer |
| Deadlines.ScriptsAreStepped | common/timeslot.cpp:290-315 | in every joint run a live script's timer is covered to within one scan once its own notify has come, and the scan's visit steps the script or ends the call |
| Deadlines.AfterGood | common/timeslot.cpp:278-288 | prompt steps of the joint run keep every timer on time |
| Deadlines.SteppedInTime | common/timeslot.cpp:290-364 | from every state that is on time and in every prompt run, a call with a timer has had its TIMEOUT within two scans of the deadline, once that moment has passed, unless another thread has changed its slot before |
| Deadlines.LiveScriptsAreStepped | common/timeslot.cpp:290-315 | in every prompt joint run a live script's timer is never overdue by more than two scans, and by then the script has been stepped or something else has happened to its call |
| Deadlines.ReleasedInTime | common/timeslot.cpp:347-364 | in every prompt run a call in the release handler with a timer has begun its release within two scans of the deadline, once that moment has passed |
| Deadlines.RefusedAreReleased | common/timeslot.cpp:254-288 | the same from the start of the run; and once the run has gone through the sections of that release its slot has come to the free list, off every count |
| Releases.WaitingStep | common/timeslot.cpp:347-364 | no step but one that begins its release changes a call in the release handler |
| Releases.ReleaseCompletes | common/timeslot.cpp:254-270 | in every run, once a release has gone through the sections that it had left, its slot has come to the free list and counts on no node |
| Releases.ReleaseWaits | common/timeslot.cpp:254-270 | and before that no step of any other thread takes it forward or back |
| Records.Queue.Get | common/dbi.cpp:112-134 | a record from get is blank if recycled, held by nobody else, and on none of the free list, the pending list and the batch |
| Records.Queue.Post | common/dbi.cpp:98-110 | what is pending is the first and the latest record posted, or all of them if the end moves along |
| Records.Queue.Detach | common/dbi.cpp:71-80 | the batch is what was pending; a STOP among the posts opens the file, and without one the pointer stays what it was |
| Records.Queue.Deliver | common/dbi.cpp:81-92 | one record is recycled, and written if the file is open; a closed one is misused |
| Records.Queue.Finish | common/dbi.cpp:93-94 | after each pass, a closed file has been used iff some pass without a STOP came after one with a STOP |
| Records.Queue.Drain | common/dbi.cpp:81-94 | the rest of a pass recycles the whole batch; unless a closed file is used the file holds exactly what all windows so far keep, in order |
| Records.InOrder | common/dbi.cpp:76-110 | the file holds all that was posted, in order, iff each window is empty or holds a STOP and, unless the end moves along, no more than two records |
| Records.AdvanceMatters | common/dbi.cpp:98-110 | not moving the end along makes no difference to the file iff no window with a STOP holds more than two records |
| Uri.SplitJoin | common/uri.cpp:381-475 | create of server and userid gives a URI back iff it has a scheme that create prints and at most one '@' |
| Uri.JoinSplit | common/uri.cpp:381-475 | server and userid of create give both parts back iff neither holds an '@' and the server is not of scheme udp, or the server names that very user |
| Uri.RelativeDial | common/uri.cpp:315-379 | dialling keeps extension and server iff the extension is bare and the identity is not h323, tcp or udp |
| Uri.DialOwnHost | common/uri.cpp:315-379 | an address with a host of its own is dialled there: what follows its first '@' stays; its user does iff it has a scheme or the identity's keeps its colon; and with a scheme its server stays |
| Uri.DialOwnScheme | common/uri.cpp:315-379 | an address with a scheme but no host is dialled under its scheme at the identity's host |
| Uri.Normalised | common/uri.cpp:381-445 | no scheme, tcp and sip come to sip; server takes udp for sip too, but create does not |
| Uri.HostPort | common/uri.cpp:477-531 | hostid and portid recover host and port from what route prints, for every port, iff the host has no '@' and no stray bracket |
| Uri.DecimalBack | common/uri.cpp:498-501 | atoi reads back every decimal that %u prints |
| Uri.NoPort | common/uri.cpp:477-531 | a host without a port comes back, bracketed or not, and the port reads 0 |
| Uri.ManyColons | common/uri.cpp:477-531 | a text with more than one colon is all host, and the port reads 0 |
| Uri.Schemeless | common/uri.cpp:477-531 | without a scheme host and port come back iff the host is not all lower-case letters |
| Uri.BehindUser | common/uri.cpp:477-531 | behind a user the host comes back as without one; the port does iff neither user nor host holds a colon, and else reads 0 |
| Uri.WriteUri | common/uri.cpp:381-413 | the buffer holds create's text, cut to its size |
| Uri.WriteServer | common/uri.cpp:415-445 | the buffer holds server's text, cut to its size |
| Uri.WriteUserId | common/uri.cpp:447-475 | fails iff there is no '@', and otherwise the buffer holds the user, cut to its size |
| Uri.WriteDialed | common/uri.cpp:315-379 | the buffer holds dialed's text, cut to its size |
| Uri.ReadPort | common/uri.cpp:477-502 | the port behind the one colon, or behind the bracket, in sixteen bits |
| Uri.WriteHost | common/uri.cpp:504-531 | the host between the brackets or before the one colon |
| Uri.WriteRoute | sipw/srv.cpp:61-64 | the bracketed and the plain form |
| Srv.Walker.Next | common/uri.cpp:85-108 | while pri is below 65535 an entry strictly raises it, and NULL means that no record has a greater priority |
| Srv.WalkEnds | common/uri.cpp:85-108 | the walk reaches NULL iff no record has priority 65535 |
| Srv.PickLowest | common/uri.cpp:92-97 | a record of the lowest priority to come is taken iff some record of that priority is outweighed by none behind it that is still to come |
| Srv.PickIsFirst | common/uri.cpp:91-104 | of any list next takes the first record to come that none behind it comes before or outweighs, so the earlier of equal ones |
| Srv.Climbs | common/uri.cpp:91-104 | whatever the weights, the walk strictly climbs and visits only priorities that occur |
| Srv.VisitsAll | common/uri.cpp:91-104 | it visits every greater priority iff each has a record that none behind it, of this or a greater priority, outweighs |
| Srv.VisitedIsTenable | common/uri.cpp:91-104 | a priority that is visited has such a record |
| Srv.EqualWeights | common/uri.cpp:91-104 | with equal weights it visits every greater priority |
| Srv.HeavierSkips | common/uri.cpp:95-97 | in any list a priority whose records are all outweighed by later ones of no lesser priority is skipped |

## Left out

- Assigning a slot and `incoming` are one step: the code calls `incoming` without the slot mutex, and events that reach the slot between the two are not modelled.
- A range assign (common/timeslot.cpp:193-228) unlocks what it never locked; no driver modelled here uses it.
- The SHUTDOWN sweep marks slots idle without moving them; runs end before it. The event itself is part of the handlers in module Calls.
- `allocate` sets its fields under the list lock and without the slot mutex; it is one step of the exchange.
- Negative call ids: `cid` is a natural number, as eXosip hands it out.
- `Timeslot::getExpires` of the base class, which takes no mutex; the pair with expire is the SIP driver's.
- `Timer::inf` is a timer that never expires (in the library, one of 49 days).
- A time between a wakeup and its cause: the bounds of `Background.NeverLate` and `Deadlines.LiveScriptsAreStepped` are for wakeups without delay, and for as long as each notify comes before its timer is due.
- Background::shutdown and `automatic`, and the wait's spurious wakeups beyond their effect, which is an early Wake.
- The script interpreter: one step answers whether it goes on, picks up, or hangs up. String classification in `incoming`: only its outcome.
- The wire: terminate, decline and disconnect are recorded, not sent. Signals, FIFOs, logging, configuration files and reload.
- Shared memory, the text that `period` prints, and the strings of a record.
- `Board::suspend` and `Board::resume`, whose success test is inverted; spans and boards appear as counters only.
- Segments of the base class are disabled and enabled one event after the other, with no other thread at work.
- `fopen` never fails. What a write to a closed file does is left open: the model assigns an arbitrary value and remembers that it happened.
- `memget` running out of memory, and what a record from it says before its caller fills it.
- DNS and getaddrinfo in `uri::set`, and the weights drawn at random there; the walk starts from any list and any `pri`, with as many records as the list says.
- `snprintf`, `strchr`, `strrchr`, `atoi` and prefix comparison are defined as the C library documents them, without a locale; an integer too wide for `atoi` is taken modulo 65536.
- The loops inside `strchr` and `snprintf` are modelled where they write into a buffer; where they only search, a function stands for them.
- sipw/registry.cpp: confirm, release, failed and cancel of a SIP registration.
- Lists of slots in module Timeslots are sequences; module Links shows the pointers behind them.
