# Shellbell, verified

Shellbell turns shell prompt boundaries into notifications that must fire once. This project models the chain that
carries them and proves what it promises over whole runs.

| files | what they model |
|---|---|
| `Types` | machine integers, saturating arithmetic |
| `Activity` | the per-session timed state machine and the engine class that holds the sessions |
| `Isolation`, `History`, `Recovery` | non-interference and tick schedules; a reference reading of event histories; restarts |
| `Bursts`, `Queue`, `Store`, `Retry` | rings per burst; the durable queue and its transactions; the backoff |
| `Daemon`, `DaemonLaws`, `Budget`, `DaemonSteps`, `DaemonTerms`, `DaemonHost` | the daemon as a step machine with crashes; its laws; the retry budget; the steps its operations make; what they come to in plain terms; the operations themselves as methods, each with the steps by which it extends the machine's run |
| `Protocol`, `Relay` | the validators that trim messages and sort tags; idempotent submission and pushes |
| `EndToEnd`, `EndToEndLaws`, `EndToEndLosses`, `EndToEndContents`, `EndToEndRuns` | daemon, lossy network and relay together: at most once; what is lost; what arrives; runs that show the limits |
| `Feed`, `FeedRuns` | the paged pull feed; one receiver over time |
| `Pairing`, `Limiter` | pairing at the level of SQL statements; the fixed-window limiter |
| `Startup` | the managed line in a shell's startup file |
| `Base64`, `Password`, `Records` | base64, HMAC and PBKDF2 loops, password records |

Random identifiers, both clocks, jitter, the liveness of processes, what the network answers and what a push achieves
are inputs. Identifiers drawn at random are fresh. The relay's clock is the time of `EndToEnd`; the daemon's wall clock
stays within `skew` of it, and a request is handled within `delay` of the moment the delivery loop read its clock, or
never.

## What came out

* The chain delivers at most once per burst as long as the relay's retention is at least the event's maximum age plus
  the delay plus twice the skew. That horizon is exact: under any shorter retention, whatever the other settings, some
  run gives one event two rings (`ShortRetentionAcceptsTwice`, `RetentionIsExact`).
* The relay trims a message and sorts the tags of a ring, so an event arrives as it was rung exactly if its message has
  no white space at either end and its targets are strictly ascending (`ArrivesUnchangedExactly`). The message `" done "`
  for `["phone", "pc"]` arrives as `"done"` for `["pc", "phone"]` (`ArrivesChanged`).
* Stored events never exceed queued, accepted and counted ones. The two sides are not always equal when no row is
  evicted or expired while its own request is outstanding: under all settings a lost answer followed by an expiry counts
  an accepted event as dropped (`AcceptedThenGivenUp`). They are equal exactly if no step of the run took the row of an
  accepted event out of the queue, and no request was the first to arrive for an event whose row was gone
  (`NothingLostOnTheWay`).
* Until it is armed, a session makes no ring but those asked for by hand outside any burst, over every run from an empty
  table (`NoRingBeforeArm`).
* The configured text replaces the default one by comparing texts, so a session titled `Shell` is announced with it, too
  (`TickAnnounces`).
* The step machine keeps two further terms apart: `phantom` counts permanent failures reported for rows that had
  already been given up, and `lost` the deletions a crash kept from the counter.
* A tick that only forgets a burst is not written to disk. After a crash such a burst is found again, and forgotten again;
  after a save for whatever reason it stays forgotten. A settling burst keeps its wall deadline through all of it
  (`RestartPreservesTimer`).
* The pull feed skips nothing for a client that acknowledges only cursors it was given and never fetches from beyond all
  of those and the acknowledged one. Acknowledging only such cursors is not enough (`MadeUpCursorsSkip`). Exactly those
  single calls can lead to a ring being skipped that reach past every id given out, or past a matching stored ring beyond
  the client's cursors (`CallSkipsExactly`); passing only rings meant for others is harmless (`PassingOthersIsSafe`).
* Revoking a source clears its token hash, so a later poll of the approved request is given a new token; it is useless,
  since a revoked source authenticates no one (`RevokedSourceGetsAnotherToken`).
* The limiter admits at most twice the limit less one in any interval of a window's length, and that bound is attained.
* Removing a managed line empties a file that was a single blank line, and rewrites the line endings of a file that mixes
  them. A home directory with a line feed in its name gives a line that is never found again (`Detectable`).
* A crash while a request is outstanding leaves a submission unrecorded; the retry budget counts recorded ones.

## Model

| member | source | states |
|---|---|---|
| Activity.ActivityEngine.FromSessions | crates/shellbell-local/src/activity.rs:187-194 | the table holds exactly the loaded sessions, each under its id |
| Activity.ActivityEngine.SessionOpen | crates/shellbell-local/src/activity.rs:205-236 | a new session is off and disarmed, without burst, clock readings or title, with the process, terminal, targets and limits given, last seen now; an existing one keeps mode, state, burst and all else but process, shell, terminal and last-seen; the table is what the history with this opening makes of the initial one |
| Activity.ActivityEngine.SessionClose | crates/shellbell-local/src/activity.rs:238-240 | that session is removed and no other, and the reply tells whether it was there; the history grows by the closing |
| Activity.ActivityEngine.Arm | crates/shellbell-local/src/activity.rs:242-263 | the session is armed with the mode, limits and targets given, any burst forgotten, title kept; no other changes; the history grows by the arming |
| Activity.ActivityEngine.ArmAndStart | crates/shellbell-local/src/activity.rs:265-287 | the session is armed as above and at once active in the new burst, its command started now; nothing if it is unknown |
| Activity.ActivityEngine.Disarm | crates/shellbell-local/src/activity.rs:289-298 | the session is off and disarmed, any burst forgotten, limits, targets and title kept; no other changes |
| Activity.ActivityEngine.SetLabel | crates/shellbell-local/src/activity.rs:300-307 | title and last-seen of that session, and nothing else |
| Activity.ActivityEngine.CommandStart | crates/shellbell-local/src/activity.rs:309-331 | an armed session opens the burst given, from zero; a settling one resumes its burst and drops both deadlines; any other is only seen |
| Activity.ActivityEngine.PromptReady | crates/shellbell-local/src/activity.rs:333-352 | an active session settles, with the command's time added and both deadlines set by its idle time, all saturating; any other is only seen |
| Activity.ActivityEngine.ManualRing | crates/shellbell-local/src/activity.rs:354-405 | a ring with the message and targets asked for, and with the time shown if it belongs to a live burst; none if that burst has rung; it marks the burst, or ends it and switches off in once mode; no other session changes |
| Activity.ActivityEngine.Tick | crates/shellbell-local/src/activity.rs:407-446 | the in-place loop over due sessions equals one simultaneous step of all of them, rings in table order; exactly the settling sessions at their deadline change, to armed, or off if they rang in once mode, and exactly those with enough time and no ring yet ring, with title, targets and time |
| Activity.ActivityEngine.CleanupStale | crates/shellbell-local/src/activity.rs:448-459 | the table keeps exactly the sessions last seen at or after the cutoff |
| Activity.AfterKeepsTable | crates/shellbell-local/src/activity.rs:129-145 | over any history, mode off means disarmed, idle states carry no burst, active and settling ones carry a burst and the right clock fields, and a notified once mode does not exist |
| Activity.RecoveryRepairs | crates/shellbell-local/src/activity.rs:147-168 | a session saved in any state and recovered has that shape again and is never active |
| Isolation.TickIsPointwise | crates/shellbell-local/src/activity.rs:407-446 | a tick of the table is the tick of each session, and each session's rings are its own |
| Isolation.NonInterference | crates/shellbell-local/src/activity.rs:204-459 | a session's state and rings after any run over many sessions are those of the run with only its own events and the shared ticks and cleanups |
| Isolation.TickScheduleIndependence | crates/shellbell-local/src/activity.rs:407-446 | two ticks in a row leave the same sessions, up to last_seen, and the same multiset of rings, up to event id, as the later one alone |
| History.Life.MachineAgrees | crates/shellbell-local/src/activity.rs:121-446 | at every point of every life, every field of an armed session is what the reference reading of the history says |
| History.Life.BurstAccounting | crates/shellbell-local/src/activity.rs:121-127 | the displayed time is the number of milliseconds covered by commands of the current burst; no saturation occurs |
| History.Life.DuplicateBoundary | crates/shellbell-local/src/activity.rs:309-352 | a start during a command, or a prompt outside one, adds no foreground time |
| History.Life.RingsExactlyWhenDue | crates/shellbell-local/src/activity.rs:354-446 | an event rings for its burst if and only if the history says so, and the ring, automatic or manual, carries the foreground time up to it |
| History.Life.SettledIsLastReturn | crates/shellbell-local/src/activity.rs:333-352 | the return a session settles from is the last return with no start, arm, disarm or lapse after it |
| History.Life.AutomaticRingsAreSoundAndComplete | crates/shellbell-local/src/activity.rs:407-446 | a tick rings if and only if the session is armed, the last return's deadline has passed, the burst was not rung by hand and its foreground time suffices |
| History.Life.RingSays | crates/shellbell-local/src/activity.rs:391-446 | a ring names its session; an automatic one has the targets last armed with and the title last set, a manual one what was asked for |
| History.Life.OffUntilArmed | crates/shellbell-local/src/activity.rs:289-298 | an off session stays off and rings for no burst until it is armed |
| History.Life.OnceUntilUsed | crates/shellbell-local/src/activity.rs:407-446 | without an arm, a disarm or a ring for a burst, once mode stays, whatever bursts and standalone rings happen |
| History.Life.OnceRingSwitchesOff | crates/shellbell-local/src/activity.rs:391-443 | a ring for a burst in once mode switches the session off |
| History.Life.OnceModeOverRuns | crates/shellbell-local/src/activity.rs:354-446 | between two arms, arming in once mode gives at most one ring for a burst, after which the session is off and disarmed; without one it is still in once mode |
| History.LifeOfSession | crates/shellbell-local/src/activity.rs:182-459 | a session that stays registered in a run of the engine lives the life of the events that concern it, so the above holds inside the whole table |
| Recovery.RestartPreservesTimer | crates/shellbell-local/src/daemon.rs:60-145 | over every run of the daemon that leaves the session alone (ticks, commits for other sessions, sweeps, crashes, orderly stops, restarts): until a tick finds it due, a settling burst keeps its time, mode and mark, and its delay is what is left to the wall deadline; it rings exactly if a tick finds it due and it qualifies, once, not before the deadline; then it is over in memory and on disk; one that does not qualify is forgotten, and found again by a restart only if nothing was saved in between |
| Recovery.PromptBegins | crates/shellbell-local/src/activity.rs:333-352 | the return to the prompt that is committed for an active session is where such a story begins, so the law applies to it |
| Recovery.RestartDiscardsActiveBurst | crates/shellbell-local/src/daemon.rs:60-145 | over every such run a burst whose command is running never rings; once restarted, the session, if resumed, has forgotten it and is armed as before |
| Recovery.RestartResumesBurst | crates/shellbell-local/src/daemon.rs:69-80 | a restart resumes a session if and only if it was saved, its shell is alive and it was seen within a day; a settling one is still settling, with the larger of zero and what is left to its wall deadline as its delay |
| Recovery.BurstSurvives | crates/shellbell-local/src/daemon.rs:60-145 | over every run that leaves the session alone, in which sweeps and restarts find its shell alive and it seen within a day: until a tick finds it due, a settling burst is on disk, and in memory whenever the daemon is up, with what is left to its wall deadline |
| Bursts.StepKeepsBooks | crates/shellbell-local/src/activity.rs:309-446 | one engine call keeps burst ids distinct, rung bursts marked or forgotten, and one ring for each burst |
| Bursts.RungByIsComplete | crates/shellbell-local/src/activity.rs:375-443 | every automatic or associated ring is one counted for a burst that had not rung |
| Bursts.RingsAreFresh | crates/shellbell-local/src/activity.rs:375-443 | the event ids of one call are among those it drew, new, and distinct |
| Bursts.NoRingBeforeArm | crates/shellbell-local/src/activity.rs:90-119 | over every run from an empty table: a session not armed yet is off, disarmed and without a burst, and no ring is made for it by a tick or counts for a burst |
| Queue.BatchCounts | crates/shellbell-local/src/store.rs:117-142 | rows plus drops grow by exactly the number of fresh events committed; rows are old ones or pristine ones of the batch |
| Queue.BatchRows | crates/shellbell-local/src/store.rs:290-317 | after a commit every row is as before or is the pristine row of an action of the batch |
| Queue.BatchKeepsNewest | crates/shellbell-local/src/store.rs:290-317 | a batch later than all rows is stored whole, and the old rows that stay are the newest |
| Queue.BoundedBatchEnqueue | crates/shellbell-local/src/store.rs:117-142 | the exact size of the queue and of the counter after a commit of at most the limit: expired first, then the oldest given up |
| Queue.CommitBounded | crates/shellbell-local/src/store.rs:276-317 | whatever the batch, also with events already queued, the queue never outgrows the larger of its limit and its former size, and rows plus drops grow by at most one for each action, by exactly one if all are fresh |
| Queue.PruningKeepsYoung | crates/shellbell-local/src/store.rs:276-288 | expiry keeps exactly the rows that are not older than the maximum age, and counts the others |
| Queue.EnqueueSays | crates/shellbell-local/src/store.rs:290-317 | below the limit the pristine row of the event is added; at the limit one oldest row goes first and is counted; an event already queued keeps its row |
| Queue.NextDueSays | crates/shellbell-local/src/store.rs:144-155 | the row picked is pending, its time has come, and no such row is older |
| Store.Store.SaveSessions | crates/shellbell-local/src/store.rs:72-89 | the saved table is the sessions without their monotonic readings, whatever was saved before |
| Queue.LoadedIsAsGood | crates/shellbell-local/src/store.rs:72-101 | sessions saved and read back are the originals without the two monotonic readings; recovering them, or saving them again, gives what it would for the originals |
| Store.Store.SaveSessionsAndEnqueue | crates/shellbell-local/src/store.rs:117-142 | one transaction: sessions replaced, then expiry, then each action in order |
| Store.Store.NextDueRing | crates/shellbell-local/src/store.rs:144-164 | expires, then returns an oldest pending row whose time has come, or nothing if there is none |
| Store.Store.MarkDelivered | crates/shellbell-local/src/store.rs:166-172 | deletes the row and nothing else |
| Store.Store.MarkRetry | crates/shellbell-local/src/store.rs:174-187 | counts the attempt and sets its next time and diagnostic |
| Store.Store.MarkAuthorizationFailure | crates/shellbell-local/src/store.rs:189-196 | counts the attempt and takes the row out of delivery |
| Store.Store.DiscardPermanent | crates/shellbell-local/src/store.rs:198-204 | deletes the row and counts one drop, even if the row was already gone |
| Store.Store.ExpireOld | crates/shellbell-local/src/store.rs:206-216 | deletes and counts exactly the rows older than the maximum age |
| Store.Store.PruneQueueIn | crates/shellbell-local/src/store.rs:276-288 | the same inside a transaction |
| Store.Store.EnqueueIn | crates/shellbell-local/src/store.rs:290-317 | makes room by one oldest row if the queue is full, counts it, then inserts unless the event is already there |
| Retry.BackoffClosedForm | crates/shellbell-local/src/daemon.rs:499-506 | the backoff after k failures is 5000*(2^k - 1) up to 8, then 900000 more for each |
| Retry.DefaultSubmissions | crates/shellbell-local/src/daemon.rs:499-506 | it stays within a day exactly for k < 103 |
| Budget.BudgetKept | crates/shellbell-local/src/daemon.rs:403-436 | every step, crash and restart included, keeps each row's next attempt behind all the backoff it has earned, and each submission within the maximum age |
| Budget.RetryBudget | crates/shellbell-local/src/daemon.rs:403-436 | over every run, whatever jitter and wall clock: next attempt at least created + backoff; submitted again only while that is within the maximum age; at most 103 recorded submissions at the default |
| DaemonLaws.BooksKept | crates/shellbell-local/src/daemon.rs:305-375 | every step of the daemon, crashes and restarts between commits included, keeps the books of bursts in memory and on disk, though silent ticks are not saved |
| DaemonLaws.BooksOverRuns | crates/shellbell-local/src/daemon.rs:69-80 | so over every run a burst has at most one ring, and that ring was stored |
| DaemonLaws.CountsKept | crates/shellbell-local/src/store.rs:166-216 | every step keeps: events stored plus phantom counts = rows + delivered + counted + owed to the counter + lost to it by a crash |
| DaemonLaws.NoSilentLoss | crates/shellbell-local/src/store.rs:166-317 | that law over every run; events stored are distinct, and a delivered one is no longer queued |
| DaemonHost.DaemonHost.Install | crates/shellbell-local/src/daemon.rs:60-80 | a first start from an empty store is a run of the step machine |
| DaemonSteps.CallsCompose | crates/shellbell-local/src/daemon.rs:106-138 | the steps of successive calls make up one run of the machine, so what holds of every run holds of every sequence of calls |
| DaemonSteps.CallsRemember | crates/shellbell-local/src/daemon.rs:106-138 | whatever is called in between, rings, stored events, deliveries and drawn identifiers are never forgotten, and a burst has at most one ring at any later time |
| DaemonHost.DaemonHost.StartUp | crates/shellbell-local/src/daemon.rs:69-80 | a session is resumed if and only if it was saved, its shell is alive and it was seen within 86,400,000 milliseconds; a settling one keeps its burst with the larger of zero and what is left to its wall deadline, an active one is armed without burst; the result is saved; it extends the run by the restart step |
| DaemonHost.DaemonHost.HandleRequest | crates/shellbell-local/src/daemon.rs:217-343 | the table changes as the command says, for a start or a return to the prompt too, and is saved; a manual ring is queued as asked for, in one batch commit, unless its burst has rung; a command that needs an unknown session is refused and nothing changes; it extends the run by the request step, or by nothing |
| DaemonHost.DaemonHost.HandleArm | crates/shellbell-local/src/daemon.rs:251-282 | the session is active at once in a new burst, in once or persistent mode as asked for, with the limits and targets given, and saved; or a refusal; it extends the run by that step, or by nothing |
| DaemonHost.DaemonHost.ProcessTimers | crates/shellbell-local/src/daemon.rs:352-375 | what rings is reworded and committed to the queue with the sessions in one transaction; every row added is that of a due session, with its title or else the configured text; a tick that rings for no one writes nothing; it extends the run by the timer step |
| DaemonHost.DaemonHost.Reword | crates/shellbell-local/src/daemon.rs:356-360 | exactly the automatic rings with the default text get the configured one |
| DaemonHost.DaemonHost.SweepSessions | crates/shellbell-local/src/daemon.rs:381-394 | keeps exactly the sessions seen within a day whose shell lives, and tells whether any went |
| DaemonHost.DaemonHost.CleanupSessions | crates/shellbell-local/src/daemon.rs:377-401 | keeps exactly the sessions with a live shell seen within 86,400,000 milliseconds, the session table saved exactly if any went, then expiry with its count; it extends the run by sweep, expiry and count |
| DaemonHost.DaemonHost.DeliverOne | crates/shellbell-local/src/daemon.rs:403-436 | after expiry, either no pending row's time has come, or an oldest of those was submitted and is delivered by a status of 200 to 299 that names it, held back by 401 or 403, put off by 429, 500 to 599, no answer or an answer that does not name it, and given up otherwise; the delay is five seconds doubled for each failure, at most 900 seconds, and up to a quarter more; it extends the run by expiry, count, selection and outcome |
| DaemonHost.DaemonHost.SubmitRow | crates/shellbell-local/src/daemon.rs:412-434 | the row submitted gets exactly the change its answer calls for, by numeric status, and a delay as above; it extends the run by selection and outcome |
| DaemonHost.DaemonHost.RecordOutcome | crates/shellbell-local/src/daemon.rs:412-434 | the four outcomes: deleted, held back, deleted and counted, or put off |
| DaemonTerms.RowLeaves | crates/shellbell-local/src/daemon.rs:412-483 | a submitted row leaves the queue if and only if an answer of 200 to 299 names its event, or the address is bad, or the status is none of 200 to 299, 401, 403, 429 and 500 to 599; only the latter two are counted; otherwise one attempt more, held back exactly on 401 or 403; no other row changes |
| DaemonTerms.OutcomeSettles | crates/shellbell-local/src/daemon.rs:412-483 | the whole queue after each answer: delivered, held back, put off to now plus the delay, or given up and counted, by numeric status |
| DaemonTerms.RelayAnswersDeliver | crates/shellbell-relay/src/lib.rs:1163-1273 | the relay's own answers, 202 for a new ring and 200 for one it had, each naming the event, delete the row and leave the counter alone |
| DaemonTerms.CommandDoes | crates/shellbell-local/src/daemon.rs:217-343 | what each command makes of the table, session by session, in the fields of the session |
| DaemonTerms.KnownReplies | crates/shellbell-local/src/daemon.rs:299-343 | a command on a known session is acknowledged; a manual ring is queued with its message and targets unless its burst has rung |
| DaemonTerms.ArmingDoes | crates/shellbell-local/src/daemon.rs:251-282 | arming once or persistently makes the session active at once in a new burst, with that mode, those limits and targets |
| DaemonTerms.TickAnnounces | crates/shellbell-local/src/daemon.rs:352-375 | every row a tick adds is that of a due session with enough time and no ring yet, with its targets, and its title or, if it has none or is titled Shell, the configured text |
| DaemonTerms.SweepKeeps | crates/shellbell-local/src/daemon.rs:377-394 | a sweep keeps exactly the sessions with a live shell seen within 86,400,000 milliseconds |
| DaemonTerms.RestartResumes | crates/shellbell-local/src/daemon.rs:69-80 | a restart resumes exactly the saved sessions with a live shell seen within 86,400,000 milliseconds: settling ones with what is left of their delay, active ones armed without burst, others as saved |
| DaemonHost.DaemonHost.ShutDown | crates/shellbell-local/src/daemon.rs:130-145 | an orderly end saves the sessions and extends the run by the shutdown step |
| DaemonHost.DaemonHost.PowerOff | crates/shellbell-local/src/daemon.rs:362-373 | a crash between two operations leaves the store as the last commit left it and extends the run by the crash step |
| Protocol.TrimIsTight | crates/shellbell-protocol/src/lib.rs:262-268 | trimming cuts white space off both ends and nothing else, leaves none there, and changes nothing if and only if there was none |
| Protocol.TrimIsUnique | crates/shellbell-protocol/src/lib.rs:262-268 | a text is the trimmed message if and only if it has no white space at its ends and the message is it with white space around |
| Protocol.SortedTagsAscend | crates/shellbell-protocol/src/lib.rs:277-286 | the validated tags are strictly ascending with the same members, and unchanged if and only if they were so |
| Protocol.ValidateMessage | crates/shellbell-protocol/src/lib.rs:262-275 | whatever is left of the message without the white space at its ends is accepted if short enough and printable, and refused otherwise; no message stays none |
| Protocol.ValidateTags | crates/shellbell-protocol/src/lib.rs:277-286 | the loop over an ordered set refuses exactly a list with a tag other than the five known ones, and otherwise returns the tags in strictly ascending order, each once |
| Relay.SubmissionKeepsTables | crates/shellbell-relay/src/lib.rs:1155-1241 | ids stay increasing, the pair of source and event unique, deliveries rooted, and the submitted event is held |
| Relay.SubmissionIsIdempotent | crates/shellbell-relay/src/lib.rs:1157-1177 | submitting again changes nothing while the ring is held |
| Relay.ForgottenByRetention | crates/shellbell-relay/src/lib.rs:1228-1240 | another submission removes a ring if and only if it is new and the ring is older than the retention |
| Relay.RelayServer.SubmitRing | crates/shellbell-relay/src/lib.rs:1153-1273 | a message or tag that is not valid is refused and nothing changes; a duplicate changes and pushes nothing and repeats the first answer; a new ring is stored with trimmed message and sorted tags, older ones go past the retention, and a push is attempted, once, to exactly the enabled, unrevoked receivers if there are no tags or one of them is the receiver's; each outcome is recorded and only a permanent failure disables; the receivers counted are those and the pull receivers that share a tag |
| Relay.RelayServer.Submit | crates/shellbell-relay/src/lib.rs:1155-1273 | the transaction and the pushes on a request already normalised: duplicate or not, and exactly the receivers that can be pushed to and share a tag are attempted once |
| Relay.NormalExactly | crates/shellbell-relay/src/lib.rs:1153-1154 | normalising leaves a valid request as it is if and only if its message is tight and its tags strictly ascending; normalising twice is normalising once |
| Relay.NormalMatchesAlike | crates/shellbell-relay/src/lib.rs:1153-1154 | sorting the tags does not change which receivers a request is for |
| Relay.RelayServer.PushAll | crates/shellbell-relay/src/lib.rs:1250-1266 | each matched receiver gets one attempt, recorded as delivered, transient or permanent failure, and a permanent failure disables it; nothing else changes |
| Relay.MatchesMeans | crates/shellbell-relay/src/lib.rs:913-915 | a ring is for a receiver if and only if it has no target tags or one of them equals one of the receiver's |
| Relay.AnswerSays | crates/shellbell-relay/src/lib.rs:1178-1266 | what an answer to a new ring says of the tables: the rings kept, the count, the deliveries and the receivers |
| EndToEndLaws.StepKept | crates/shellbell-local/src/daemon.rs:403-436 | every step of daemon, network and relay keeps the whole invariant: books, counts, timing of rows and messages, relay records, pushes |
| EndToEndLaws.FirstArrival | crates/shellbell-relay/src/lib.rs:1157-1177 | a request that arrives in time for an event the relay does not hold is the first for that event |
| EndToEndLaws.AtMostOncePerBurst | crates/shellbell-relay/src/lib.rs:1155-1266 | over every run of the chain: at most one event per burst, stored once; at most one ring per event at the relay, ever; no two push attempts for one burst at one receiver |
| EndToEndLosses.StepBalance | crates/shellbell-local/src/store.rs:166-216 | a step keeps the books exact if and only if it does not waste an event (takes the row of an accepted event out of the queue otherwise than by its acknowledgement, or brings the first request for an event whose row is gone); nothing makes inexact books exact again |
| EndToEndLosses.NothingLostOnTheWay | crates/shellbell-local/src/store.rs:166-216 | over every run: delivered events were accepted by the relay; stored events are at most those queued or accepted plus those counted, with equality if and only if no step of the run wasted an event |
| EndToEndContents.WhatArrivesWasRung | crates/shellbell-relay/src/lib.rs:1153-1241 | over every run: a ring at the relay belongs to the one ring the engine made for that event, and has its message trimmed and its targets sorted without repetition |
| EndToEndContents.ArrivesUnchangedExactly | crates/shellbell-relay/src/lib.rs:1153-1154 | over every run: a ring arrives with the message and targets it was rung with if and only if the message has no white space at either end and the targets are strictly ascending |
| EndToEndRuns.ArrivesChanged | crates/shellbell-local/src/ipc.rs:77-84 | a run, under any settings, in which a ring accepted by the daemon arrives with another message and other targets |
| EndToEndRuns.AcceptedThenGivenUp | crates/shellbell-local/src/daemon.rs:424-434 | under any settings, a run in which the inequality is strict although the row expired with no request outstanding |
| EndToEndRuns.ShortRetentionAcceptsTwice | crates/shellbell-relay/src/lib.rs:1228-1240 | under any settings and any retention below the horizon, a run in which one event gets two rings |
| EndToEndRuns.RetentionIsExact | crates/shellbell-relay/src/lib.rs:1228-1240 | every event has at most one ring over every run with a given retention if and only if that retention is at least the horizon |
| Feed.Page | crates/shellbell-relay/src/lib.rs:917-981 | the loop with its early exit returns the page the rules require: exactly the rings between floor and cursor without tags or with a tag of the receiver, in id order, at most the limit, and looking stops only at a full page or after twenty rings for each place on it and at least 100 |
| Feed.PageIsDetermined | crates/shellbell-relay/src/lib.rs:932-980 | those rules leave no choice of page and cursor |
| Feed.CursorAdvances | crates/shellbell-relay/src/lib.rs:932-980 | the cursor advances if and only if a ring lies above the floor, by at least a page's worth of rings or to the end, and always to a ring's id |
| Feed.FetchesConcat | crates/shellbell-relay/src/lib.rs:932-980 | successive fetches concatenate to the selection up to the last cursor |
| Feed.RepeatedFetchesAreExact | crates/shellbell-relay/src/lib.rs:932-980 | on a fixed table they end, within the number of pages needed for all rings above the floor, with exactly all matching ones, in order |
| Feed.FeedServer.CreatePullReceiver | crates/shellbell-relay/src/lib.rs:744-788 | a receiver starts enabled at the id of the last ring, above every ring there is |
| Feed.FeedServer.ReceiverFeed | crates/shellbell-relay/src/lib.rs:917-981 | unauthorized exactly if unknown, disabled or revoked; invalid exactly for a negative cursor; otherwise exactly the rings above both the cursor asked for and the acknowledged one, up to the returned one, that have no tags or share one, in order, of the size asked for (50 if none, between 1 and 100) |
| Feed.FeedServer.Acknowledge | crates/shellbell-relay/src/lib.rs:983-1012 | the acknowledged cursor becomes the larger one |
| FeedRuns.NothingSkipped | crates/shellbell-relay/src/lib.rs:917-1012 | over every run of a client that acknowledges only cursors it was given and fetches from none beyond all of those and the acknowledged one: each ring meant for it was seen, is still above the acknowledged cursor, or was removed by retention |
| FeedRuns.AcknowledgedForGood | crates/shellbell-relay/src/lib.rs:917-1012 | from any point of any run the acknowledged cursor never decreases, and calls authenticated later never show a ring at or below it |
| FeedRuns.RemovedByRetention | crates/shellbell-relay/src/lib.rs:1228-1240 | a step removes a ring only if it is a submission and the ring older than the retention |
| FeedRuns.MadeUpCursorsSkip | crates/shellbell-relay/src/lib.rs:930-931 | from a registration, through two submissions: a call from beyond the cursors given, after which an otherwise careful client can acknowledge a stored ring unseen |
| FeedRuns.CallSkipsExactly | crates/shellbell-relay/src/lib.rs:930-931 | from every reachable world: one call can lead to a stored matching ring being acknowledged unseen if and only if it reaches past every id given out or past a matching stored ring beyond the client's cursors; a call not beyond those cursors cannot |
| FeedRuns.PassingOthersIsSafe | crates/shellbell-relay/src/lib.rs:930-931 | from a registration, through two submissions: a call beyond the cursors given that can skip nothing, since it passes only a ring for others |
| Pairing.DecidedOnce | crates/shellbell-relay/src/lib.rs:481-600 | under every interleaving of statements a request leaves pending at most once; approved requests and sources are in one-to-one correspondence |
| Pairing.DecisionsAreFinal | crates/shellbell-relay/src/lib.rs:481-600 | a decided request stays as it was decided |
| Pairing.DecidedInTime | crates/shellbell-relay/src/lib.rs:481-600 | over every run, a statement that finds a request pending approves or rejects it only before its deadline and expires it only at or after it, and records when |
| Pairing.ApprovalsAreInTime | crates/shellbell-relay/src/lib.rs:573-578 | over every run, every approved request was decided before its deadline |
| Pairing.TokensAuthenticateUntilRevocation | crates/shellbell-relay/src/lib.rs:602-616 | a token authenticates if and only if it was issued before the source was revoked and the source is not revoked; at most one is issued until then |
| Pairing.RevokedSourceGetsAnotherToken | crates/shellbell-relay/src/lib.rs:499-514 | a poll after revocation can be given another token, which authenticates for nothing |
| Pairing.PairingServer.CreatePairing | crates/shellbell-relay/src/lib.rs:453-479 | a new pending request that expires after the time given; no other changes |
| Pairing.PairingServer.PollPairing | crates/shellbell-relay/src/lib.rs:481-526 | not found; or the state, expired from the deadline on, and the request expired then; a token exactly if the request is approved and its source has no token, and then that source and no other has it |
| Pairing.PairingServer.ListPairings | crates/shellbell-relay/src/lib.rs:528-549 | exactly the pending requests at or past their deadline expire, and exactly the other pending ones are listed |
| Pairing.PairingServer.ApprovePairing | crates/shellbell-relay/src/lib.rs:551-587 | approved, with a source of its name, if and only if the request exists, is pending and its deadline is still to come; a pending one that is late ends expired, and no source is added |
| Pairing.PairingServer.RejectPairing | crates/shellbell-relay/src/lib.rs:589-600 | a pending request is rejected, or expired from its deadline on; any other is a conflict and stays |
| Pairing.PairingServer.RevokeSource | crates/shellbell-relay/src/lib.rs:673-691 | a source not revoked yet is revoked and loses its token; afterwards no token authenticates for it; any other is not found |
| Pairing.PairingServer.SourceAuth | crates/shellbell-relay/src/lib.rs:602-616 | finds a source that is not revoked and holds the token's hash, if and only if there is one |
| Limiter.RateLimiter.Check | crates/shellbell-relay/src/lib.rs:73-87 | the shared map decides each call as the key's own calls alone would: admitted if and only if fewer than the limit were counted in the window that is still running, a new window starting with the call otherwise; no other key changes |
| Limiter.OtherKeysDoNotMatter | crates/shellbell-relay/src/lib.rs:73-87 | a key's entry and admissions are those of the calls with that key only |
| Limiter.AdmissionBound | crates/shellbell-relay/src/lib.rs:73-87 | each window admits at most the limit, and any interval of a window's length at most twice the limit less one |
| Limiter.BoundIsAttained | crates/shellbell-relay/src/lib.rs:73-87 | that bound is attained for every limit and window |
| Startup.AppendedLines | crates/shellbell-local/src/install.rs:298-326 | the lines after appending are those of the text with its last line completed, then the new line |
| Startup.Detectable | crates/shellbell-local/src/install.rs:262-269 | an appended line is found again if and only if it has no line feed |
| Startup.RoundTripExactly | crates/shellbell-local/src/install.rs:328-347 | for every text without a managed line, removal undoes appending, up to completing the last line, if and only if the text has one line-ending style and is not a single blank line |
| Startup.RoundTrip | crates/shellbell-local/src/install.rs:328-347 | a terminated text in one style comes back as it was |
| Startup.RoundTripUnterminated | crates/shellbell-local/src/install.rs:328-347 | an unterminated one comes back with one line ending of its style |
| Startup.RemovalLeavesNone | crates/shellbell-local/src/install.rs:328-347 | whatever the text, no managed line survives removal |
| Startup.SourceLineIsManaged | crates/shellbell-local/src/install.rs:250-260 | the installer's line can be found and removed if and only if the quoted path has no line feed |
| Startup.SourceLineNamesPath | crates/shellbell-local/src/install.rs:250-260 | for every path, the line is the command, one POSIX shell word that reads back as exactly that path, and the marker |
| Startup.StartupFile.ContainsLine | crates/shellbell-local/src/install.rs:262-269 | whether a line of an existing file equals the expected one |
| Startup.StartupFile.AppendLine | crates/shellbell-local/src/install.rs:298-326 | the stepwise writes leave the specified text; a missing file is created |
| Startup.StartupFile.RemoveManagedLines | crates/shellbell-local/src/install.rs:328-347 | the file is replaced by the specified text, or is missing |
| Password.HmacSha256 | crates/shellbell-core/src/lib.rs:111-136 | the in-place pads compute HMAC as defined in section 2 of RFC 2104 |
| Password.Pbkdf2Sha256 | crates/shellbell-core/src/lib.rs:95-109 | the XOR loop computes T_1 of PBKDF2, section 5.2 of RFC 8018, for every number of iterations |
| Password.HexDigest | crates/shellbell-core/src/lib.rs:39-47 | the loop prints two digits for each byte |
| Password.HexAt | crates/shellbell-core/src/lib.rs:39-47 | each byte prints as its high and then its low four bits, in lower case |
| Password.HexInjective | crates/shellbell-core/src/lib.rs:39-47 | different bytes print differently |
| Password.VerifySecret | crates/shellbell-core/src/lib.rs:49-52 | accepts exactly the secrets whose digest prints as expected |
| Password.StoredHashAccepts | crates/shellbell-core/src/lib.rs:35-52 | a stored hash accepts exactly the secrets with the digest it was made from |
| Base64.DecodeEncode | crates/shellbell-core/src/lib.rs:57-62 | decoding undoes encoding |
| Base64.EncodeDecode | crates/shellbell-core/src/lib.rs:76-87 | decoding accepts nothing but encodings |
| Base64.GroupIsNumber | crates/shellbell-core/src/lib.rs:57-62 | three bytes and their four characters are the same number of twenty-four bits |
| Records.ParseDecimal | crates/shellbell-core/src/lib.rs:70-72 | a printed number parses back and has no dollar sign |
| Records.ParsePrinted | crates/shellbell-core/src/lib.rs:65-91 | a printed record parses back if its numbers are acceptable, and not otherwise |
| Records.ParsedIsPrinted | crates/shellbell-core/src/lib.rs:65-91 | whatever parses is a printed record, but for the way its numeral is written |
| Records.HashPassword | crates/shellbell-core/src/lib.rs:54-63 | prints the record of the key derived from the password and salt |
| Records.VerifyPassword | crates/shellbell-core/src/lib.rs:65-93 | accepts if and only if the text parses to a record whose key is derived from the password |
| Records.RecordAccepts | crates/shellbell-core/src/lib.rs:54-93 | for every password, salt and permitted iteration count: the record accepts its password, and another exactly if the same key is derived from it |
| Records.AcceptedIsRecord | crates/shellbell-core/src/lib.rs:65-93 | every text that accepts a password is, but for its numeral, the record made for it |

## Left out

- HTTP routing, cookies, CSRF, owner sessions, JSON and TOML decoding, Unix sockets, systemd, file permissions, backups, the shell hooks and the web client: plumbing around the modelled cores.
- SQLite itself: each statement or transaction is one atomic step that does not fail; `ORDER BY created_at_ms LIMIT 1` picks any oldest row. A failing local store is not modelled: in the timers, the delivery loop and the clean-up it ends the daemon after one more attempt to save the sessions, while in a request it is answered with an error and the daemon goes on.
- Serialization of sessions and rows: reading back what was written gives the value without its skipped fields.
- SHA-256 is an arbitrary function with 32-byte results, and a source's token hash names one token; collisions are not modelled there.
- Passwords and secrets are byte strings; their UTF-8 encoding, constant-time comparison and random generation are not modelled.
- Read-only views (status, ping, lists of sources, receivers and rings), settings, receiver editing, and the validators of names, addresses and keys and those of the daemon's own interface; in `EndToEnd` receivers and settings may change at any time instead.
- A session is a value inside the engine's mutable table; a reference to it held across calls is not modelled.
- Arming with mode off, which the daemon never does, is excluded by the preconditions.
- The step machine allows timers and expiry while a request is outstanding, which the daemon's loop does not; every run of the program is a run of the machine.
- Wall clock readings lie between 1970 and a point far from the end of the type; the monotonic clock does not run backwards within one life of the daemon.
- The network path of the daemon: reading credentials, building the address and the HTTP exchange are summed up in the answer given to `DeliverOne`; diagnostics do not repeat the HTTP status text.
- One fixed source identity in `EndToEnd`; a new pairing starts a new one.
- Startup.SourceLineNamesPath: for POSIX shells; fish reads a backslash in quotes differently, which is not modelled.
- Feed cursors arrive as parsed integers; a cursor that is not a number is refused before the model begins, like a negative one in it. The feed's receiver keeps its tags and its token.
- EndToEndRuns.RetentionIsExact: for settings whose maximum age plus skew is below the largest wall clock reading of the model, as every real setting is.
- DaemonHost.DaemonHost.DeliverOne: runs without interleaving; requests and crashes between its statements are covered by the step machine of `Daemon`, not by this method.
- Pairing.PairingServer.PollPairing: runs its statements without interleaving; interleavings are covered by the step machine of the same module.
- Startup.StartupFile.AppendLine: works on text; a file that is not valid UTF-8, which appending accepts and removal refuses, is not modelled.
- Limiter.AdmissionBound: one limit and window per key, as every caller uses it; keys of clients are not modelled.
- Tables of the limiter and of rejected requests grow without bound in the program and in the model alike; nothing is said about memory.
