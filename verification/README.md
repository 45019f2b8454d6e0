# Verified model of banc's exclusivity and verdict machinery

banc runs hardware-in-the-loop tests. Its delicate code keeps one runner at a time
on a rig and keeps verdicts honest. This project models that code in Dafny and
proves what it guarantees over all inputs, all interleavings and all runs.

Times are nanosecond counts, the host clock's own resolution. Clocks, network
delays, RNG draws, probe results and child exit codes are inputs. Code that updates
objects step by step is a class whose methods are proved against a specification
function; code that runs concurrently is a step system whose transitions are those
same functions, and the theorems quantify over every run of it.

| file | what it models |
|---|---|
| `LeaseServer.dfy` | the daemon's single-slot lease, lazy expiry, and its whole request history |
| `LeaseTiming.dfy` | the renew thread's period against the server's expiry test |
| `LeaseProtocol.dfy` | N lease clients, their streams and the server, as one step system |
| `PunctualClient.dfy` | a client of that system whose renew thread keeps its pace |
| `RenewLoop.dfy` | what a client does with what it is told: grants, failures, releases |
| `LeaseClient.dfy` | the acquire loop, and the bound on tries shared with the file lock |
| `PinMonitor.dfy` | the assistant firmware's monitor tasks, stop signals and GPIO endpoints |
| `RigLock.dfy` | the flock and the holder note, with probes, crashes and deletion |
| `LineSplitter.dfy` | the RTT line splitter and its memory cap |
| `ProbeWorker.dfy` | the probe worker's loop and capture health |
| `Framing.dfy`, `Handshake.dfy` | length-prefixed frames and the token handshake |
| `DeviceTest.dfy`, `Runner.dfy` | device verdicts, the retrying runner, paired scenarios |
| `Evidence.dfy`, `Expect.dfy` | the bounded evidence log; expecting events and silence |
| `UniqueId.dfy` | the unique-id pin of a node |
| `Common.dfy` | options, results, integer ranges, concatenation |

Four statements in the repository's comments are not what its code does. The model
follows the code and proves the exact statement:

- "A couple of missed renewals" do not lose the rig (`banc-host/src/net/lease.rs:20`).
  `LeaseTiming.ToleranceIsOneMiss` gives the exact condition, and
  `LeaseTiming.TwoMissesLoseTheRig` and `LeaseTiming.CoupleOfMissesExample` show that
  two misses always lose it.
- `RttCapture::error` is None only while healthy or after a normal stop
  (`banc-probe/src/lib.rs:117-119`). `ProbeWorker.SilenceIsHonestIff` gives the exact
  condition, `ProbeWorker.FlashEndsACaptureSilently` a smallest counterexample.
- "On failure the peer got Denied" (`banc-host/src/net/mod.rs:186`).
  `Handshake.DeniedIffRefusedAndSent` gives the exact condition: the Hello was read and
  decoded, was refused, and the Denied was written in full. Counterexamples are
  `Handshake.HangUpIsNotDenied` and, with a good Hello, `Handshake.ResetIsNotDenied`.
- "A flaky pass still shows its failed attempt" (`banc-host/src/runner.rs:53-54`). The
  runner's note of the failure goes through the same bounded log as everything else, and
  a pass discards the log. `Runner.FlakyPassKeepsAFailureIff` says exactly when the note
  is still in the log and that none of it is shown, `Runner.FlakyPassForgetsItsFailure`
  is a counterexample, and `Runner.FailedTrialShowsAFailureIff` says exactly what a
  trial that fails in the end shows of its earlier failures.

One more fact is nowhere stated: a panicking body unwinds out of the trial closure,
so it leaves no record (`Runner.RecordAgreesWithResult`).

## Model

| member | source | states |
|---|---|---|
| LeaseServer.LeaseServer.Handle | banc-host/src/net/lease.rs:351-399 | one request against the slot: sweep a lapsed lease, then grant, refuse, renew, release or report |
| LeaseServer.LeaseServer.Holder | banc-host/src/net/lease.rs:343-349 | the holder query filters a lapsed lease without sweeping it |
| LeaseServer.GrantBehind | banc-host/src/net/lease.rs:363-373 | a filled slot is always exactly some earlier grant's lease with the deadline its requests imply |
| LeaseServer.SlotIsHistory | banc-host/src/net/lease.rs:351-399 | with fresh ids, a lease is live in the slot exactly when the request history alone says its grant is still owned |
| LeaseServer.AtMostOneOwner | banc-host/src/net/lease.rs:354-374 | ownership periods of different grants never overlap |
| LeaseServer.GrantedIffAllOver | banc-host/src/net/lease.rs:358-374 | an Acquire is granted exactly when every earlier grant was released or outlived its last grant or renewal plus clamped ttl |
| LeaseServer.RenewedIffOwned | banc-host/src/net/lease.rs:375-381 | a Renew is Ok exactly while its grant is owned, else Gone |
| LeaseServer.RenewsAreOkThenGone | banc-host/src/net/lease.rs:354-381 | the Renew replies for one lease are a run of Ok followed only by Gone |
| LeaseServer.AnswersFitRequests | banc-host/src/net/lease.rs:357-398 | every request is answered in kind, and a Release with Ok whether or not it freed anything |
| LeaseServer.ClampedIsNearest | banc-host/src/net/lease.rs:364-368 | of all the times allowed the server takes the one nearest to that requested |
| LeaseServer.LeaseIsBounded | banc-host/src/net/lease.rs:363-379 | after any request a held lease has time left, at most its clamped ttl |
| LeaseServer.LazyRefinesTimer | banc-host/src/net/lease.rs:343-399 | every reply and every holder query equals that of a server whose timer empties the slot at the instant of expiry |
| LeaseServer.IneffectiveRequestsAreErasable | banc-host/src/net/lease.rs:351-399 | dropping any set of Status, Busy Acquires, Gone Renews and non-matching Releases changes no other reply and no later owner or expiry |
| LeaseServer.SecondsLeftAreExact | banc-host/src/net/lease.rs:361 | the reported seconds are the floor of the true remaining time and the 32-bit cast loses nothing |
| LeaseServer.BusySecondsAreExact | banc-host/src/net/lease.rs:359-362 | in every run a contender is told the exact floor, never more than 3600 |
| LeaseServer.AnswersNameTheOwner | banc-host/src/net/lease.rs:358-392 | Busy and Status name the owner that the history implies and the whole seconds its deadline leaves |
| LeaseServer.StatusFreeIffUnowned | banc-host/src/net/lease.rs:388-397 | Status reports a free rig exactly when no grant is owned |
| LeaseServer.ToldToWaitThenGranted | banc-host/src/net/lease.rs:358-374 | an Acquire that many seconds plus one later is granted if nobody was granted or renewed meanwhile |
| LeaseTiming.RenewalsAreUnderATtlApart | banc-host/src/net/lease.rs:246-258 | roundtrips under a third of the ttl put successive contacts at the server less than a ttl apart |
| LeaseTiming.PunctualHolderKeepsTheRig | banc-host/src/net/lease.rs:246-258 | in any request history with such rounds in it the holder is never answered Gone and no contender is granted before its Release, whatever else reaches the server |
| LeaseTiming.ArrivalAfterMisses | banc-host/src/net/lease.rs:246-280 | after m misses the next Renew arrives m + 1 periods plus the time lost after the last good contact |
| LeaseTiming.NextContactIsOkIffInTime | banc-host/src/net/lease.rs:354-381 | the next Renew to arrive is Ok exactly if it comes less than a ttl after the last contact |
| LeaseTiming.ToleranceIsOneMiss | banc-host/src/net/lease.rs:20-22 | it is Ok if and only if fewer than two were missed and the time lost is under a third of the ttl per miss left |
| LeaseTiming.TwoMissesLoseTheRig | banc-host/src/net/lease.rs:246-281 | after two consecutive misses the next Renew arrives at or past expiry and is Gone, however fast the wire |
| LeaseTiming.CoupleOfMissesExample | banc-host/src/net/lease.rs:20-22 | a concrete run in which two missed renewals lose the rig |
| LeaseProtocol.NextKeepsInv | banc-host/src/net/lease.rs:158-302 | every step of every client and of the server keeps the protocol's invariant |
| LeaseProtocol.MutualExclusion | banc-host/src/net/lease.rs:158-200 | at every instant of every run at most one client has read Granted or Ok, not written Release since, and is within a ttl of the answered request's send time |
| LeaseProtocol.SomeRunGrantsTheRig | banc-host/src/net/lease.rs:165-191 | a concrete run in which a client comes to hold the rig, so the exclusion is not vacuous |
| LeaseProtocol.BelieverHasTheSlot | banc-host/src/net/lease.rs:237-282 | such a client's lease is the one live in the server's slot |
| LeaseProtocol.GrantFindsNoBeliever | banc-host/src/net/lease.rs:284-302 | when the server grants, no client believes any more, so nobody regains the rig before its own old lease lapsed |
| LeaseProtocol.RenewReplyExpected | banc-host/src/net/lease.rs:256-269 | the reply read by the renew loop answers one of its own Renews, so the "unexpected reply" arm is unreachable |
| LeaseProtocol.ReplyIsAsOldAsTheTimeouts | banc-host/src/net/lease.rs:88-91 | after m timed-out roundtrips on a kept stream the outcome acted on is m requests old |
| LeaseProtocol.StreamAndIdSwapTogether | banc-host/src/net/lease.rs:261-279 | stream and id change only together, on a Granted naming that id, and the new stream starts aligned |
| PunctualClient.PunctualClientKeepsTheRig | banc-host/src/net/lease.rs:237-282 | in every run of the protocol, a client that sleeps its period and whose roundtrips succeed within a third of the ttl believes it has the rig throughout, reads only Ok, keeps stream and id, and nobody is granted meanwhile |
| PunctualClient.SomeClientIsPunctual | banc-host/src/net/lease.rs:246-258 | a concrete run with such a client renewing, so the theorem is not vacuous |
| RenewLoop.LeaseIsTheLastGrant | banc-host/src/net/lease.rs:237-302 | at every instant of every run a client that has not stopped is in its loop exactly if it has read a Granted, and its stream and id are those of the last one it read |
| RenewLoop.AcquireReplyExpected | banc-host/src/net/lease.rs:165-188 | a waiting acquire reads Granted or Busy and nothing else; it holds on the first, gives up on a Busy past its deadline, and asks again after any other |
| RenewLoop.FailureLeadsToReacquire | banc-host/src/net/lease.rs:256-281 | a client is re-acquiring exactly while a renewal of its own has failed with no attempt ended since; it neither renews nor releases before that |
| RenewLoop.LoopEndsOnlyWhenTold | banc-host/src/net/lease.rs:246-255 | the loop has no error exit: it ends exactly by its Release or with its process |
| RenewLoop.ReleaseFreesTheRig | banc-host/src/net/lease.rs:248-252 | once the server has served the stream of a client that stopped by release, its lease is not in the slot |
| Retry.TriesAreBounded | banc-host/src/net/lease.rs:165-188 | a loop pacing its tries goes on only within ceil(timeout / step) of them |
| LeaseClient.Acquire | banc-host/src/net/lease.rs:158-188 | fails without a connection; else stops at the first reply that is not Busy, or at the first Busy past the deadline, within ceil(timeout) + 1 tries |
| PinMonitor.Assistant.RunTask | banc-assistant/src/main.rs:339-402 | the monitor handler between two awaits |
| PinMonitor.Assistant.GpioConfig | banc-assistant/src/main.rs:275-294 | configures the pin in its slot, or answers Unsupported or Busy and changes nothing |
| PinMonitor.Assistant.GpioSet | banc-assistant/src/main.rs:296-305 | drives the pin in its slot, or answers Unsupported or Busy and changes nothing |
| PinMonitor.Assistant.GpioRead | banc-assistant/src/main.rs:307-320 | reads the pin in its slot and changes nothing |
| PinMonitor.PinIsInOnePlace | banc-assistant/src/main.rs:88-90 | in every interleaving pin i is in slot i or inside exactly one task, never both or neither |
| PinMonitor.PoolHasHeadroom | banc-assistant/src/main.rs:336-338 | as many tasks own pins as slots are empty, so two pool entries are never monitors |
| PinMonitor.GpioNeverTouchesAMonitoredPin | banc-assistant/src/main.rs:275-320 | Busy exactly while a task owns the pin; owned pins, tasks and other slots are never touched |
| PinMonitor.SignalMeansStopAsked | banc-assistant/src/main.rs:352-369 | the latched signal a live monitor sees says exactly whether a disable was processed since it took the pin |
| PinMonitor.SelectObeysStops | banc-assistant/src/main.rs:381-398 | at its select a monitor leaves exactly when so asked, and begins a publish only otherwise |
| PinMonitor.StopStaysAsked | banc-assistant/src/main.rs:352-398 | a stop asked of a live monitor stays asked under all interleavings |
| PinMonitor.DisableIsNeverLost | banc-assistant/src/main.rs:352-398 | after a disable a monitor begins no publish and its next select ends it |
| PinMonitor.EventsAreNumberedInOrder | banc-assistant/src/main.rs:380-396 | a monitor's events are numbered consecutively from zero modulo 2^16 |
| PinMonitor.ReplyIsRight | banc-assistant/src/main.rs:345-367 | a monitor request is answered Unsupported exactly for a pin out of range, Done exactly for a disable of one that exists, and Busy only for an enable while another task owned that very pin |
| PinMonitor.EnableIsBusyIffOwned | banc-assistant/src/main.rs:360-369 | an enable that comes to the table is told Busy exactly if its pin is owned, else it takes that pin and announces it |
| PinMonitor.ReturnsIff | banc-assistant/src/main.rs:370-398 | a task comes to return its pin exactly when its Ok could not be sent, or when it was asked to stop and reaches its select |
| PinMonitor.MonitorLastsUntilStopped | banc-assistant/src/main.rs:370-398 | a monitor whose Ok went out watches or publishes that pin at every later moment until the select that finds a stop asked |
| PinMonitor.EveryTaskMovesOn | banc-assistant/src/main.rs:339-402 | every task that runs comes nearer its end, except a monitor not asked to stop, and a publish leads back to the select |
| PinMonitor.PinIsAsLeft | banc-assistant/src/main.rs:275-320 | wherever a pin is, its mode and level are the last that were asked of it while no task owned it |
| PinMonitor.ReadReturnsTheLastSet | banc-assistant/src/main.rs:307-320 | a read is Busy exactly while a task owns the pin, and else returns the level it was last set to |
| RigLock.LockFile.Take | banc-host/src/rig.rs:236-284 | polls until free or past the deadline within ceil(timeout / 200 ms) + 1 tries; only success touches the file, writing the note over whatever a best-effort truncation left |
| RigLock.TakeIsItsSteps | banc-host/src/rig.rs:252-268 | the step system's truncate, write and ready from a fresh lock leave exactly the file that Take leaves |
| RigLock.StaleTailIff | banc-host/src/rig.rs:260-266 | the file reads as the new note alone exactly if the truncation worked or the old text was no longer; else the old tail follows |
| RigLock.ReleaseIsItsSteps | banc-host/src/rig.rs:287-295 | erase and unlock leave the lock free and the note gone, or all of it there when the truncation failed |
| RigLock.OneHolderPerInode | banc-host/src/rig.rs:209-284 | on one inode at most one process is in any lock-holding phase |
| RigLock.OnlyHoldersWrite | banc-host/src/rig.rs:236-295 | only the lock's holder ever changes the file |
| RigLock.TakesIffFree | banc-host/src/rig.rs:252-253 | a try takes the lock exactly if no process is in a holding phase on the inode, else the taker polls on |
| RigLock.LettingGoFrees | banc-host/src/rig.rs:221-294 | after an unlock, the end of a probe or the death of a holding process nobody has the inode |
| RigLock.OpenFollowsThePath | banc-host/src/rig.rs:241-249 | a taker polls the inode the path leads to; a new one is made exactly if it leads nowhere |
| RigLock.ProbeIsHonest | banc-host/src/rig.rs:209-226 | a status probe sees the rig held exactly when the file exists and some process is in a lock-holding phase on it, and touches no note |
| RigLock.NoteNamesHolderOrTheDead | banc-host/src/rig.rs:262-294 | with working truncations each byte of the file was written by the lock's holder or by a process that crashed |
| RigLock.CrashFreeNoteNamesTheHolder | banc-host/src/rig.rs:193-199 | without crashes a non-empty note's author holds the lock at that moment |
| RigLock.ToldOfTheHolderOrTheDead | banc-host/src/rig.rs:193-281 | a probe or a timed-out contender is told what is in the file the path leads to, and every byte is by the process holding the lock at that moment or by one that crashed earlier in the run |
| RigLock.ToldTheHoldersNote | banc-host/src/rig.rs:193-281 | while a process signs or holds, whoever asks is told exactly that process's note, as far as its own writes have gone |
| RigLock.AskersAreTold | banc-host/src/rig.rs:209-281 | exactly the timed-out contenders and the probes that found the rig held go on to read the note, and end told unless they crash |
| RigLock.SignedNoteIsTheHolders | banc-host/src/rig.rs:262-268 | crashes or not, past its own truncation a holder's file is a prefix of its own note |
| RigLock.UndeletedMeansOneHolder | banc-host/src/rig.rs:228-234 | while nobody deletes the file the rig has at most one holder |
| RigLock.DeletingLetsASecondHolderIn | banc-host/src/rig.rs:179-184 | a concrete run: deleting the file frees no lock and lets a second process hold one |
| LineSplitter.Splitter.Poll | banc-probe/src/local.rs:232-262 | drains each complete line, then flushes an over-long rest |
| LineSplitter.SplitIsSplit | banc-probe/src/local.rs:247-252 | the canonical split is lines with one final newline each, a newline-free rest, and nothing else |
| LineSplitter.BytesAreConserved | banc-probe/src/local.rs:232-262 | lines emitted followed by the buffer are all the bytes read, in order, for any chunking |
| LineSplitter.MemoryIsCapped | banc-probe/src/local.rs:20-22 | after every poll the buffer is newline-free and at most MAX_LINE; no line exceeds MAX_LINE + 1024 |
| LineSplitter.BoundedMeansCanonical | banc-probe/src/local.rs:246-260 | with no over-long stretch the sink sees the canonical lines, whatever the chunking |
| LineSplitter.ChunkingIsInvisibleIffBounded | banc-probe/src/local.rs:253-260 | chunking is invisible exactly for the streams with no newline-free stretch over MAX_LINE |
| ProbeWorker.CaptureHealth.Fault | banc-probe/src/lib.rs:90-97 | records a fault only if none is recorded |
| ProbeWorker.FirstFaultStays | banc-probe/src/lib.rs:90-97 | after any faults the first is the one reported |
| ProbeWorker.Worker.Trip | banc-probe/src/local.rs:142-212 | one trip round the worker's loop: a command, then one poll, which may read, fault or be unwound by the sink |
| ProbeWorker.CaptureHealthIsTheCause | banc-probe/src/local.rs:142-212 | a capture is polled exactly until the one step that ends it, and shows a fault exactly when that step was that fault |
| ProbeWorker.StoppedMeansAsked | banc-probe/src/local.rs:191-208 | a trip ends a capture on its owner's behalf exactly if it was still polled, no command ended it, and its owner had stopped or dropped it before |
| ProbeWorker.StopIsObeyed | banc-probe/src/lib.rs:125-131 | a dropped capture is not polled after the next trip, or ever again |
| ProbeWorker.OnlyTheEndEndsIt | banc-probe/src/local.rs:142-160 | the worker stops running exactly with its target or a panicking sink, not with a fault, flash or stop |
| ProbeWorker.NoTripAfterTheEnd | banc-probe/src/local.rs:142-160 | and after that makes no further trip |
| ProbeWorker.SilenceIsHonestIff | banc-probe/src/lib.rs:117-122 | no fault means polled or stopped by the owner, exactly for captures not ended by Flash, a later StartRtt, a dropped target or a panicking sink |
| ProbeWorker.FlashEndsACaptureSilently | banc-probe/src/local.rs:161-168 | a concrete capture that ends with no fault and no stop |
| Framing.FrameIsTaken | banc-host/src/net/mod.rs:58-77 | a reader takes a payload off a stream exactly when the stream starts with that payload's frame and it is within MAX_FRAME |
| Framing.FrameErrors | banc-host/src/net/mod.rs:65-98 | too long exactly for a prefix above MAX_FRAME, of which only the prefix is read; end of file exactly for a stream that stops inside a prefix or a frame, which is all read |
| Framing.FrameLayout | banc-host/src/net/mod.rs:58-63 | a frame is the payload's length, least significant byte first, and the payload |
| Framing.WireRoundTrips | banc-host/src/net/mod.rs:58-98 | every sequence of payloads is read back exactly and in order |
| Framing.TruncatedWireReadsBack | banc-host/src/net/mod.rs:65-98 | any prefix of the wire reads as exactly its whole frames, then end of file |
| Framing.WholeFramesAreWhole | banc-host/src/net/mod.rs:65-98 | the frames read back are the most that fit in the prefix |
| Framing.CutFrameIsEof | banc-host/src/net/mod.rs:58-77 | a frame whose write broke off is end of file to its reader |
| Framing.Wire.ReadExact | banc-host/src/net/mod.rs:67 | exact reads see the bytes regardless of how they are cut into pieces |
| Framing.Wire.ReadFrame | banc-host/src/net/mod.rs:86-98 | one frame or the error, and what is left unread |
| Framing.Wire.WriteFrame | banc-host/src/net/mod.rs:58-84 | appends the frame, or on an error as many of its bytes as got out, and says which |
| Framing.Wire.ReadFrames | banc-host/src/net/mod.rs:164-172 | reading on returns what the bytes say, however they were cut up |
| Handshake.TokenEqIsEquality | banc-host/src/net/mod.rs:100-108 | the fold without early exit accepts exactly equal tokens |
| Handshake.ServerHandshake | banc-host/src/net/mod.rs:188-212 | the server's result, its unread rest and the bytes its peer gets, with a failing socket option, read, decode or write |
| Handshake.ClientHandshake | banc-host/src/net/mod.rs:112-128 | the client's Hello, which may not get out, and its conclusion from the reply |
| Handshake.AcceptsIffToken | banc-host/src/net/mod.rs:188-212 | on any bytes whatever the server accepts in a role exactly if they start with a frame that decodes to a Hello of its version, with its token, in that role, and its answer is written; it answers nobody else |
| Handshake.FailuresHaveTheirCauses | banc-host/src/net/mod.rs:188-212 | each way the handshake fails has its own cause in the bytes, the socket option or the write |
| Handshake.ClientSucceedsIffAccepted | banc-host/src/net/mod.rs:112-128 | a client succeeds exactly on bytes that start with a frame decoding to an acceptance, and is denied or confused exactly on its other two kinds |
| Handshake.AcceptedIffVersionAndToken | banc-host/src/net/mod.rs:194-211 | a decoded Hello is accepted exactly when version and token match and the answer is written, refused exactly when they do not and it is, and the next frame is unread |
| Handshake.DeniedIffRefusedAndSent | banc-host/src/net/mod.rs:184-212 | the peer of a failed handshake reads Denied exactly when its Hello was read and decoded, did not match, and the Denied was written in full; it may even read an Ok, else it reads end of file |
| Handshake.HangUpIsNotDenied | banc-host/src/net/mod.rs:184-194 | a peer that hangs up fails the handshake unanswered |
| Handshake.ResetIsNotDenied | banc-host/src/net/mod.rs:194-211 | so does one whose good Hello arrives but whose connection breaks before the answer, whatever its token |
| Handshake.BothSidesAgree | banc-host/src/net/mod.rs:112-231 | both ends succeed exactly when the tokens agree, and both are left on the first later frame |
| DeviceTest.DeviceTest.Start | banc-host/src/device.rs:74-108 | panics unless idle; a missing crate dir is a cached failure; else the child runs |
| DeviceTest.DeviceTest.Verdict | banc-host/src/device.rs:133-158 | takes the state, awaits or repeats the outcome, caches it; cancelled, it leaves the handle idle |
| DeviceTest.DeviceTest.FailureContext | banc-host/src/device.rs:114-127 | speaks only for a device side that has already failed |
| DeviceTest.PassMeansTheChildSucceeded | banc-host/src/device.rs:129-158 | after any calls a Pass means the last child this handle started exited successfully |
| DeviceTest.VerdictIsFinal | banc-host/src/device.rs:129-158 | a verdict about a started child is repeated by every later call, and a second start panics |
| DeviceTest.ChildIsReported | banc-host/src/device.rs:114-158 | the first call to hear of a child says how it ended, a context only if it ended badly; asking while it runs tells nothing and leaves it running |
| DeviceTest.MissingDirIsRemembered | banc-host/src/device.rs:74-108 | a missing crate directory is what every later verdict and context reports |
| DeviceTest.NeverStartedIsNotFinal | banc-host/src/device.rs:134-140 | "never started" is the one verdict that a later start can still change to Pass |
| Runner.RunTrial | banc-host/src/runner.rs:101-195 | one trial on each kind of rig: result, record, what its bounded evidence log holds at the end, and the report a failure leaves |
| Runner.RunAttempts | banc-host/src/runner.rs:124-156 | stops at the first attempt that does not merely fail or at the last, and logs attempts, failures and boundaries in that order |
| Runner.ReportFailure | banc-host/src/runner.rs:172-189 | a failure with evidence shows the last forty records and saves the whole log if that works; without evidence nothing |
| Runner.RigCell.GetOrInit | banc-host/src/runner.rs:103-107 | the rig is acquired once and the first answer stays |
| Runner.RunSuite | banc-host/src/runner.rs:87-197 | every trial of a suite runs against the one rig state acquired first |
| Runner.RecordAgreesWithResult | banc-host/src/runner.rs:108-194 | a record's outcome and reason equal the returned ones and it names a log exactly when one was saved; only a panic on a rig leaves none; ignored exactly when skipped |
| Runner.ReportsIffFailedWithEvidence | banc-host/src/runner.rs:165-189 | exactly the trials that fail on a rig with something in evidence report it |
| Runner.CompletesIffAnAttemptSucceeded | banc-host/src/runner.rs:124-156 | completes, or unwinds, exactly when some allowed attempt succeeded, or panicked, after plain failures only; a failure is that of the last allowed attempt |
| Runner.FlakyPassKeepsAFailureIff | banc-host/src/runner.rs:50-54 | a pass on a retry still has a failed attempt's note in its log exactly while fewer than 50000 records follow the note, and it reports nothing |
| Runner.FlakyPassForgetsItsFailure | banc-host/src/runner.rs:50-54 | a concrete two-attempt pass whose log has lost the failure |
| Runner.FailedTrialShowsAFailureIff | banc-host/src/runner.rs:128-189 | a trial that fails in the end shows an earlier failure in its message exactly when fewer than forty records follow it, and in its saved log exactly when fewer than 50000 do |
| Runner.NotesRead | banc-host/src/runner.rs:128-153 | the two notes as they read |
| Runner.DecimalIsItsNumber | banc-host/src/runner.rs:128-153 | the attempt number in a note stands for that attempt |
| Runner.SucceedsIffGood | banc-host/src/device.rs:199-226 | a paired attempt succeeds exactly when its body ended well without a panic and the last child it started exited successfully with no wait for it abandoned; it panics exactly when its body did |
| Runner.FailedBodyIsReported | banc-host/src/device.rs:209-220 | a failed body is reported in its own words, and beside them the device side's exactly if the last child had ended badly unheard |
| Runner.FailedChildIsReported | banc-host/src/device.rs:222 | a good body with a child that ended badly fails for the child's reason |
| Runner.PairedPassIsReal | banc-host/src/device.rs:179-226 | a paired trial completes exactly when an allowed attempt was good in that sense, after attempts that were neither good nor panics |
| Evidence.Evidence.Record | banc-host/src/evidence.rs:53-65 | appends, evicting the oldest and counting it at the cap |
| Evidence.LogIsTheLastEntries | banc-host/src/evidence.rs:13-17 | over any history the log is the last min(total, 50000) records and dropped plus retained is the total |
| Evidence.RetainedIff | banc-host/src/evidence.rs:53-65 | a record is still there exactly while fewer than 50000 were made after it |
| Evidence.Evidence.Tail | banc-host/src/evidence.rs:72-89 | a suffix of the history, under a notice exactly when all that is retained is shown and something was dropped |
| Evidence.Evidence.Persist | banc-host/src/evidence.rs:94-117 | the file opens with the drop count exactly when entries were dropped, then all that is retained |
| Evidence.FileAccountsForEverything | banc-host/src/evidence.rs:91-117 | the file shows the newest records in order, and they and the number it owns up to make up all that was recorded |
| Evidence.TailShowsTheNewest | banc-host/src/evidence.rs:71-89 | so does a tail of as many as were asked for, owning up exactly when it shows all that is retained |
| Evidence.SanitizedIsOneComponent | banc-host/src/evidence.rs:120-134 | a sanitized name is of letters, digits, hyphens and underscores alone, and unchanged exactly if it already was |
| Evidence.Sanitize | banc-host/src/evidence.rs:120-134 | only safe characters survive, everything else becomes an underscore, positions kept |
| Expect.Source.ExpectMatching | banc-host/src/expect.rs:40-59 | the first arrival in time that matches or closes decides, else the deadline; what was consumed is gone |
| Expect.Source.ExpectQuiet | banc-host/src/expect.rs:68-87 | only the timer is a pass; a match or a closed source before it is reported |
| Expect.ExactOpposites | banc-host/src/expect.rs:40-87 | on one schedule the two report opposite verdicts and consume the same arrivals |
| Expect.SilenceMeansWatchedThroughout | banc-host/src/expect.rs:61-67 | silence is certified exactly when every arrival up to the window's end was an unmatching event |
| UniqueId.PinMatchesExactlyItsDevice | banc-host/src/node.rs:84-93 | for a validated id the case-insensitive compare passes exactly when its value is the reported id |

## Left out

- `renew_loop` and `reacquire` are transitions of a step system on values, not methods: each I/O call is an interleaving point, so their variables live in the system's state.
- Message loss on a lease stream is a message never served or read; timeouts that split a frame (and so misalign the bytes) are not modelled, only timeouts between frames.
- Minted lease ids are fresh values; the OS RNG, its collisions and the secrecy of ids and tokens are not modelled, nor is the timing of the token comparison.
- LeaseTiming.PunctualHolderKeepsTheRig: takes its rounds as given in a request history, so that anything at all may reach the server; `PunctualClient.PunctualClientKeepsTheRig` reads them off the client's own steps.
- LeaseClient.Acquire: ends with the grant; failing to start the renew thread after it is not modelled.
- Serialization libraries appear only as an encoder and decoder that invert each other; TOML, JSON and postcard formats are not modelled.
- A holder note's text is the sequence of its bytes' authors and positions; the JSON itself and its parsing are not modelled.
- File operations other than `set_len` and `try_lock` never fail in the lock model; a write may stop short at any byte. A failing read of the note reads as an illegible one, which is advisory.
- A socket read error other than end of file behaves as end of file, and the flush is part of the write; bytes the socket accepted reach the peer.
- ProbeWorker.Worker.Trip: keeps each capture's health as a value in the worker, so the sharing of the health object with the handle is not modelled.
- ProbeWorker does not model panics inside probe-rs while a command runs, only the sink's.
- ProbeWorker does not model the reply channels of Flash and Reset or probe-rs itself; their outcomes do not change the capture state.
- PinMonitor does not model electrical levels: a read returns the level last set, and reset of the chip is absent.
- "Disable acknowledged" does not mean the pin is free, in the code or in the model: the monitor returns it later.
- Runner.RunTrial: the failure text and the report under it are separate values; how they are laid out in one string is not modelled, nor are records made while a trial is being reported.
- Runner does not model durations or the results file format; the instants of the runner's own records are inputs.
- LineSplitter hands on a line's bytes; their lossy conversion to text and the trimming of its end are not modelled.
- Expect predicates are pure and the timer wins only strictly after its instant; the async scheduler is not modelled.
- Evidence times and the text of a formatted line are carried along uninterpreted.
- TCP connect, DNS, socket options, USB enumeration, the RPC client, thread joins and kill-on-drop are operating system or library behaviour.
- Config validation and lookups beyond the unique-id compare would only add easy members.
- Lease exclusivity is not enforced on node traffic, and the code says so; nothing here claims it.
