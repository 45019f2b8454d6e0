/** The runner's retry loop, its evidence and its records, and paired scenarios on top. */
module Runner {
  import opened Common
  import opened DeviceTest
  import opened Evidence

  datatype RigState = Ready | Skip(reason: string) | Unavailable(error: string)

  /** How one attempt's future ends. A panic unwinds out of the trial. */
  datatype Attempt = Succeeds | Errs(message: string) | Panics

  datatype TrialResult = Completed | Ignored(reason: string) | FailedWith(message: string) | Unwound

  datatype RecordOutcome = Passed | Failed | Skipped

  /** `logged`: the record names a saved evidence log. */
  datatype Record = Record(outcome: RecordOutcome, attempts: nat, reason: Option<string>, logged: bool)

  /** The evidence under a failure: the tail in its message, and the log file, unless
      it could not be written. */
  datatype Report = Report(tail: seq<Line>, saved: Option<seq<Line>>)

  /** `evidence` is what the test's log held when the trial ended. */
  datatype Trial = Trial(result: TrialResult, record: Option<Record>, evidence: Log, report: Option<Report>)

  /** A declared test, by what happens in its attempts: how attempt `a` ends, what is
      recorded while it runs (`lines`) and between its end and the next attempt
      (`late`), and the instants of the runner's own two records about it. */
  datatype Test = Test(
    declared: nat,
    outcome: nat -> Attempt,
    lines: nat -> seq<Entry>,
    late: nat -> seq<Entry>,
    startedAt: nat -> nat,
    failedAt: nat -> nat)

  const SHOWN: nat := 40

  /** `BancTest::attempts` never allows fewer than one. */
  function Allowed(test: Test): nat {
    if test.declared < 1 then 1 else test.declared
  }

  function Digit(d: nat): (c: char)
    requires d < 10
    ensures c as int - '0' as int == d
  {
    "0123456789"[d]
  }

  function Decimal(n: nat): string {
    (if n < 10 then [] else Decimal(n / 10)) + [Digit(n % 10)]
  }

  /** The number a string of decimal digits stands for. */
  function Value(digits: string): int {
    if digits == [] then 0
    else 10 * Value(digits[..|digits| - 1]) + (digits[|digits| - 1] as int - '0' as int)
  }

  lemma ValueSnoc(digits: string, c: char)
    ensures Value(digits + [c]) == 10 * Value(digits) + (c as int - '0' as int)
  {
    assert (digits + [c])[..|digits|] == digits;
  }

  lemma {:induction false} DecimalIsItsNumber(n: nat)
    ensures Value(Decimal(n)) == n
  {
    if n < 10 {
      ValueSnoc([], Digit(n % 10));
    } else {
      DecimalIsItsNumber(n / 10);
      ValueSnoc(Decimal(n / 10), Digit(n % 10));
    }
  }

  function BoundaryText(attempt: nat): string {
    "--- attempt " + Decimal(attempt) + " ---"
  }

  function FailureText(attempt: nat, message: string): string {
    "attempt " + Decimal(attempt) + " failed: " + message
  }

  /** The runner's two notes, as they read for a test that did not answer at first. */
  lemma NotesRead()
    ensures FailureText(1, "no answer") == "attempt 1 failed: no answer"
    ensures BoundaryText(12) == "--- attempt 12 ---"
  {
    assert Decimal(1) == "1" && Decimal(12) == "12";
  }

  /** What the runner records before a retry. */
  function BoundaryNote(test: Test, attempt: nat): Entry {
    Entry(test.startedAt(attempt), "runner", BoundaryText(attempt))
  }

  /** What the runner records after a failed attempt that is not the last. */
  function FailureNote(test: Test, attempt: nat): Entry
    requires test.outcome(attempt).Errs?
  {
    Entry(test.failedAt(attempt), "runner", FailureText(attempt, test.outcome(attempt).message))
  }

  ghost predicate OnlyErrs(test: Test, before: nat) {
    forall a: nat :: 1 <= a < before ==> test.outcome(a).Errs?
  }

  /** Everything recorded from the start of a trial to the end of attempt `used`. */
  ghost function Story(test: Test, used: nat): seq<Entry>
    requires used >= 1 && OnlyErrs(test, used)
    decreases used, 0
  {
    if used == 1 then test.lines(1)
    else Retold(test, used - 1) + [BoundaryNote(test, used)] + test.lines(used)
  }

  /** And on to the end of what follows its failure. */
  ghost function Retold(test: Test, failed: nat): seq<Entry>
    requires failed >= 1 && OnlyErrs(test, failed + 1)
    decreases failed, 1
  {
    Story(test, failed) + [FailureNote(test, failed)] + test.late(failed)
  }

  /** Everything recorded in a trial that used `used` attempts. */
  ghost function History(test: Test, used: nat): seq<Entry>
    requires used >= 1 && OnlyErrs(test, used)
  {
    Story(test, used) + test.late(used)
  }

  /** Records have somewhere to go on a rig, or when the environment names a place. */
  function Written(rig: RigState, artifacts: bool, record: Record): Option<Record> {
    if artifacts || rig.Ready? then Some(record) else None
  }

  ghost function Reported(history: seq<Entry>, disk: bool): Option<Report> {
    if history == [] then None else Some(Report(TailOf(history, SHOWN), if disk then Some(FileOf(history)) else None))
  }

  /** Attempt `used` is the first that does not merely fail, or the last allowed. */
  ghost predicate Decisive(test: Test, used: nat) {
    && 1 <= used <= Allowed(test)
    && OnlyErrs(test, used)
    && (test.outcome(used).Errs? ==> used == Allowed(test))
  }

  /** What a trial may report, on each kind of rig. `disk`: the log can be saved. */
  ghost predicate TrialOk(rig: RigState, artifacts: bool, disk: bool, test: Test, t: Trial) {
    match rig
    case Skip(reason) =>
      t == Trial(Ignored(reason), Written(rig, artifacts, Record(Skipped, 1, Some(reason), false)), Log([], 0), None)
    case Unavailable(e) =>
      var reason := "rig unavailable: " + e;
      t == Trial(FailedWith(reason), Written(rig, artifacts, Record(Failed, 1, Some(reason), false)), Log([], 0), None)
    case Ready =>
      exists used: nat :: Decisive(test, used) && ReadyTrialOk(disk, test, used, t)
  }

  ghost predicate ReadyTrialOk(disk: bool, test: Test, used: nat, t: Trial)
    requires Decisive(test, used)
  {
    var history := History(test, used);
    var report := Reported(history, disk);
    && t.evidence == PushAll(history)
    && match test.outcome(used)
       case Succeeds =>
         t.result == Completed && t.record == Some(Record(Passed, used, None, false)) && t.report == None
       case Errs(m) =>
         && t.result == FailedWith(m) && t.report == report
         && t.record == Some(Record(Failed, used, Some(m), report.Some? && disk))
       case Panics =>
         t.result == Unwound && t.record == None && t.report == None
  }

  /** Whatever the attempt and its tasks record, one call at a time. */
  method RecordAll(evidence: Evidence, lines: seq<Entry>)
    requires evidence.Valid()
    modifies evidence
    ensures evidence.Valid() && evidence.history == old(evidence.history) + lines
  {
    for k := 0 to |lines|
      invariant evidence.Valid() && evidence.history == old(evidence.history) + lines[..k]
    {
      evidence.Record(lines[k]);
      assert lines[..k + 1] == lines[..k] + [lines[k]];
    }
    assert lines[..|lines|] == lines;
  }

  /** A failed trial reports whatever evidence there is. */
  method ReportFailure(evidence: Evidence, disk: bool) returns (report: Option<Report>)
    requires evidence.Valid()
    ensures report == Reported(evidence.history, disk)
  {
    var empty := evidence.IsEmpty();
    if empty {
      return None;
    }
    var saved: Option<seq<Line>> := None;
    if disk {
      var file := evidence.Persist();
      saved := Some(file);
    }
    var tail := evidence.Tail(SHOWN);
    return Some(Report(tail, saved));
  }

  /** What the log gains between a failed attempt and the next. */
  method NoteFailure(evidence: Evidence, test: Test, failed: nat)
    requires evidence.Valid() && failed >= 1 && OnlyErrs(test, failed + 1)
    requires evidence.history == Story(test, failed)
    modifies evidence
    ensures evidence.Valid() && evidence.history == Retold(test, failed)
  {
    evidence.Record(FailureNote(test, failed));
    RecordAll(evidence, test.late(failed));
  }

  /** And what the next one adds. */
  method Retry(evidence: Evidence, test: Test, attempt: nat)
    requires evidence.Valid() && attempt >= 2 && OnlyErrs(test, attempt)
    requires evidence.history == Retold(test, attempt - 1)
    modifies evidence
    ensures evidence.Valid() && evidence.history == Story(test, attempt)
  {
    evidence.Record(BoundaryNote(test, attempt));
    RecordAll(evidence, test.lines(attempt));
  }

  /** The attempts of a trial on a rig, recording into one evidence log. */
  method RunAttempts(test: Test) returns (used: nat, evidence: Evidence)
    ensures Decisive(test, used)
    ensures fresh(evidence) && evidence.Valid() && evidence.history == History(test, used)
  {
    evidence := new Evidence();
    var n := Allowed(test);
    used := 1;
    RecordAll(evidence, test.lines(1));
    while test.outcome(used).Errs? && used < n
      invariant fresh(evidence) && evidence.Valid()
      invariant 1 <= used <= n
      invariant OnlyErrs(test, used) && evidence.history == Story(test, used)
      decreases n - used
    {
      NoteFailure(evidence, test, used);
      used := used + 1;
      Retry(evidence, test, used);
    }
    RecordAll(evidence, test.late(used));
  }

  method RunTrial(rig: RigState, artifacts: bool, disk: bool, test: Test) returns (t: Trial)
    ensures TrialOk(rig, artifacts, disk, test, t)
  {
    match rig {
      case Skip(reason) =>
        var record := Record(Skipped, 1, Some(reason), false);
        return Trial(Ignored(reason), Written(rig, artifacts, record), Log([], 0), None);
      case Unavailable(e) =>
        var reason := "rig unavailable: " + e;
        var record := Record(Failed, 1, Some(reason), false);
        return Trial(FailedWith(reason), Written(rig, artifacts, record), Log([], 0), None);
      case Ready =>
    }
    var used, evidence := RunAttempts(test);
    var log := Log(evidence.entries, evidence.dropped);
    match test.outcome(used) {
      case Succeeds =>
        t := Trial(Completed, Some(Record(Passed, used, None, false)), log, None);
      case Errs(m) =>
        var report := ReportFailure(evidence, disk);
        t := Trial(FailedWith(m), Some(Record(Failed, used, Some(m), report.Some? && disk)), log, report);
      case Panics =>
        t := Trial(Unwound, None, log, None);
    }
    assert ReadyTrialOk(disk, test, used, t);
  }

  /** The write-once cell all trials of a process share. */
  class RigCell {
    var cell: Option<RigState>

    constructor ()
      ensures cell == None
    {
      cell := None;
    }

    /** `acquire` is what taking the rig would give right now; it is only taken once. */
    method GetOrInit(acquire: RigState) returns (rig: RigState)
      modifies this
      ensures cell == Some(rig)
      ensures rig == if old(cell).Some? then old(cell).value else acquire
    {
      if cell.None? {
        cell := Some(acquire);
      }
      return cell.value;
    }
  }

  /** A whole suite: `acquire(i)` is what acquisition would give when trial `i` asks,
      `disk(i)` whether its log could be saved. Every trial runs against the first answer. */
  method RunSuite(tests: seq<Test>, artifacts: bool, disk: nat -> bool, acquire: nat -> RigState)
    returns (trials: seq<Trial>)
    ensures |trials| == |tests|
    ensures forall i :: 0 <= i < |tests| ==> TrialOk(acquire(0), artifacts, disk(i), tests[i], trials[i])
  {
    var cell := new RigCell();
    trials := [];
    while |trials| < |tests|
      invariant |trials| <= |tests|
      invariant cell.cell == if |trials| == 0 then None else Some(acquire(0))
      invariant forall i :: 0 <= i < |trials| ==> TrialOk(acquire(0), artifacts, disk(i), tests[i], trials[i])
    {
      var rig := cell.GetOrInit(acquire(|trials|));
      var t := RunTrial(rig, artifacts, disk(|trials|), tests[|trials|]);
      ghost var before := trials;
      trials := trials + [t];
      forall i | 0 <= i < |trials| ensures TrialOk(acquire(0), artifacts, disk(i), tests[i], trials[i]) {
        assert trials[i] == if i < |before| then before[i] else t;
      }
    }
  }

  /** A record agrees with the result it stands for; on a rig the only trial that
      leaves none is one that panicked. */
  lemma RecordAgreesWithResult(rig: RigState, artifacts: bool, disk: bool, test: Test, t: Trial)
    requires TrialOk(rig, artifacts, disk, test, t)
    ensures t.record.Some? ==>
              && (t.record.value.outcome == Passed <==> t.result.Completed?)
              && (t.record.value.outcome == Failed <==> t.result.FailedWith?)
              && (t.record.value.outcome == Skipped <==> t.result.Ignored?)
              && (t.record.value.logged <==> t.report.Some? && t.report.value.saved.Some?)
              && (t.record.value.reason == match t.result
                                           case FailedWith(m) => Some(m)
                                           case Ignored(m) => Some(m)
                                           case _ => None)
    ensures t.record.None? <==> t.result.Unwound? || (!artifacts && !rig.Ready?)
    ensures t.result.Ignored? <==> rig.Skip?
    ensures rig.Skip? ==> t.result == Ignored(rig.reason)
    ensures rig.Unavailable? ==> t.result == FailedWith("rig unavailable: " + rig.error)
  {
  }

  /** Exactly the trials that fail on a rig with anything in evidence report it. */
  lemma ReportsIffFailedWithEvidence(rig: RigState, artifacts: bool, disk: bool, test: Test, t: Trial)
    requires TrialOk(rig, artifacts, disk, test, t)
    ensures t.report.Some? <==> rig.Ready? && t.result.FailedWith? && t.evidence.entries != []
  {
    if rig.Ready? {
      var used: nat :| Decisive(test, used) && ReadyTrialOk(disk, test, used, t);
      LogIsTheLastEntries(History(test, used));
    }
  }

  /** A trial completes exactly when it is on a rig and some allowed attempt
      succeeded with only plain failures before it; the record counts that attempt. */
  lemma CompletesIffAnAttemptSucceeded(rig: RigState, artifacts: bool, disk: bool, test: Test, t: Trial)
    requires TrialOk(rig, artifacts, disk, test, t)
    ensures t.result.Completed? <==>
            rig.Ready? && exists a: nat :: 1 <= a <= Allowed(test) && test.outcome(a).Succeeds? && OnlyErrs(test, a)
    ensures t.result.Completed? ==>
              && test.outcome(t.record.value.attempts).Succeeds?
              && OnlyErrs(test, t.record.value.attempts)
    ensures t.result.FailedWith? && rig.Ready? ==>
              && t.record.value.attempts == Allowed(test) && OnlyErrs(test, Allowed(test) + 1)
              && test.outcome(Allowed(test)) == Errs(t.result.message)
    ensures t.result.Unwound? <==>
            rig.Ready? && exists a: nat :: 1 <= a <= Allowed(test) && test.outcome(a).Panics? && OnlyErrs(test, a)
  {
  }

  // ---------------------------------------------------------------------
  // What is left of a failed attempt.
  // ---------------------------------------------------------------------

  lemma FailureIsNoted(test: Test, failed: nat)
    requires failed >= 1 && OnlyErrs(test, failed + 1)
    ensures Story(test, failed) + [FailureNote(test, failed)] <= Story(test, failed + 1)
    ensures Story(test, failed) <= Story(test, failed + 1)
  {
    assert Retold(test, failed) <= Story(test, failed + 1);
  }

  lemma PrefixOfPrefix<T>(a: seq<T>, b: seq<T>, c: seq<T>)
    requires a <= b <= c
    ensures a <= c
  {
  }

  lemma {:induction false} StoriesGoOn(test: Test, start: seq<Entry>, a: nat, used: nat)
    requires 1 <= a <= used && OnlyErrs(test, used) && start <= Story(test, a)
    ensures start <= Story(test, used)
  {
    if a == used {
    } else {
      StoriesGoOn(test, start, a, used - 1);
      FailureIsNoted(test, used - 1);
      PrefixOfPrefix(start, Story(test, used - 1), Story(test, used));
    }
  }

  lemma FailureIsInTheHistory(test: Test, used: nat, a: nat)
    requires 1 <= a < used && OnlyErrs(test, used)
    ensures Story(test, a) + [FailureNote(test, a)] <= History(test, used)
  {
    var noted := Story(test, a) + [FailureNote(test, a)];
    FailureIsNoted(test, a);
    StoriesGoOn(test, noted, a + 1, used);
    PrefixOfPrefix(noted, Story(test, used), History(test, used));
  }

  /** What is left of a sequence after a prefix. */
  function Rest<T>(s: seq<T>, prefix: seq<T>): (rest: seq<T>)
    requires prefix <= s
    ensures s == prefix + rest
  {
    s[|prefix|..]
  }

  /** The records made after the one about the failure of attempt `a`. */
  ghost function After(test: Test, used: nat, a: nat): (after: seq<Entry>)
    requires 1 <= a < used && OnlyErrs(test, used)
    ensures History(test, used) == Story(test, a) + [FailureNote(test, a)] + after
  {
    FailureIsInTheHistory(test, used, a);
    Rest(History(test, used), Story(test, a) + [FailureNote(test, a)])
  }

  /** A flaky pass keeps a failed attempt in its evidence exactly while fewer than
      MAX_ENTRIES records follow it, the runner's own included; and it shows none of
      it, only the number of attempts. (A later record that is the same to the
      microsecond would stand in for it, so there is to be none.) */
  lemma FlakyPassKeepsAFailureIff(rig: RigState, artifacts: bool, disk: bool, test: Test, t: Trial, a: nat)
    requires TrialOk(rig, artifacts, disk, test, t) && t.result.Completed? && 1 <= a < t.record.value.attempts
    requires FailureNote(test, a) !in After(test, t.record.value.attempts, a)
    ensures FailureNote(test, a) in t.evidence.entries <==> |After(test, t.record.value.attempts, a)| < MAX_ENTRIES
    ensures t.report == None
  {
    RetainedIff(Story(test, a), FailureNote(test, a), After(test, t.record.value.attempts, a));
  }

  /** A trial that fails in the end shows an earlier failure in its message exactly
      when fewer than forty records follow it, and in its log exactly when fewer than
      MAX_ENTRIES do. */
  lemma FailedTrialShowsAFailureIff(artifacts: bool, disk: bool, test: Test, t: Trial, a: nat)
    requires TrialOk(Ready, artifacts, disk, test, t) && t.result.FailedWith? && 1 <= a < t.record.value.attempts
    requires FailureNote(test, a) !in After(test, t.record.value.attempts, a)
    ensures t.report.Some? && (t.report.value.saved.Some? <==> disk)
    ensures EntryLine(FailureNote(test, a)) in t.report.value.tail
            <==> |After(test, t.record.value.attempts, a)| < SHOWN
    ensures disk ==> (EntryLine(FailureNote(test, a)) in t.report.value.saved.value
                      <==> |After(test, t.record.value.attempts, a)| < MAX_ENTRIES)
  {
    var used := t.record.value.attempts;
    var before, entry, after := Story(test, a), FailureNote(test, a), After(test, used, a);
    var history := History(test, used);
    var notice := if |history| > MAX_ENTRIES then [DropNotice(|history| - MAX_ENTRIES)] else [];
    LastHoldsIff(before, entry, after, SHOWN);
    LastHoldsIff(before, entry, after, MAX_ENTRIES);
    assert TailOf(history, SHOWN) == [] + Lines(Last(history, SHOWN));
    LinesHoldIff(Last(history, SHOWN), entry, []);
    LinesHoldIff(Last(history, MAX_ENTRIES), entry, notice);
  }

  /** A smallest case: two attempts, the second of which passes after recording as
      much as the log holds. Its evidence has forgotten the failure. */
  lemma FlakyPassForgetsItsFailure(artifacts: bool, disk: bool, noise: Entry, test: Test, t: Trial)
    requires noise.source != "runner"
    requires test.declared == 2 && test.outcome(1) == Errs("no answer") && test.outcome(2) == Succeeds
    requires test.lines(1) == test.late(1) == test.late(2) == [] && test.lines(2) == seq(MAX_ENTRIES, _ => noise)
    requires TrialOk(Ready, artifacts, disk, test, t)
    ensures t.result == Completed && t.record.value.attempts == 2
    ensures t.evidence.entries == test.lines(2) && FailureNote(test, 1) !in t.evidence.entries
  {
    assert OnlyErrs(test, 2);
    var head := [FailureNote(test, 1), BoundaryNote(test, 2)];
    assert Story(test, 1) == [];
    assert Retold(test, 1) == [FailureNote(test, 1)];
    assert History(test, 2) == head + test.lines(2);
    LogIsTheLastEntries(History(test, 2));
    assert Last(History(test, 2), MAX_ENTRIES) == test.lines(2);
  }

  // ---------------------------------------------------------------------
  // Paired scenarios.
  // ---------------------------------------------------------------------

  datatype BodyEnd = BodyOk | BodyErr(message: string) | BodyPanics

  /** One attempt of a paired scenario: the calls its body makes on a fresh device
      handle, and how the body ends if none of them panics. */
  datatype Scenario = Scenario(ops: seq<Op>, end: BodyEnd, finished: bool)

  function Explain(why: Why): string {
    match why
    case NeverStarted => "never started"
    case MissingCrateDir => "device crate dir does not exist"
    case TaskFailed => "device test task failed"
    case SpawnFailed => "spawning failed"
    case ReportedFailure => "device-side test reported failure"
  }

  /** A body's own message, and the device side's beside it if there is one. */
  function Beside(message: string, device: Option<Why>): string {
    match device
    case None => message
    case Some(why) => message + "\ndevice side: " + Explain(why)
  }

  predicate BodyPanicked(s: Scenario) {
    s.end.BodyPanics? || exists k :: 0 <= k < |s.ops| && AnswerAt(s.ops, k) == Panicked
  }

  /** The wrapper the macro generates: a failed body is reported with the device's
      own failure beside it, a good one still has to get a good verdict. */
  function PairedAttempt(s: Scenario): Attempt {
    var st := StateAfter(s.ops, |s.ops|);
    if BodyPanicked(s) then Panics
    else
      match s.end
      case BodyErr(m) =>
        var context := Next(st, FailureContext(s.finished, false)).1;
        Errs(Beside(m, if context.Context? then context.why else None))
      case _ =>
        var verdict := Next(st, Verdict(false)).1;
        if verdict == Said(Pass) then Succeeds
        else Errs(if verdict.Said? && verdict.outcome.Fail? then Explain(verdict.outcome.why) else "")
  }

  /** What an attempt must really have done to succeed: a body that ended well,
      without a panic on the way, and a device child that exited successfully, was the
      last this handle started, and had no wait for it abandoned. */
  ghost predicate GoodAttempt(s: Scenario) {
    && s.end == BodyOk && !BodyPanicked(s)
    && exists j: nat :: LastStart(s.ops, j, |s.ops|, Exited(true))
                   && forall x :: j < x < |s.ops| ==> AnswerAt(s.ops, x) != Cancelled
  }

  lemma {:induction false} AbandonedStaysIdle(ops: seq<Op>, x: nat, n: nat)
    requires x < n <= |ops| && AnswerAt(ops, x) == Cancelled
    requires forall y :: x < y < n ==> AnswerAt(ops, y) != Started
    ensures StateAfter(ops, n) == Idle
  {
    if n == x + 1 {
    } else {
      AbandonedStaysIdle(ops, x, n - 1);
      assert AnswerAt(ops, n - 1) != Started;
    }
  }

  lemma {:induction false} AwaitedChildStays(ops: seq<Op>, j: nat, n: nat)
    requires LastStart(ops, j, n, Exited(true)) && forall x :: j < x < n ==> AnswerAt(ops, x) != Cancelled
    ensures StateAfter(ops, n) == Running(Exited(true)) || StateAfter(ops, n) == Done(Pass)
  {
    if n == j + 1 {
    } else {
      AwaitedChildStays(ops, j, n - 1);
      assert AnswerAt(ops, n - 1) != Cancelled;
    }
  }

  /** Nothing passes without real success, and real success passes. */
  lemma SucceedsIffGood(s: Scenario)
    ensures PairedAttempt(s) == Succeeds <==> GoodAttempt(s)
    ensures PairedAttempt(s) == Panics <==> BodyPanicked(s)
  {
    var n := |s.ops|;
    if PairedAttempt(s) == Succeeds {
      var j, child := RunningChildWasStarted(s.ops, n);
      forall x | j < x < n ensures AnswerAt(s.ops, x) != Cancelled {
        if AnswerAt(s.ops, x) == Cancelled {
          AbandonedStaysIdle(s.ops, x, n);
        }
      }
      assert LastStart(s.ops, j, n, Exited(true));
    }
    if GoodAttempt(s) {
      var j: nat :| LastStart(s.ops, j, n, Exited(true)) && forall x :: j < x < n ==> AnswerAt(s.ops, x) != Cancelled;
      AwaitedChildStays(s.ops, j, n);
    }
  }

  /** A failed body is reported in its own words, and beside them the device side's if
      the last child had by then ended badly and nobody had heard of it. */
  lemma FailedBodyIsReported(s: Scenario, j: nat, child: Child)
    requires s.end.BodyErr? && !BodyPanicked(s) && Unheard(s.ops, j, |s.ops|, child)
    ensures PairedAttempt(s) ==
              Errs(Beside(s.end.message, if s.finished && child != Exited(true) then Some(Against(child)) else None))
  {
    UnheardChildIsThere(s.ops, j, |s.ops|, child);
  }

  /** A good body still fails with a child that ended badly, for the child's reason. */
  lemma FailedChildIsReported(s: Scenario, j: nat, child: Child)
    requires s.end == BodyOk && !BodyPanicked(s) && Unheard(s.ops, j, |s.ops|, child) && child != Exited(true)
    ensures PairedAttempt(s) == Errs(Explain(Against(child)))
  {
    UnheardChildIsThere(s.ops, j, |s.ops|, child);
  }

  /** A paired trial completes exactly when it is on a rig and some allowed attempt
      was good after attempts that were neither good nor panics. */
  lemma PairedPassIsReal(rig: RigState, artifacts: bool, disk: bool, test: Test, scenario: nat -> Scenario, t: Trial)
    requires forall a: nat :: test.outcome(a) == PairedAttempt(scenario(a))
    requires TrialOk(rig, artifacts, disk, test, t)
    ensures t.result.Completed? <==>
            rig.Ready? && exists a: nat ::
              && 1 <= a <= Allowed(test) && GoodAttempt(scenario(a))
              && forall b: nat :: 1 <= b < a ==> !GoodAttempt(scenario(b)) && !BodyPanicked(scenario(b))
  {
    CompletesIffAnAttemptSucceeded(rig, artifacts, disk, test, t);
    forall a: nat
      ensures test.outcome(a).Succeeds? <==> GoodAttempt(scenario(a))
      ensures test.outcome(a).Errs? <==> !GoodAttempt(scenario(a)) && !BodyPanicked(scenario(a))
    {
      SucceedsIffGood(scenario(a));
    }
  }
}
