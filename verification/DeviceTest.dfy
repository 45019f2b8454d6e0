/** The device half of a paired scenario: a handle on one on-target test, which a
    scenario body may start, consult and cancel in any order. */
module DeviceTest {
  import opened Common

  datatype Why = NeverStarted | MissingCrateDir | TaskFailed | SpawnFailed | ReportedFailure

  datatype Outcome = Pass | Fail(why: Why)

  /** How the child a start would spawn ends. */
  datatype Child = Lost | Unspawnable | Exited(success: bool)

  function ChildOutcome(child: Child): Outcome {
    match child
    case Lost => Fail(TaskFailed)
    case Unspawnable => Fail(SpawnFailed)
    case Exited(success) => if success then Pass else Fail(ReportedFailure)
  }

  datatype State = Idle | Running(child: Child) | Done(outcome: Outcome)

  /** `cancelled`: the future is dropped while it waits for the child.
      `finished`: the child has already ended. */
  datatype Op =
    | Start(dirExists: bool, child: Child)
    | Verdict(cancelled: bool)
    | FailureContext(finished: bool, cancelled: bool)

  datatype Answer = Started | Panicked | Cancelled | Said(outcome: Outcome) | Context(why: Option<Why>)

  /** Awaiting the verdict takes the state out of the handle first, so dropping the
      future while the child runs leaves the handle as if never started. */
  function Await(st: State, cancelled: bool): (State, Answer) {
    match st
    case Idle => (Idle, Said(Fail(NeverStarted)))
    case Running(child) =>
      if cancelled then (Idle, Cancelled)
      else (Done(ChildOutcome(child)), Said(ChildOutcome(child)))
    case Done(outcome) => (Done(outcome), Said(outcome))
  }

  function Next(st: State, op: Op): (State, Answer) {
    match op
    case Start(dirExists, child) =>
      if !st.Idle? then (st, Panicked)
      else if !dirExists then (Done(Fail(MissingCrateDir)), Started)
      else (Running(child), Started)
    case Verdict(cancelled) => Await(st, cancelled)
    case FailureContext(finished, cancelled) =>
      if st.Idle? || (st.Running? && !finished) || st == Done(Pass) then (st, Context(None))
      else
        var (to, answer) := Await(st, cancelled);
        (to, if answer.Said? then Context(if answer.outcome.Fail? then Some(answer.outcome.why) else None) else answer)
  }

  class DeviceTest {
    var state: State

    constructor ()
      ensures state == Idle
    {
      state := Idle;
    }

    method Start(dirExists: bool, child: Child) returns (answer: Answer)
      modifies this
      ensures (state, answer) == Next(old(state), Op.Start(dirExists, child))
    {
      if !state.Idle? {
        return Panicked;
      }
      if !dirExists {
        state := Done(Fail(MissingCrateDir));
        return Started;
      }
      state := Running(child);
      return Started;
    }

    method Verdict(cancelled: bool) returns (answer: Answer)
      modifies this
      ensures (state, answer) == Next(old(state), Op.Verdict(cancelled))
    {
      var taken := state;
      state := Idle;
      var outcome: Outcome;
      match taken {
        case Idle =>
          return Said(Fail(NeverStarted));
        case Running(child) =>
          if cancelled {
            return Cancelled;
          }
          outcome := ChildOutcome(child);
        case Done(cached) =>
          outcome := cached;
      }
      state := Done(outcome);
      return Said(outcome);
    }

    method FailureContext(finished: bool, cancelled: bool) returns (answer: Answer)
      modifies this
      ensures (state, answer) == Next(old(state), Op.FailureContext(finished, cancelled))
    {
      var failed := match state case Done(outcome) => outcome.Fail? case Running(_) => finished case Idle => false;
      if !failed {
        return Context(None);
      }
      answer := Verdict(cancelled);
      if answer.Said? {
        answer := Context(if answer.outcome.Fail? then Some(answer.outcome.why) else None);
      }
    }
  }

  // ---------------------------------------------------------------------
  // Any sequence of calls a body can make.
  // ---------------------------------------------------------------------

  function StateAfter(ops: seq<Op>, n: nat): State
    requires n <= |ops|
  {
    if n == 0 then Idle else Next(StateAfter(ops, n - 1), ops[n - 1]).0
  }

  function AnswerAt(ops: seq<Op>, k: nat): Answer
    requires k < |ops|
  {
    Next(StateAfter(ops, k), ops[k]).1
  }

  /** Call `j` is the last one among the first `n` to have started a child. */
  ghost predicate LastStart(ops: seq<Op>, j: nat, n: nat, child: Child) {
    && j < n <= |ops| && ops[j] == Start(true, child) && AnswerAt(ops, j) == Started
    && forall x :: j < x < n ==> AnswerAt(ops, x) != Started
  }

  lemma {:induction false} RunningChildWasStarted(ops: seq<Op>, n: nat) returns (j: nat, child: Child)
    requires n <= |ops|
    requires StateAfter(ops, n).Running? || StateAfter(ops, n) == Done(Pass)
    ensures LastStart(ops, j, n, child)
    ensures StateAfter(ops, n) == Running(child) || (StateAfter(ops, n) == Done(Pass) && child == Exited(true))
  {
    if AnswerAt(ops, n - 1) == Started {
      j, child := n - 1, ops[n - 1].child;
    } else {
      j, child := RunningChildWasStarted(ops, n - 1);
    }
  }

  /** Whatever the order of starts, verdicts, contexts and cancellations, a verdict
      of Pass means the child that this handle last started exited successfully. */
  lemma PassMeansTheChildSucceeded(ops: seq<Op>, k: nat) returns (j: nat)
    requires k < |ops| && AnswerAt(ops, k) == Said(Pass)
    ensures LastStart(ops, j, k, Exited(true))
  {
    var child;
    j, child := RunningChildWasStarted(ops, k);
  }

  lemma {:induction false} DoneIsForever(ops: seq<Op>, j: nat, k: nat)
    requires j <= k <= |ops| && StateAfter(ops, j).Done?
    ensures StateAfter(ops, k) == StateAfter(ops, j)
  {
    if j == k {
    } else {
      DoneIsForever(ops, j, k - 1);
    }
  }

  /** A verdict about a started child is final: every later verdict repeats it,
      every later context agrees with it, and a second start panics. */
  lemma VerdictIsFinal(ops: seq<Op>, j: nat, k: nat, outcome: Outcome)
    requires j < k < |ops| && AnswerAt(ops, j) == Said(outcome) && outcome != Fail(NeverStarted)
    ensures ops[k].Verdict? ==> AnswerAt(ops, k) == Said(outcome)
    ensures ops[k].FailureContext? ==> AnswerAt(ops, k) == Context(if outcome.Fail? then Some(outcome.why) else None)
    ensures ops[k].Start? ==> AnswerAt(ops, k) == Panicked
  {
    DoneIsForever(ops, j + 1, k);
  }

  /** A missing crate directory is remembered as the verdict. */
  lemma MissingDirIsRemembered(ops: seq<Op>, j: nat, k: nat)
    requires j < k < |ops| && ops[j].Start? && !ops[j].dirExists && AnswerAt(ops, j) == Started
    ensures ops[k].Verdict? ==> AnswerAt(ops, k) == Said(Fail(MissingCrateDir))
    ensures ops[k].FailureContext? ==> AnswerAt(ops, k) == Context(Some(MissingCrateDir))
  {
    DoneIsForever(ops, j + 1, k);
  }

  /** Call `j` started the last child, and no call before `k` has heard of it since. */
  ghost predicate Unheard(ops: seq<Op>, j: nat, k: nat, child: Child) {
    && LastStart(ops, j, k, child)
    && forall x :: j < x < k ==> AnswerAt(ops, x) == Panicked || AnswerAt(ops, x) == Context(None)
  }

  lemma {:induction false} UnheardChildIsThere(ops: seq<Op>, j: nat, k: nat, child: Child)
    requires Unheard(ops, j, k, child)
    ensures StateAfter(ops, k) == Running(child) || (StateAfter(ops, k) == Done(Pass) && child == Exited(true))
  {
    if k == j + 1 {
    } else {
      UnheardChildIsThere(ops, j, k - 1, child);
      assert AnswerAt(ops, k - 1) == Panicked || AnswerAt(ops, k - 1) == Context(None);
    }
  }

  /** What there is to say against a child that did not exit successfully. */
  function Against(child: Child): Why {
    match child
    case Lost => TaskFailed
    case Unspawnable => SpawnFailed
    case Exited(_) => ReportedFailure
  }

  /** The first call to hear of a child says how that child ended: a verdict in any
      case, a context only if it has ended, and ended badly. Asking for context while
      it runs tells nothing and leaves it running. */
  lemma ChildIsReported(ops: seq<Op>, j: nat, k: nat, child: Child)
    requires Unheard(ops, j, k, child) && k < |ops|
    ensures ops[k] == Verdict(false) ==>
              AnswerAt(ops, k) == Said(if child == Exited(true) then Pass else Fail(Against(child)))
    ensures ops[k] == FailureContext(true, false) ==>
              AnswerAt(ops, k) == Context(if child == Exited(true) then None else Some(Against(child)))
    ensures ops[k].FailureContext? && !ops[k].finished ==>
              AnswerAt(ops, k) == Context(None) && StateAfter(ops, k + 1) == StateAfter(ops, k)
  {
    UnheardChildIsThere(ops, j, k, child);
  }

  lemma {:induction false} PrefixRuns(ops: seq<Op>, more: seq<Op>, n: nat)
    requires n <= |ops|
    ensures StateAfter(ops + more, n) == StateAfter(ops, n)
  {
    if n == 0 {
    } else {
      PrefixRuns(ops, more, n - 1);
    }
  }

  /** "Never started" is the one verdict that is not: after any calls that earned
      it, the handle can still be started and pass. */
  lemma NeverStartedIsNotFinal(ops: seq<Op>)
    requires |ops| > 0 && AnswerAt(ops, |ops| - 1) == Said(Fail(NeverStarted))
    ensures var more := ops + [Start(true, Exited(true)), Verdict(false)];
            AnswerAt(more, |ops|) == Started && AnswerAt(more, |ops| + 1) == Said(Pass)
  {
    var more := ops + [Start(true, Exited(true)), Verdict(false)];
    NeverStartedMeansIdle(ops, |ops| - 1);
    PrefixRuns(ops, [Start(true, Exited(true)), Verdict(false)], |ops|);
    assert StateAfter(more, |ops|) == Idle;
    assert StateAfter(more, |ops| + 1) == Running(Exited(true));
  }

  lemma {:induction false} NeverCachesNeverStarted(ops: seq<Op>, n: nat)
    requires n <= |ops|
    ensures StateAfter(ops, n) != Done(Fail(NeverStarted))
  {
    if n == 0 {
    } else {
      NeverCachesNeverStarted(ops, n - 1);
    }
  }

  lemma NeverStartedMeansIdle(ops: seq<Op>, k: nat)
    requires k < |ops| && AnswerAt(ops, k) == Said(Fail(NeverStarted))
    ensures StateAfter(ops, k) == StateAfter(ops, k + 1) == Idle
  {
    NeverCachesNeverStarted(ops, k);
  }
}
