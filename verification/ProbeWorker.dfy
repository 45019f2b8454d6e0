/** The probe worker thread: one command per trip round its loop, one poll of the
    running capture, and the health record through which a capture that died on
    its own is told apart from a quiet one. */
module ProbeWorker {
  import opened Common

  /** The first fault wins. */
  function Latch(fault: Option<string>, msg: string): Option<string> {
    if fault.None? then Some(msg) else fault
  }

  /** Health shared by the reader thread and the capture's owner. */
  class CaptureHealth {
    var slot: Option<string>

    constructor ()
      ensures slot == None
    {
      slot := None;
    }

    method Fault(msg: string)
      modifies this
      ensures slot == Latch(old(slot), msg)
    {
      if slot.None? {
        slot := Some(msg);
      }
    }

    method Error() returns (fault: Option<string>)
      ensures fault == slot
    {
      return slot;
    }
  }

  /** Whatever faults are reported, the first one is the one that stays. */
  lemma {:induction false} FirstFaultStays(msgs: seq<string>, n: nat)
    requires 0 < n <= |msgs|
    ensures LatchAll(msgs, n) == Some(msgs[0])
  {
    if n == 1 {
    } else {
      FirstFaultStays(msgs, n - 1);
    }
  }

  function LatchAll(msgs: seq<string>, n: nat): Option<string>
    requires n <= |msgs|
  {
    if n == 0 then None else Latch(LatchAll(msgs, n - 1), msgs[n - 1])
  }

  /** A capture some owner was handed: its health, and whether its stop signal has
      been sent or its handle dropped. */
  datatype Capture = Capture(fault: Option<string>, stopped: bool)

  datatype Command = Flash | Reset | StartRtt(attached: bool)

  /** What the command channel gives: a command, nothing yet, or the end. */
  datatype Received = Got(cmd: Command) | Timeout | Disconnected

  /** What a poll does, if the trip gets to one. The sink is the caller's own code,
      and its panic unwinds the worker thread. */
  datatype Poll = Reads | Faults(msg: string) | SinkPanics

  datatype Label =
    | Stop(capture: nat)                   // the owner stops a capture
    | Trip(received: Received, poll: Poll) // one trip of the loop

  datatype State = State(captures: seq<Capture>, rtt: Option<nat>, running: bool)

  predicate Enabled(st: State, l: Label) {
    match l
    case Stop(k) => k < |st.captures|
    case Trip(received, _) =>
      st.running && (received.Timeout? ==> st.rtt.Some?) && (st.rtt.Some? ==> st.rtt.value < |st.captures|)
  }

  /** The command half of a trip. */
  function Commanded(st: State, received: Received): State {
    match received
    case Got(Flash) => st.(rtt := None)
    case Got(StartRtt(true)) => st.(captures := st.captures + [Capture(None, false)], rtt := Some(|st.captures|))
    case _ => st
  }

  /** The polling half of a trip. */
  function Polled(st: State, poll: Poll): State
    requires st.rtt.Some? ==> st.rtt.value < |st.captures|
  {
    if st.rtt.None? then st
    else
      var k := st.rtt.value;
      if st.captures[k].stopped then st.(rtt := None)
      else
        match poll
        case Reads => st
        case Faults(msg) =>
          State(st.captures[k := st.captures[k].(fault := Latch(st.captures[k].fault, msg))], None, st.running)
        case SinkPanics => st.(rtt := None, running := false)
  }

  function Next(st: State, l: Label): State
    requires Enabled(st, l)
  {
    match l
    case Stop(k) => st.(captures := st.captures[k := st.captures[k].(stopped := true)])
    case Trip(received, poll) =>
      if received.Disconnected? then st.(rtt := None, running := false)
      else Polled(Commanded(st, received), poll)
  }

  class Worker {
    var captures: seq<Capture>
    var rtt: Option<nat>
    var running: bool

    function View(): State
      reads this
    {
      State(captures, rtt, running)
    }

    constructor ()
      ensures View() == State([], None, true)
    {
      captures, rtt, running := [], None, true;
    }

    method Trip(received: Received, poll: Poll)
      requires Enabled(View(), Label.Trip(received, poll))
      modifies this
      ensures View() == Next(old(View()), Label.Trip(received, poll))
    {
      match received {
        case Disconnected =>
          rtt, running := None, false;
          return;
        case Got(Flash) =>
          rtt := None;
        case Got(StartRtt(attached)) =>
          if attached {
            rtt := Some(|captures|);
            captures := captures + [Capture(None, false)];
          }
        case _ =>
      }
      if rtt.Some? {
        var k := rtt.value;
        if captures[k].stopped {
          rtt := None;
        } else {
          match poll {
            case Reads =>
            case Faults(msg) =>
              captures := captures[k := captures[k].(fault := Latch(captures[k].fault, msg))];
              rtt := None;
            case SinkPanics =>
              rtt, running := None, false;
          }
        }
      }
    }
  }

  // ---------------------------------------------------------------------
  // Why a capture ended.
  // ---------------------------------------------------------------------

  datatype Cause = OwnerStopped | Flashed | Replaced | TargetDropped | SinkPanicked | Faulted(msg: string)

  /** How the poll of a capture that nobody stopped ends it, if it does. */
  function PollEnds(poll: Poll): Option<Cause> {
    match poll
    case Reads => None
    case Faults(msg) => Some(Faulted(msg))
    case SinkPanics => Some(SinkPanicked)
  }

  /** Why this step ends capture `k`, if it does. */
  function Ends(st: State, l: Label, k: nat): Option<Cause>
    requires Enabled(st, l)
  {
    if l.Stop? then None
    else if l.received == Got(StartRtt(true)) then
      if st.rtt == Some(k) then Some(Replaced)
      else if k == |st.captures| then PollEnds(l.poll)
      else None
    else if st.rtt != Some(k) then None
    else if l.received.Disconnected? then Some(TargetDropped)
    else if l.received == Got(Flash) then Some(Flashed)
    else if st.captures[k].stopped then Some(OwnerStopped)
    else PollEnds(l.poll)
  }

  ghost predicate Run(states: seq<State>, labels: seq<Label>) {
    && |states| == |labels| + 1 && states[0] == State([], None, true)
    && forall n :: 0 <= n < |labels| ==> Enabled(states[n], labels[n]) && states[n + 1] == Next(states[n], labels[n])
  }

  /** The first `n` steps ended capture `k` at step `m`, for this cause. */
  ghost predicate EndedAt(states: seq<State>, labels: seq<Label>, m: nat, k: nat, cause: Cause)
    requires Run(states, labels) && m < |labels|
  {
    Ends(states[m], labels[m], k) == Some(cause)
  }

  ghost predicate Inv(st: State) {
    && (st.rtt.Some? ==> st.rtt.value < |st.captures| && st.captures[st.rtt.value].fault.None?)
    && (!st.running ==> st.rtt.None?)
  }

  lemma StepEffect(st: State, l: Label, k: nat)
    requires Inv(st) && Enabled(st, l) && k < |Next(st, l).captures|
    ensures Inv(Next(st, l)) && |st.captures| <= |Next(st, l).captures|
    ensures var to := Next(st, l);
            && (to.rtt == Some(k) <==> (st.rtt == Some(k) || k == |st.captures|) && Ends(st, l, k).None?)
            && (Ends(st, l, k).Some? ==> st.rtt == Some(k) || k == |st.captures|)
            && to.captures[k].fault ==
               (if Ends(st, l, k).Some? && Ends(st, l, k).value.Faulted? then Some(Ends(st, l, k).value.msg)
                else if k < |st.captures| then st.captures[k].fault else None)
  {
  }

  lemma {:induction false} RunKeepsInv(states: seq<State>, labels: seq<Label>, n: nat)
    requires Run(states, labels) && n < |states|
    ensures Inv(states[n])
  {
    if n == 0 {
    } else {
      RunKeepsInv(states, labels, n - 1);
      assert states[n - 1 + 1] == Next(states[n - 1], labels[n - 1]);
      if |states[n].captures| > 0 {
        StepEffect(states[n - 1], labels[n - 1], 0);
      }
    }
  }

  /** Over all command sequences: a capture is polled exactly until the one step
      that ends it, and its health names a fault exactly when that step was a read
      fault, with that fault's message, unchanged for good. */
  lemma {:induction false} CaptureHealthIsTheCause(states: seq<State>, labels: seq<Label>, n: nat, k: nat)
      returns (m: nat, cause: Option<Cause>)
    requires Run(states, labels) && n < |states| && k < |states[n].captures|
    ensures cause.Some? <==> states[n].rtt != Some(k)
    ensures cause.Some? ==> m < n && EndedAt(states, labels, m, k, cause.value)
    ensures forall x, c :: 0 <= x < n && EndedAt(states, labels, x, k, c) ==> cause == Some(c) && x == m
    ensures states[n].captures[k].fault ==
              if cause.Some? && cause.value.Faulted? then Some(cause.value.msg) else None
  {
    var st, l := states[n - 1], labels[n - 1];
    assert states[n - 1 + 1] == Next(st, l);
    RunKeepsInv(states, labels, n - 1);
    StepEffect(st, l, k);
    if k < |st.captures| {
      m, cause := CaptureHealthIsTheCause(states, labels, n - 1, k);
    } else {
      m, cause := 0, None;
      NotYetStarted(states, labels, n - 1, k);
    }
    var now := Ends(st, l, k);
    assert now.Some? ==> cause.None?;
    assert forall c :: EndedAt(states, labels, n - 1, k, c) <==> now == Some(c);
    if now.Some? {
      m, cause := n - 1, now;
    }
  }

  lemma OnlyStartedCapturesEnd(st: State, l: Label, k: nat)
    requires Inv(st) && Enabled(st, l) && k >= |Next(st, l).captures|
    ensures k >= |st.captures| && Ends(st, l, k).None?
  {
  }

  lemma {:induction false} NotYetStarted(states: seq<State>, labels: seq<Label>, n: nat, k: nat)
    requires Run(states, labels) && n < |states| && k >= |states[n].captures|
    ensures forall x, c :: 0 <= x < n ==> !EndedAt(states, labels, x, k, c)
  {
    if n == 0 {
    } else {
      assert states[n - 1 + 1] == Next(states[n - 1], labels[n - 1]);
      RunKeepsInv(states, labels, n - 1);
      OnlyStartedCapturesEnd(states[n - 1], labels[n - 1], k);
      NotYetStarted(states, labels, n - 1, k);
    }
  }

  /** Whether the owner of capture `k` has stopped it, or dropped it, among the first
      `n` steps. */
  ghost predicate AskedToStop(labels: seq<Label>, n: nat, k: nat)
    requires n <= |labels|
  {
    exists j :: 0 <= j < n && labels[j] == Stop(k)
  }

  lemma OnlyItsOwnerStopsIt(st: State, l: Label, k: nat)
    requires Inv(st) && Enabled(st, l)
    ensures |st.captures| <= |Next(st, l).captures|
    ensures k < |Next(st, l).captures| ==>
              (Next(st, l).captures[k].stopped <==> l == Stop(k) || (k < |st.captures| && st.captures[k].stopped))
  {
  }

  lemma {:induction false} StoppedIffAsked(states: seq<State>, labels: seq<Label>, n: nat, k: nat)
    requires Run(states, labels) && n < |states|
    ensures (k < |states[n].captures| && states[n].captures[k].stopped) <==> AskedToStop(labels, n, k)
  {
    if n == 0 {
    } else {
      RunKeepsInv(states, labels, n - 1);
      StoppedIffAsked(states, labels, n - 1, k);
      OnlyItsOwnerStopsIt(states[n - 1], labels[n - 1], k);
      assert AskedToStop(labels, n, k) <==> AskedToStop(labels, n - 1, k) || labels[n - 1] == Stop(k);
      assert states[n - 1 + 1] == Next(states[n - 1], labels[n - 1]);
    }
  }

  /** Commands that end a running capture themselves. */
  predicate EndsACapture(received: Received) {
    received.Disconnected? || received == Got(Flash) || received == Got(StartRtt(true))
  }

  /** A trip ends a capture on its owner's behalf exactly if the capture was still
      polled, the trip brought no command that ends it, and its owner had asked. */
  lemma StoppedMeansAsked(states: seq<State>, labels: seq<Label>, m: nat, k: nat)
    requires Run(states, labels) && m < |labels|
    ensures EndedAt(states, labels, m, k, OwnerStopped) <==>
            && labels[m].Trip? && states[m].rtt == Some(k) && !EndsACapture(labels[m].received)
            && AskedToStop(labels, m, k)
  {
    RunKeepsInv(states, labels, m);
    StoppedIffAsked(states, labels, m, k);
  }

  /** Dropping a capture stops it: after the next trip, and ever after, it is not
      polled, so its sink is not called again. */
  lemma StopIsObeyed(states: seq<State>, labels: seq<Label>, j: nat, m: nat, k: nat)
    requires Run(states, labels) && j < m < |labels| && labels[j] == Stop(k) && labels[m].Trip?
    ensures states[m + 1].rtt != Some(k)
  {
    RunKeepsInv(states, labels, m);
    StoppedIffAsked(states, labels, m, k);
    StoppedIffAsked(states, labels, j, k);
    assert Enabled(states[j], labels[j]) && AskedToStop(labels, m, k);
    StepEffect(states[m], labels[m], k);
    assert states[m + 1] == Next(states[m], labels[m]);
  }

  lemma {:induction false} DoneIsForever(states: seq<State>, labels: seq<Label>, j: nat, n: nat)
    requires Run(states, labels) && j <= n < |states| && !states[j].running
    ensures !states[n].running
  {
    if n == j {
    } else {
      DoneIsForever(states, labels, j, n - 1);
      assert states[n - 1 + 1] == Next(states[n - 1], labels[n - 1]);
    }
  }

  /** Nothing else ends the worker: not a fault, a flash or a stop. */
  lemma OnlyTheEndEndsIt(states: seq<State>, labels: seq<Label>, n: nat)
    requires Run(states, labels) && n < |labels|
    ensures states[n + 1].running <==>
            && states[n].running && !(labels[n].Trip? && labels[n].received.Disconnected?)
            && !exists k :: EndedAt(states, labels, n, k, SinkPanicked)
  {
    RunKeepsInv(states, labels, n);
    assert states[n + 1] == Next(states[n], labels[n]);
    if labels[n].Trip? && !labels[n].received.Disconnected? {
      var k := if labels[n].received == Got(StartRtt(true)) then |states[n].captures|
               else if states[n].rtt.Some? then states[n].rtt.value else 0;
      assert EndedAt(states, labels, n, k, SinkPanicked) <==> Ends(states[n], labels[n], k) == Some(SinkPanicked);
    }
  }

  /** The worker ends with its target or with a panicking sink: no trip follows. */
  lemma NoTripAfterTheEnd(states: seq<State>, labels: seq<Label>, j: nat, m: nat, k: nat)
    requires Run(states, labels) && j < m < |labels| && labels[j].Trip?
    requires labels[j].received.Disconnected? || EndedAt(states, labels, j, k, SinkPanicked)
    ensures !labels[m].Trip?
  {
    RunKeepsInv(states, labels, j);
    assert states[j + 1] == Next(states[j], labels[j]);
    DoneIsForever(states, labels, j + 1, m);
    assert Enabled(states[m], labels[m]);
  }

  /** `error()` being None means "still polled, or stopped by the owner" exactly for
      the captures that no Flash, later StartRtt, dropped target or panicking sink
      ended. */
  lemma SilenceIsHonestIff(states: seq<State>, labels: seq<Label>, n: nat, k: nat)
    requires Run(states, labels) && n < |states| && k < |states[n].captures|
    ensures var silent := states[n].captures[k].fault.None?;
            (silent ==> states[n].rtt == Some(k)
                        || exists m :: 0 <= m < n && EndedAt(states, labels, m, k, OwnerStopped))
            <==> !exists m, c :: 0 <= m < n && EndedAt(states, labels, m, k, c)
                             && c in {Flashed, Replaced, TargetDropped, SinkPanicked}
  {
    var m, cause := CaptureHealthIsTheCause(states, labels, n, k);
    if cause.Some? {
      assert EndedAt(states, labels, m, k, cause.value);
    }
  }

  /** The smallest silent death: a capture, then a Flash; nobody stopped it, and it
      shows no fault. */
  lemma FlashEndsACaptureSilently() returns (states: seq<State>, labels: seq<Label>)
    ensures Run(states, labels) && |states| == 3 && |states[2].captures| == 1
    ensures states[1].rtt == Some(0) && states[2].rtt == None
    ensures states[2].captures[0] == Capture(None, false)
  {
    labels := [Trip(Got(StartRtt(true)), Reads), Trip(Got(Flash), Reads)];
    var s1 := Next(State([], None, true), labels[0]);
    states := [State([], None, true), s1, Next(s1, labels[1])];
  }
}
