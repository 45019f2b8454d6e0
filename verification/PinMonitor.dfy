/** The assistant firmware's pin monitors: cooperative tasks that take pins out of
    a shared table, latched stop signals, and the GPIO endpoints beside them. A
    task runs undisturbed from one `await` to the next. */
module PinMonitor {
  import opened Common

  const NUM_PINS: nat := 8

  /** Monitors plus headroom for short-lived requests on the same endpoint. */
  const POOL_SIZE: nat := NUM_PINS + 2

  datatype Pull = NoPull | PullUp | PullDown

  datatype Mode = Floating | InputPin(pull: Pull) | OutputPin

  /** A pin peripheral. It moves: it is either in its slot or inside a task. */
  datatype Pin = Pin(index: nat, mode: Mode, high: bool)

  /** A pool entry, stopped at the `await` its constructor names. */
  datatype Task =
    | Free
    | Spawned(request: u8, enable: bool)        // not polled yet
    | Replying(reply: Reply)                    // last reply; the task ends after it
    | WantPin(idx: nat)                         // waiting for the table to take its pin
    | Announcing(idx: nat, pin: Pin)            // owns the pin, sending the Ok reply
    | Watching(idx: nat, pin: Pin, seqNo: nat)  // owns the pin, in the select
    | Publishing(idx: nat, pin: Pin, seqNo: nat)
    | Returning(idx: nat, pin: Pin)             // waiting for the table to put its pin back

  datatype Reply = Done | Level(high: bool) | Busy | Unsupported

  datatype Board = Board(slots: seq<Option<Pin>>, stop: seq<bool>, tasks: seq<Task>)

  datatype Label =
    | Spawn(task: nat, request: u8, enable: bool)
    | Resume(task: nat, flag: bool)             // flag: the Ok reply went out / an edge is pending
    | Config(request: u8, mode: Mode)
    | Set(request: u8, high: bool)
    | Read(request: u8)

  predicate Shaped(b: Board) {
    |b.slots| == |b.stop| == NUM_PINS && |b.tasks| == POOL_SIZE
  }

  predicate Owns(t: Task) {
    t.Announcing? || t.Watching? || t.Publishing? || t.Returning?
  }

  /** Owns a pin and has not been told, or failed, to give it back. */
  predicate Monitoring(t: Task) {
    t.Announcing? || t.Watching? || t.Publishing?
  }

  predicate Enabled(b: Board, l: Label) {
    match l
    case Spawn(t, _, _) => t < |b.tasks| && b.tasks[t].Free?
    case Resume(t, _) =>
      && t < |b.tasks| && !b.tasks[t].Free?
      && (b.tasks[t].WantPin? || Owns(b.tasks[t]) ==> b.tasks[t].idx < |b.slots| == |b.stop|)
    case _ => true
  }

  /** Task `t` runs from its `await` to the next one. */
  function Resumed(b: Board, t: nat, flag: bool): Board
    requires Shaped(b) && Enabled(b, Resume(t, flag))
  {
    match b.tasks[t]
    case Spawned(request, enable) =>
      if request >= NUM_PINS then b.(tasks := b.tasks[t := Replying(Unsupported)])
      else if !enable then b.(stop := b.stop[request := true], tasks := b.tasks[t := Replying(Done)])
      else b.(tasks := b.tasks[t := WantPin(request)])
    case Replying(_) => b.(tasks := b.tasks[t := Free])
    case WantPin(i) =>
      if b.slots[i].None? then b.(tasks := b.tasks[t := Replying(Busy)])
      else Board(b.slots[i := None], b.stop[i := false], b.tasks[t := Announcing(i, b.slots[i].value)])
    case Announcing(i, pin) =>
      b.(tasks := b.tasks[t := if flag then Watching(i, pin, 0) else Returning(i, pin)])
    case Watching(i, pin, seqNo) =>
      if b.stop[i] then b.(stop := b.stop[i := false], tasks := b.tasks[t := Returning(i, pin)])
      else if flag then b.(tasks := b.tasks[t := Publishing(i, pin, seqNo)])
      else b
    case Publishing(i, pin, seqNo) =>
      b.(tasks := b.tasks[t := Watching(i, pin, (seqNo + 1) % 0x1_0000)])
    case Returning(i, pin) => b.(slots := b.slots[i := Some(pin)], tasks := b.tasks[t := Free])
    case Free => b
  }

  /** A GPIO request works on the pin in its slot or not at all. */
  function GpioReply(b: Board, l: Label): Reply
    requires Shaped(b) && (l.Config? || l.Set? || l.Read?)
  {
    if l.request >= NUM_PINS then Unsupported
    else if b.slots[l.request].None? then Busy
    else if l.Read? then Level(b.slots[l.request].value.high)
    else Done
  }

  function Gpio(b: Board, l: Label): Board
    requires Shaped(b) && (l.Config? || l.Set? || l.Read?)
  {
    if GpioReply(b, l) != Done then b
    else
      var pin := b.slots[l.request].value;
      b.(slots := b.slots[l.request := Some(if l.Config? then pin.(mode := l.mode)
                                            else if l.Set? then pin.(high := l.high) else pin)])
  }

  function Next(b: Board, l: Label): (r: Board)
    requires Shaped(b) && Enabled(b, l)
    ensures Shaped(r)
  {
    match l
    case Spawn(t, request, enable) => b.(tasks := b.tasks[t := Spawned(request, enable)])
    case Resume(t, flag) => Resumed(b, t, flag)
    case _ => Gpio(b, l)
  }

  /** The firmware's shared state and the code that runs on it between awaits. */
  class Assistant {
    var slots: seq<Option<Pin>>
    var stop: seq<bool>
    var tasks: seq<Task>

    function View(): Board
      reads this
    {
      Board(slots, stop, tasks)
    }

    constructor ()
      ensures View() == PowerOn()
    {
      slots := seq(NUM_PINS, (i: nat) => Some(Pin(i, Floating, false)));
      stop := seq(NUM_PINS, i => false);
      tasks := seq(POOL_SIZE, i => Free);
    }

    method GpioConfig(request: u8, mode: Mode) returns (reply: Reply)
      requires Shaped(View())
      modifies this`slots
      ensures reply == GpioReply(old(View()), Config(request, mode))
      ensures View() == Next(old(View()), Config(request, mode))
    {
      if request >= NUM_PINS { return Unsupported; }
      if slots[request].None? { return Busy; }
      slots := slots[request := Some(slots[request].value.(mode := mode))];
      return Done;
    }

    method GpioSet(request: u8, high: bool) returns (reply: Reply)
      requires Shaped(View())
      modifies this`slots
      ensures reply == GpioReply(old(View()), Set(request, high))
      ensures View() == Next(old(View()), Set(request, high))
    {
      if request >= NUM_PINS { return Unsupported; }
      if slots[request].None? { return Busy; }
      slots := slots[request := Some(slots[request].value.(high := high))];
      return Done;
    }

    method GpioRead(request: u8) returns (reply: Reply)
      requires Shaped(View())
      ensures reply == GpioReply(View(), Read(request)) && View() == Next(View(), Read(request))
    {
      if request >= NUM_PINS { return Unsupported; }
      if slots[request].None? { return Busy; }
      return Level(slots[request].value.high);
    }

    /** `pin_monitor_handler`, from the `await` task `t` is at to the next. */
    method RunTask(t: nat, flag: bool)
      requires Shaped(View()) && Enabled(View(), Resume(t, flag))
      modifies this
      ensures View() == Next(old(View()), Resume(t, flag))
    {
      match tasks[t] {
        case Spawned(request, enable) =>
          if request >= NUM_PINS {
            tasks := tasks[t := Replying(Unsupported)];
          } else if !enable {
            stop := stop[request := true];
            tasks := tasks[t := Replying(Done)];
          } else {
            tasks := tasks[t := WantPin(request)];
          }
        case Replying(_) =>
          tasks := tasks[t := Free];
        case WantPin(i) =>
          var taken := slots[i];
          slots := slots[i := None];
          if taken.None? {
            tasks := tasks[t := Replying(Busy)];
          } else {
            stop := stop[i := false];
            tasks := tasks[t := Announcing(i, taken.value)];
          }
        case Announcing(i, pin) =>
          tasks := tasks[t := if flag then Watching(i, pin, 0) else Returning(i, pin)];
        case Watching(i, pin, seqNo) =>
          if stop[i] {
            stop := stop[i := false];
            tasks := tasks[t := Returning(i, pin)];
          } else if flag {
            tasks := tasks[t := Publishing(i, pin, seqNo)];
          }
        case Publishing(i, pin, seqNo) =>
          tasks := tasks[t := Watching(i, pin, (seqNo + 1) % 0x1_0000)];
        case Returning(i, pin) =>
          slots := slots[i := Some(pin)];
          tasks := tasks[t := Free];
        case Free =>
      }
    }
  }

  function PowerOn(): Board {
    Board(seq(NUM_PINS, (i: nat) => Some(Pin(i, Floating, false))),
          seq(NUM_PINS, i => false),
          seq(POOL_SIZE, i => Free))
  }

  // ---------------------------------------------------------------------
  // Linear ownership.
  // ---------------------------------------------------------------------

  predicate OwnsPin(b: Board, t: nat, i: nat) {
    t < |b.tasks| && Owns(b.tasks[t]) && b.tasks[t].idx == i
  }

  ghost predicate TaskOk(t: Task) {
    && (t.WantPin? || Owns(t) ==> t.idx < NUM_PINS)
    && (Owns(t) ==> t.pin.index == t.idx)
    && (t.Watching? || t.Publishing? ==> t.seqNo < 0x1_0000)
  }

  /** Pin `i` is in slot `i` and nowhere else, or inside exactly one task. */
  ghost predicate Linear(b: Board, i: nat)
    requires Shaped(b) && i < NUM_PINS
  {
    if b.slots[i].Some? then
      b.slots[i].value.index == i && forall t :: 0 <= t < POOL_SIZE ==> !OwnsPin(b, t, i)
    else
      exists t :: OwnsPin(b, t, i) && forall u :: OwnsPin(b, u, i) ==> u == t
  }

  ghost predicate Inv(b: Board) {
    && Shaped(b)
    && (forall t :: 0 <= t < POOL_SIZE ==> TaskOk(b.tasks[t]))
    && (forall i :: 0 <= i < NUM_PINS ==> Linear(b, i))
  }

  lemma PowerOnIsLinear()
    ensures Inv(PowerOn())
  {
  }

  /** A step that leaves the slots and every task's hold on a pin alone. */
  lemma SameHoldsKeepInv(b: Board, to: Board)
    requires Inv(b) && Shaped(to)
    requires forall i :: 0 <= i < NUM_PINS ==>
               to.slots[i].Some? == b.slots[i].Some? && (to.slots[i].Some? ==> to.slots[i].value.index == i)
    requires forall t :: 0 <= t < POOL_SIZE ==> TaskOk(to.tasks[t])
    requires forall t :: 0 <= t < POOL_SIZE ==> Owns(to.tasks[t]) == Owns(b.tasks[t])
    requires forall t :: 0 <= t < POOL_SIZE && Owns(b.tasks[t]) && Owns(to.tasks[t])
                         ==> to.tasks[t].idx == b.tasks[t].idx
    ensures Inv(to)
  {
    forall i | 0 <= i < NUM_PINS ensures Linear(to, i) {
      assert Linear(b, i);
      assert forall t: nat :: OwnsPin(to, t, i) <==> OwnsPin(b, t, i);
      if b.slots[i].None? {
        var t :| OwnsPin(b, t, i) && forall u :: OwnsPin(b, u, i) ==> u == t;
        assert OwnsPin(to, t, i);
      }
    }
  }

  lemma TakeKeepsInv(b: Board, t: nat, flag: bool)
    requires Inv(b) && Enabled(b, Resume(t, flag)) && b.tasks[t].WantPin? && b.slots[b.tasks[t].idx].Some?
    ensures Inv(Resumed(b, t, flag))
  {
    var i, to := b.tasks[t].idx, Resumed(b, t, flag);
    assert TaskOk(b.tasks[t]) && Linear(b, i);
    assert forall u :: 0 <= u < POOL_SIZE && u != t ==> to.tasks[u] == b.tasks[u];
    forall j | 0 <= j < NUM_PINS ensures Linear(to, j) {
      assert Linear(b, j);
      assert forall u: nat :: OwnsPin(to, u, j) <==> OwnsPin(b, u, j) || (u == t && j == i);
      if j == i {
        assert OwnsPin(to, t, i);
      } else if b.slots[j].None? {
        var u :| OwnsPin(b, u, j) && forall v :: OwnsPin(b, v, j) ==> v == u;
        assert OwnsPin(to, u, j);
      }
    }
  }

  lemma GiveBackKeepsInv(b: Board, t: nat, flag: bool)
    requires Inv(b) && Enabled(b, Resume(t, flag)) && b.tasks[t].Returning?
    ensures Inv(Resumed(b, t, flag))
  {
    var i, to := b.tasks[t].idx, Resumed(b, t, flag);
    assert OwnsPin(b, t, i) && TaskOk(b.tasks[t]);
    forall j | 0 <= j < NUM_PINS ensures Linear(to, j) {
      assert Linear(b, j);
      assert forall u: nat :: OwnsPin(to, u, j) <==> OwnsPin(b, u, j) && u != t;
      if j != i && b.slots[j].None? {
        var u :| OwnsPin(b, u, j) && forall v :: OwnsPin(b, v, j) ==> v == u;
        assert OwnsPin(to, u, j);
      }
    }
  }

  lemma NextKeepsInv(b: Board, l: Label)
    requires Inv(b) && Enabled(b, l)
    ensures Inv(Next(b, l))
  {
    var to := Next(b, l);
    if l.Resume? && b.tasks[l.task].WantPin? && b.slots[b.tasks[l.task].idx].Some? {
      TakeKeepsInv(b, l.task, l.flag);
    } else if l.Resume? && b.tasks[l.task].Returning? {
      GiveBackKeepsInv(b, l.task, l.flag);
    } else {
      forall i | 0 <= i < NUM_PINS
        ensures to.slots[i].Some? == b.slots[i].Some? && (to.slots[i].Some? ==> to.slots[i].value.index == i)
      {
        assert Linear(b, i);
      }
      forall t | 0 <= t < POOL_SIZE
        ensures TaskOk(to.tasks[t]) && Owns(to.tasks[t]) == Owns(b.tasks[t])
        ensures Owns(b.tasks[t]) ==> to.tasks[t].idx == b.tasks[t].idx
      {
        assert TaskOk(b.tasks[t]);
      }
      SameHoldsKeepInv(b, to);
    }
  }

  // ---------------------------------------------------------------------
  // Runs.
  // ---------------------------------------------------------------------

  /** Every interleaving: any enabled labels, in any order, from power-on. */
  ghost predicate Run(boards: seq<Board>, labels: seq<Label>) {
    && |boards| == |labels| + 1 && boards[0] == PowerOn()
    && (forall n :: 0 <= n < |boards| ==> Shaped(boards[n]))
    && (forall n :: 0 <= n < |labels| ==> Enabled(boards[n], labels[n]) && boards[n + 1] == Next(boards[n], labels[n]))
  }

  lemma {:induction false} RunKeepsInv(boards: seq<Board>, labels: seq<Label>, n: nat)
    requires Run(boards, labels) && n < |boards|
    ensures Inv(boards[n])
  {
    if n == 0 {
      PowerOnIsLinear();
    } else {
      RunKeepsInv(boards, labels, n - 1);
      NextKeepsInv(boards[n - 1], labels[n - 1]);
      assert boards[n - 1 + 1] == Next(boards[n - 1], labels[n - 1]);
    }
  }

  /** In every interleaving each pin is in its slot or inside exactly one task,
      never both and never neither. */
  lemma PinIsInOnePlace(boards: seq<Board>, labels: seq<Label>, n: nat, i: nat)
    requires Run(boards, labels) && n < |boards| && i < NUM_PINS
    ensures var b := boards[n];
            && (b.slots[i].Some? <==> forall t :: !OwnsPin(b, t, i))
            && (b.slots[i].Some? ==> b.slots[i].value.index == i)
            && (forall t: nat, u: nat :: OwnsPin(b, t, i) && OwnsPin(b, u, i) ==> t == u && b.tasks[t].pin.index == i)
  {
    RunKeepsInv(boards, labels, n);
    var b := boards[n];
    assert Linear(b, i);
    forall t: nat | OwnsPin(b, t, i) ensures b.tasks[t].pin.index == i {
      assert TaskOk(b.tasks[t]);
    }
  }

  /** The pool entries that own a pin. */
  function Owners(b: Board): set<nat> {
    set t: nat | t < |b.tasks| && Owns(b.tasks[t])
  }

  function EmptySlots(b: Board): set<nat> {
    set i: nat | i < |b.slots| && b.slots[i].None?
  }

  lemma {:induction false} SameSize(b: Board, ts: set<nat>, slots: set<nat>)
    requires forall t :: t in ts ==> t < |b.tasks| && Owns(b.tasks[t]) && b.tasks[t].idx in slots
    requires forall t, u ::
               && t in ts && u in ts && Owns(b.tasks[t]) && Owns(b.tasks[u])
               && b.tasks[t].idx == b.tasks[u].idx
               ==> t == u
    requires forall i :: i in slots ==> exists t :: t in ts && OwnsPin(b, t, i)
    ensures |ts| == |slots|
  {
    if ts == {} {
      assert forall i :: i in slots ==> !(forall t :: t in ts ==> !OwnsPin(b, t, i));
      assert slots == {};
    } else {
      var t :| t in ts;
      var i := b.tasks[t].idx;
      forall j | j in slots - {i} ensures exists u :: u in ts - {t} && OwnsPin(b, u, j) {
        var u :| u in ts && OwnsPin(b, u, j);
        assert u in ts - {t};
      }
      SameSize(b, ts - {t}, slots - {i});
    }
  }

  lemma {:induction false} BelowIsSmall(s: set<nat>, n: nat)
    requires forall i :: i in s ==> i < n
    ensures |s| <= n
  {
    if n == 0 {
      assert s == {};
    } else {
      BelowIsSmall(s - {n - 1}, n - 1);
    }
  }

  /** Pins are conserved: as many tasks own one as slots are empty. So at most
      NUM_PINS pool entries are ever monitors, and two always serve other requests. */
  lemma PoolHasHeadroom(boards: seq<Board>, labels: seq<Label>, n: nat)
    requires Run(boards, labels) && n < |boards|
    ensures |Owners(boards[n])| == |EmptySlots(boards[n])| <= NUM_PINS
    ensures |boards[n].tasks| - |Owners(boards[n])| >= 2
  {
    RunKeepsInv(boards, labels, n);
    var b := boards[n];
    forall t | t in Owners(b) ensures b.tasks[t].idx in EmptySlots(b) {
      assert TaskOk(b.tasks[t]) && Linear(b, b.tasks[t].idx) && OwnsPin(b, t, b.tasks[t].idx);
    }
    forall t, u | t in Owners(b) && u in Owners(b) && b.tasks[t].idx == b.tasks[u].idx ensures t == u {
      var i := b.tasks[t].idx;
      assert OwnsPin(b, t, i) && OwnsPin(b, u, i) && Linear(b, i);
    }
    forall i | i in EmptySlots(b) ensures exists t :: t in Owners(b) && OwnsPin(b, t, i) {
      assert Linear(b, i);
      var t :| OwnsPin(b, t, i);
      assert t in Owners(b);
    }
    SameSize(b, Owners(b), EmptySlots(b));
    BelowIsSmall(EmptySlots(b), NUM_PINS);
  }

  /** A GPIO request is refused exactly while a task owns the pin, and whatever it
      does it leaves every owned pin, every task and every other slot untouched. */
  lemma GpioNeverTouchesAMonitoredPin(boards: seq<Board>, labels: seq<Label>, n: nat)
    requires Run(boards, labels) && n < |labels| && !labels[n].Spawn? && !labels[n].Resume?
    ensures var b, l := boards[n], labels[n];
            && (GpioReply(b, l) == Unsupported <==> l.request >= NUM_PINS)
            && (GpioReply(b, l) == Busy <==> l.request < NUM_PINS && exists t :: OwnsPin(b, t, l.request))
            && boards[n + 1].tasks == b.tasks && boards[n + 1].stop == b.stop
            && (forall i :: 0 <= i < NUM_PINS && i != l.request ==> boards[n + 1].slots[i] == b.slots[i])
            && (GpioReply(b, l) == Busy ==> boards[n + 1] == b)
  {
    var b, l := boards[n], labels[n];
    assert boards[n + 1] == Next(b, l);
    if l.request < NUM_PINS {
      PinIsInOnePlace(boards, labels, n, l.request);
    }
  }

  // ---------------------------------------------------------------------
  // Stops.
  // ---------------------------------------------------------------------

  /** Whether a disable for pin `i` has been processed since the pin was last
      taken, read off the run's history. */
  ghost predicate StopAsked(boards: seq<Board>, labels: seq<Label>, n: nat, i: nat)
    requires Run(boards, labels) && n < |boards| && i < NUM_PINS
  {
    n > 0 &&
    var b, l := boards[n - 1], labels[n - 1];
    if Disables(b, l, i) then true
    else if Takes(b, l, i) then false
    else StopAsked(boards, labels, n - 1, i)
  }

  predicate Takes(b: Board, l: Label, i: nat)
    requires i < |b.slots|
  {
    l.Resume? && l.task < |b.tasks| && b.tasks[l.task] == WantPin(i) && b.slots[i].Some?
  }

  predicate Disables(b: Board, l: Label, i: nat) {
    l.Resume? && l.task < |b.tasks| && i < 0x100 && b.tasks[l.task] == Spawned(i, false)
  }

  predicate Publishes(b: Board, l: Label, i: nat) {
    l.Resume? && l.task < |b.tasks| && b.tasks[l.task].Publishing? && b.tasks[l.task].idx == i
  }

  /** The number a live monitor will put on its next event. */
  function NextNumber(t: Task): nat {
    if t.Watching? || t.Publishing? then t.seqNo else 0
  }

  /** Nobody but its own task can disturb a monitor, except by disabling it. */
  lemma OthersLeaveMonitorAlone(b: Board, l: Label, t: nat, i: nat)
    requires Inv(b) && Enabled(b, l) && i < NUM_PINS && OwnsPin(b, t, i) && !(l.Resume? && l.task == t)
    ensures var to := Next(b, l);
            && to.tasks[t] == b.tasks[t] && to.stop[i] == (b.stop[i] || Disables(b, l, i))
            && !Takes(b, l, i) && !Publishes(b, l, i)
  {
    assert Linear(b, i);
    assert l.Resume? ==> !OwnsPin(b, l.task, i);
  }

  /** What its own step does to a task that monitors the pin afterwards. */
  lemma MonitorStep(b: Board, l: Label, t: nat, i: nat)
    requires Inv(b) && Enabled(b, l) && i < NUM_PINS && l.Resume? && l.task == t
    requires OwnsPin(Next(b, l), t, i) && Monitoring(Next(b, l).tasks[t])
    ensures var to := Next(b, l);
            if Takes(b, l, i) then !to.stop[i] && NextNumber(to.tasks[t]) == 0
            else
              && OwnsPin(b, t, i) && Monitoring(b.tasks[t]) && to.stop[i] == b.stop[i] && !Disables(b, l, i)
              && NextNumber(to.tasks[t]) ==
                 (NextNumber(b.tasks[t]) + if Publishes(b, l, i) then 1 else 0) % 0x1_0000
  {
  }

  /** The latched signal a live monitor sees says exactly whether it was asked to
      stop since it took its pin: nothing asked in time is lost, and a disable
      latched before the take never reaches it. */
  lemma {:induction false} SignalMeansStopAsked(boards: seq<Board>, labels: seq<Label>, n: nat, t: nat, i: nat)
    requires Run(boards, labels) && n < |boards| && i < NUM_PINS
    requires OwnsPin(boards[n], t, i) && Monitoring(boards[n].tasks[t])
    ensures boards[n].stop[i] <==> StopAsked(boards, labels, n, i)
  {
    if n == 0 {
    } else {
      var b, l := boards[n - 1], labels[n - 1];
      assert boards[n - 1 + 1] == Next(b, l);
      RunKeepsInv(boards, labels, n - 1);
      if l.Resume? && l.task == t {
        MonitorStep(b, l, t, i);
      } else {
        assert OwnsPin(b, t, i);
        OthersLeaveMonitorAlone(b, l, t, i);
      }
      if !Takes(b, l, i) {
        SignalMeansStopAsked(boards, labels, n - 1, t, i);
      }
    }
  }

  /** At its select a monitor leaves exactly when a disable was processed since it
      took its pin, using the signal up, and only otherwise can it begin another publish. */
  lemma SelectObeysStops(boards: seq<Board>, labels: seq<Label>, n: nat)
    requires Run(boards, labels) && n < |labels| && labels[n].Resume? && boards[n].tasks[labels[n].task].Watching?
    ensures boards[n].tasks[labels[n].task].idx < NUM_PINS
    ensures var t := labels[n].task; var task := boards[n].tasks[t];
            var asked := StopAsked(boards, labels, n, task.idx);
            && (boards[n + 1].tasks[t] == Returning(task.idx, task.pin) <==> asked)
            && !boards[n + 1].stop[task.idx]
            && (boards[n + 1].tasks[t] == Publishing(task.idx, task.pin, task.seqNo) <==> !asked && labels[n].flag)
  {
    var t := labels[n].task;
    assert boards[n + 1] == Next(boards[n], labels[n]);
    SignalMeansStopAsked(boards, labels, n, t, boards[n].tasks[t].idx);
  }

  /** A stop asked of a live monitor stays asked for as long as it monitors,
      whatever enables, disables and GPIO requests are interleaved. */
  lemma {:induction false} StopStaysAsked(boards: seq<Board>, labels: seq<Label>, n: nat, m: nat, t: nat, i: nat)
    requires Run(boards, labels) && n <= m < |boards| && i < NUM_PINS
    requires forall k :: n <= k <= m ==> OwnsPin(boards[k], t, i) && Monitoring(boards[k].tasks[t])
    requires StopAsked(boards, labels, n, i)
    ensures StopAsked(boards, labels, m, i)
  {
    if n == m {
    } else {
      StopStaysAsked(boards, labels, n, m - 1, t, i);
      RunKeepsInv(boards, labels, m - 1);
      assert Linear(boards[m - 1], i) && OwnsPin(boards[m - 1], t, i);
    }
  }

  /** A disable processed while a task monitors the pin is never lost: from then
      on the task begins no publish, and its next select ends the monitor. */
  lemma DisableIsNeverLost(boards: seq<Board>, labels: seq<Label>, n: nat, m: nat, t: nat, i: nat)
    requires Run(boards, labels) && n < m < |labels| && i < NUM_PINS
    requires labels[n].Resume? && boards[n].tasks[labels[n].task] == Spawned(i, false)
    requires forall k :: n < k <= m ==> OwnsPin(boards[k], t, i) && Monitoring(boards[k].tasks[t])
    requires labels[m].Resume? && labels[m].task == t
    ensures boards[m].tasks[t].Watching? ==> boards[m + 1].tasks[t] == Returning(i, boards[m].tasks[t].pin)
    ensures !boards[m + 1].tasks[t].Publishing?
  {
    assert StopAsked(boards, labels, n + 1, i);
    StopStaysAsked(boards, labels, n + 1, m, t, i);
    assert boards[m + 1] == Next(boards[m], labels[m]);
    if boards[m].tasks[t].Watching? {
      SelectObeysStops(boards, labels, m);
    }
  }

  // ---------------------------------------------------------------------
  // What a request comes to.
  // ---------------------------------------------------------------------

  datatype Request = Request(pin: u8, enable: bool)

  /** The request that pool entry `t` was last spawned for. */
  function Serving(labels: seq<Label>, n: nat, t: nat): Option<Request>
    requires n <= |labels|
  {
    if n == 0 then None
    else if labels[n - 1].Spawn? && labels[n - 1].task == t then
      Some(Request(labels[n - 1].request, labels[n - 1].enable))
    else Serving(labels, n - 1, t)
  }

  /** What an entry may be doing about a request: only an enable of a pin that exists
      ever wants or owns one, and then that one. */
  predicate Serves(task: Task, r: Request) {
    match task
    case Free => true
    case Spawned(request, enable) => r == Request(request, enable)
    case Replying(reply) => reply == if r.pin >= NUM_PINS then Unsupported else if r.enable then Busy else Done
    case _ => r.enable && r.pin == task.idx < NUM_PINS
  }

  lemma StepServes(b: Board, l: Label, t: nat, r: Option<Request>)
    requires Inv(b) && Enabled(b, l) && t < POOL_SIZE && (!b.tasks[t].Free? ==> r.Some? && Serves(b.tasks[t], r.value))
    ensures var now := if l.Spawn? && l.task == t then Some(Request(l.request, l.enable)) else r;
            !Next(b, l).tasks[t].Free? ==> now.Some? && Serves(Next(b, l).tasks[t], now.value)
  {
    assert TaskOk(b.tasks[t]);
  }

  lemma {:induction false} TasksServeTheirRequests(boards: seq<Board>, labels: seq<Label>, n: nat, t: nat)
    requires Run(boards, labels) && n < |boards| && t < POOL_SIZE && !boards[n].tasks[t].Free?
    ensures Serving(labels, n, t).Some? && Serves(boards[n].tasks[t], Serving(labels, n, t).value)
  {
    if n == 0 {
    } else {
      RunKeepsInv(boards, labels, n - 1);
      if !boards[n - 1].tasks[t].Free? {
        TasksServeTheirRequests(boards, labels, n - 1, t);
      }
      StepServes(boards[n - 1], labels[n - 1], t, Serving(labels, n - 1, t));
      assert boards[n - 1 + 1] == Next(boards[n - 1], labels[n - 1]);
    }
  }

  /** What a request may be answered, and when. It is Unsupported exactly if its pin is
      out of range, Done exactly if it is a disable of a pin that exists, and Busy
      exactly if it is an enable, for which another task then owned the pin. */
  lemma ReplyIsRight(boards: seq<Board>, labels: seq<Label>, n: nat, t: nat)
    requires Run(boards, labels) && n < |labels| && t < POOL_SIZE
    requires boards[n + 1].tasks[t].Replying? && !boards[n].tasks[t].Replying?
    ensures Serving(labels, n, t).Some?
    ensures var r, reply := Serving(labels, n, t).value, boards[n + 1].tasks[t].reply;
            && (reply == Unsupported <==> r.pin >= NUM_PINS)
            && (reply == Done <==> r.pin < NUM_PINS && !r.enable)
            && (reply == Busy <==> r.pin < NUM_PINS && r.enable)
            && (reply == Done ==> Disables(boards[n], labels[n], r.pin) && boards[n + 1].stop[r.pin])
            && (reply == Busy ==> exists u: nat :: u != t && OwnsPin(boards[n], u, r.pin))
  {
    RunKeepsInv(boards, labels, n);
    assert boards[n + 1] == Next(boards[n], labels[n]);
    TasksServeTheirRequests(boards, labels, n + 1, t);
    TasksServeTheirRequests(boards, labels, n, t);
    var r := Serving(labels, n, t).value;
    if r.pin < NUM_PINS {
      assert Linear(boards[n], r.pin);
    }
  }

  /** An enable that comes to the table finds its pin owned and is told Busy, or takes
      that very pin and announces it. */
  lemma EnableIsBusyIffOwned(boards: seq<Board>, labels: seq<Label>, n: nat, t: nat, i: nat)
    requires Run(boards, labels) && n < |labels| && t < POOL_SIZE && boards[n].tasks[t] == WantPin(i)
    requires labels[n].Resume? && labels[n].task == t
    ensures i < NUM_PINS && Serving(labels, n, t) == Some(Request(i, true))
    ensures var owned := exists u: nat :: OwnsPin(boards[n], u, i);
            && (boards[n + 1].tasks[t] == Replying(Busy) <==> owned)
            && (boards[n + 1].tasks[t].Announcing? && OwnsPin(boards[n + 1], t, i) <==> !owned)
  {
    TasksServeTheirRequests(boards, labels, n, t);
    PinIsInOnePlace(boards, labels, n, i);
    assert boards[n + 1] == Next(boards[n], labels[n]);
  }

  /** How far a task has to go. */
  function Rank(t: Task): nat {
    match t
    case Spawned(_, _) => 6
    case WantPin(_) => 5
    case Announcing(_, _) => 4
    case Watching(_, _, _) => 3
    case Publishing(_, _, _) => 3
    case Returning(_, _) => 2
    case Replying(_) => 1
    case Free => 0
  }

  lemma {:induction false} EveryTaskIsInRange(boards: seq<Board>, labels: seq<Label>, n: nat, t: nat)
    requires Run(boards, labels) && n < |boards| && t < POOL_SIZE && boards[n].tasks[t].Watching?
    ensures boards[n].tasks[t].idx < NUM_PINS
  {
    RunKeepsInv(boards, labels, n);
    assert TaskOk(boards[n].tasks[t]);
  }

  /** No request lingers: whenever a task runs it comes nearer its end, except that a
      monitor goes on watching until it has been asked to stop, and returns to its
      select after each publish. */
  lemma EveryTaskMovesOn(boards: seq<Board>, labels: seq<Label>, n: nat, t: nat)
    requires Run(boards, labels) && n < |labels| && labels[n].Resume? && labels[n].task == t
    ensures t < POOL_SIZE && !boards[n].tasks[t].Free?
    ensures boards[n].tasks[t].Watching? ==> boards[n].tasks[t].idx < NUM_PINS
    ensures var task, to := boards[n].tasks[t], boards[n + 1].tasks[t];
            if task.Publishing? then to.Watching? && to.idx == task.idx && to.pin == task.pin
            else Rank(to) < Rank(task) <==> (task.Watching? ==> StopAsked(boards, labels, n, task.idx))
  {
    assert boards[n + 1] == Next(boards[n], labels[n]);
    if boards[n].tasks[t].Watching? {
      EveryTaskIsInRange(boards, labels, n, t);
      SignalMeansStopAsked(boards, labels, n, t, boards[n].tasks[t].idx);
    }
  }

  /** A task comes to return its pin exactly when its Ok reply could not be sent, or
      when it has been asked to stop and reaches its select. */
  lemma ReturnsIff(boards: seq<Board>, labels: seq<Label>, n: nat, t: nat)
    requires Run(boards, labels) && n < |labels| && t < POOL_SIZE && !boards[n].tasks[t].Returning?
    ensures boards[n].tasks[t].Watching? ==> boards[n].tasks[t].idx < NUM_PINS
    ensures boards[n + 1].tasks[t].Returning? <==>
            && labels[n].Resume? && labels[n].task == t
            && (|| (boards[n].tasks[t].Announcing? && !labels[n].flag)
                || (boards[n].tasks[t].Watching? && StopAsked(boards, labels, n, boards[n].tasks[t].idx)))
  {
    assert boards[n + 1] == Next(boards[n], labels[n]);
    if boards[n].tasks[t].Watching? {
      EveryTaskIsInRange(boards, labels, n, t);
      SignalMeansStopAsked(boards, labels, n, t, boards[n].tasks[t].idx);
    }
  }

  /** Step `k` is a select of task `t` that finds its stop asked. */
  ghost predicate StoppedAt(boards: seq<Board>, labels: seq<Label>, k: nat, t: nat, i: nat)
    requires Run(boards, labels) && k < |labels| && i < NUM_PINS
  {
    && labels[k].Resume? && labels[k].task == t && t < POOL_SIZE && boards[k].tasks[t].Watching?
    && StopAsked(boards, labels, k, i)
  }

  ghost predicate Monitors(task: Task, i: nat, pin: Pin) {
    (task.Watching? || task.Publishing?) && task.idx == i && task.pin == pin
  }

  lemma MonitorGoesOn(b: Board, l: Label, t: nat, i: nat, pin: Pin)
    requires Inv(b) && Enabled(b, l) && t < POOL_SIZE && i < NUM_PINS && Monitors(b.tasks[t], i, pin)
    requires l.Resume? && l.task == t && b.tasks[t].Watching? ==> !b.stop[i]
    ensures Monitors(Next(b, l).tasks[t], i, pin)
  {
  }

  /** A monitor whose Ok went out watches, or publishes, its pin at every later moment
      up to the select that finds a stop asked: nothing else ends it. */
  lemma {:induction false} MonitorLastsUntilStopped(boards: seq<Board>, labels: seq<Label>, j: nat, m: nat, t: nat,
                                                   i: nat, pin: Pin)
    requires Run(boards, labels) && j < m < |boards| && t < POOL_SIZE && i < NUM_PINS
    requires labels[j] == Resume(t, true) && boards[j].tasks[t] == Announcing(i, pin)
    requires forall k :: j < k < m ==> !StoppedAt(boards, labels, k, t, i)
    ensures Monitors(boards[m].tasks[t], i, pin)
  {
    if m == j + 1 {
    } else {
      MonitorLastsUntilStopped(boards, labels, j, m - 1, t, i, pin);
      assert !StoppedAt(boards, labels, m - 1, t, i);
      SignalMeansStopAsked(boards, labels, m - 1, t, i);
      RunKeepsInv(boards, labels, m - 1);
      MonitorGoesOn(boards[m - 1], labels[m - 1], t, i, pin);
    }
    assert boards[m - 1 + 1] == Next(boards[m - 1], labels[m - 1]);
  }

  // ---------------------------------------------------------------------
  // What a pin has been told.
  // ---------------------------------------------------------------------

  /** Pin `i` as the requests left it: the last mode and level that were asked of it
      while no task owned it. */
  ghost function LeftAs(boards: seq<Board>, labels: seq<Label>, n: nat, i: nat): Pin
    requires Run(boards, labels) && n < |boards| && i < NUM_PINS
  {
    if n == 0 then Pin(i, Floating, false)
    else
      var l, was := labels[n - 1], LeftAs(boards, labels, n - 1, i);
      if l.Config? && l.request == i && !Owned(boards[n - 1], i) then was.(mode := l.mode)
      else if l.Set? && l.request == i && !Owned(boards[n - 1], i) then was.(high := l.high)
      else was
  }

  ghost predicate Owned(b: Board, i: nat) {
    exists t: nat :: OwnsPin(b, t, i)
  }

  /** The pin is in its slot, or in whatever task owns it. */
  ghost predicate PinIs(b: Board, i: nat, pin: Pin)
    requires Shaped(b) && i < NUM_PINS
  {
    && (b.slots[i].Some? ==> b.slots[i].value == pin)
    && forall t: nat :: OwnsPin(b, t, i) ==> b.tasks[t].pin == pin
  }

  lemma TaskStepKeepsPin(b: Board, l: Label, i: nat, pin: Pin)
    requires Inv(b) && Enabled(b, l) && i < NUM_PINS && PinIs(b, i, pin) && (l.Spawn? || l.Resume?)
    ensures PinIs(Next(b, l), i, pin)
  {
    assert Linear(b, i);
    if l.Resume? {
      assert TaskOk(b.tasks[l.task]) && (Owns(b.tasks[l.task]) ==> OwnsPin(b, l.task, b.tasks[l.task].idx));
    }
    forall t: nat | OwnsPin(Next(b, l), t, i) ensures Next(b, l).tasks[t].pin == pin {
      assert t != l.task ==> OwnsPin(b, t, i);
    }
  }

  /** Wherever a pin is, it is as the requests left it; a monitor in between, however
      it ended, changes nothing. */
  lemma {:induction false} PinIsAsLeft(boards: seq<Board>, labels: seq<Label>, n: nat, i: nat)
    requires Run(boards, labels) && n < |boards| && i < NUM_PINS
    ensures PinIs(boards[n], i, LeftAs(boards, labels, n, i))
  {
    if n == 0 {
    } else {
      var b, l := boards[n - 1], labels[n - 1];
      assert boards[n - 1 + 1] == Next(b, l);
      RunKeepsInv(boards, labels, n - 1);
      PinIsAsLeft(boards, labels, n - 1, i);
      if l.Spawn? || l.Resume? {
        TaskStepKeepsPin(b, l, i, LeftAs(boards, labels, n - 1, i));
      } else {
        PinIsInOnePlace(boards, labels, n - 1, i);
        assert forall t: nat :: OwnsPin(boards[n], t, i) <==> OwnsPin(b, t, i);
      }
    }
  }

  /** A read of a pin no task owns returns the level it was last set to. */
  lemma ReadReturnsTheLastSet(boards: seq<Board>, labels: seq<Label>, n: nat, i: nat)
    requires Run(boards, labels) && n < |labels| && i < NUM_PINS && i < 0x100 && labels[n] == Read(i)
    ensures GpioReply(boards[n], labels[n]) ==
              if Owned(boards[n], i) then Busy else Level(LeftAs(boards, labels, n, i).high)
  {
    PinIsAsLeft(boards, labels, n, i);
    PinIsInOnePlace(boards, labels, n, i);
  }

  // ---------------------------------------------------------------------
  // Sequence numbers.
  // ---------------------------------------------------------------------

  /** How many events have been published for pin `i` since it was last taken. */
  ghost function Published(boards: seq<Board>, labels: seq<Label>, n: nat, i: nat): nat
    requires Run(boards, labels) && n < |boards| && i < NUM_PINS
  {
    if n == 0 then 0
    else
      var b, l := boards[n - 1], labels[n - 1];
      if Takes(b, l, i) then 0
      else Published(boards, labels, n - 1, i) + if Publishes(b, l, i) then 1 else 0
  }

  /** A monitor numbers its events consecutively from zero, modulo 2^16, whatever
      other monitors and requests do meanwhile. */
  lemma {:induction false} EventsAreNumberedInOrder(boards: seq<Board>, labels: seq<Label>, n: nat, t: nat, i: nat)
    requires Run(boards, labels) && n < |boards| && i < NUM_PINS
    requires OwnsPin(boards[n], t, i) && Monitoring(boards[n].tasks[t])
    ensures NextNumber(boards[n].tasks[t]) == Published(boards, labels, n, i) % 0x1_0000
  {
    if n == 0 {
    } else {
      var b, l := boards[n - 1], labels[n - 1];
      assert boards[n - 1 + 1] == Next(b, l);
      RunKeepsInv(boards, labels, n - 1);
      if l.Resume? && l.task == t {
        MonitorStep(b, l, t, i);
      } else {
        assert OwnsPin(b, t, i);
        OthersLeaveMonitorAlone(b, l, t, i);
      }
      if !Takes(b, l, i) {
        EventsAreNumberedInOrder(boards, labels, n - 1, t, i);
        var count := Published(boards, labels, n - 1, i);
        if Publishes(b, l, i) {
          CountOn(count);
          assert Published(boards, labels, n, i) == count + 1;
        } else {
          assert Published(boards, labels, n, i) == count;
        }
      }
    }
  }

  lemma CountOn(count: nat)
    ensures (count % 0x1_0000 + 1) % 0x1_0000 == (count + 1) % 0x1_0000
  {
  }
}
