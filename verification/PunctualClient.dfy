/** A client of the lease protocol whose renew thread keeps its pace. */
module PunctualClient {
  import opened Common
  import opened LeaseServer
  import opened LeaseTiming
  import opened LeaseProtocol

  predicate ByClient(step: Step, c: nat) {
    !step.Tick? && !step.ServeNext? && !step.Observe? && step.client == c
  }

  /** When client `c` last read a reply to a Renew, counting from state `g`. */
  ghost function LastRead(states: seq<State>, steps: seq<Step>, c: nat, g: nat, n: nat): nat
    requires |states| == |steps| + 1 && g <= n <= |steps|
  {
    if n == g then states[g].now
    else if steps[n - 1] == ReadRenew(c) then states[n - 1].now
    else LastRead(states, steps, c, g, n - 1)
  }

  /** At state `g` the client holds a lease, has had no roundtrip time out on its
      stream, and its last positive reply took less than a third of the ttl. */
  ghost predicate JustRead(st: State, c: nat) {
    && c < |st.clients| && st.clients[c].Holding? && st.clients[c].lease.timeouts == 0
    && var l := st.clients[c].lease;
       && l.stream < |st.streams| && l.proof < |st.streams[l.stream].requests|
       && st.now < st.streams[l.stream].requests[l.proof].at + TTL / 3
  }

  /** The roundtrip under way, late wake-up included, takes less than a third of the
      ttl on top of the sleep before it. */
  ghost predicate ReadsInTime(states: seq<State>, steps: seq<Step>, c: nat, g: nat, n: nat)
    requires |states| == |steps| + 1 && g <= n <= |steps|
  {
    states[n].now < LastRead(states, steps, c, g, n) + PERIOD + TTL / 3
  }

  /** No roundtrip of `c` fails, it is not stopped, and it sleeps a period or more
      before each Renew. */
  ghost predicate StepsInTime(states: seq<State>, steps: seq<Step>, c: nat, g: nat, n: nat)
    requires |states| == |steps| + 1 && g <= n < |steps|
  {
    ByClient(steps[n], c) ==>
      || steps[n] == ReadRenew(c)
      || (steps[n] == SendRenew(c) && LastRead(states, steps, c, g, n) + PERIOD <= states[n].now)
  }

  /** The client keeps its pace from state `g` to state `m`. */
  ghost predicate InTime(states: seq<State>, steps: seq<Step>, c: nat, g: nat, m: nat) {
    && |states| == |steps| + 1 && g <= m <= |steps|
    && (forall n :: g <= n <= m ==> ReadsInTime(states, steps, c, g, n))
    && (forall n :: g <= n < m ==> StepsInTime(states, steps, c, g, n))
  }

  /** The client is in its loop on stream `s` with lease `id`; `last` is when it read. */
  ghost predicate KeepsUp(st: State, c: nat, s: nat, id: u64, last: nat) {
    && c < |st.clients| && (st.clients[c].Holding? || st.clients[c].Renewing?) && s < |st.streams|
    && var l := st.clients[c].lease; var x := st.streams[s];
       && l.stream == s && l.id == id && l.timeouts == 0
       && l.proof < |x.requests| && last < x.requests[l.proof].at + TTL / 3
       && (st.clients[c].Renewing? ==> |x.requests| > 0 && last + PERIOD <= x.requests[|x.requests| - 1].at)
       && forall k :: x.read <= k < |x.replies| ==> x.replies[k] == Ok
  }

  lemma KeepingUpBelieves(st: State, c: nat, s: nat, id: u64, last: nat)
    requires Inv(st) && KeepsUp(st, c, s, id, last) && st.now < last + PERIOD + TTL / 3
    ensures Believes(st, c)
  {
    assert ClientOk(st, c);
  }

  /** Only its own steps and the server touch a client's stream. */
  lemma OthersLeaveItAlone(st: State, step: Step, c: nat, s: nat)
    requires Enabled(st, step) && !step.Tick? && !step.ServeNext? && !step.Observe? && step.client != c
    requires c < |st.clients| && s < |st.streams| && st.streams[s].client == c && ClientOk(st, step.client)
    ensures var to := Next(st, step);
            && |to.clients| == |st.clients| && to.clients[c] == st.clients[c]
            && s < |to.streams| && to.streams[s] == st.streams[s]
  {
  }

  lemma OthersKeepUp(st: State, step: Step, c: nat, s: nat, id: u64, last: nat)
    requires Inv(st) && Enabled(st, step) && KeepsUp(st, c, s, id, last)
    requires !step.ServeNext? && !ByClient(step, c)
    ensures KeepsUp(Next(st, step), c, s, id, last)
  {
    if !step.Tick? && !step.Observe? {
      assert ClientOk(st, c) && ClientOk(st, step.client);
      OthersLeaveItAlone(st, step, c, s);
    }
  }

  lemma ServerKeepsUp(st: State, s: nat, minted: u64, c: nat, t: nat, id: u64, last: nat)
    requires Inv(st) && Enabled(st, ServeNext(s, minted))
    requires KeepsUp(st, c, t, id, last) && st.now < last + PERIOD + TTL / 3
    ensures KeepsUp(Next(st, ServeNext(s, minted)), c, t, id, last)
  {
    KeepingUpBelieves(st, c, t, id, last);
    BelieverHasTheSlot(st, c);
    assert ClientOk(st, c) && StreamOk(st, s);
    if s == t {
      assert st.streams[s].requests[|st.streams[s].replies|].req == Renew(id);
    }
  }

  lemma OwnStepKeepsUp(st: State, step: Step, c: nat, s: nat, id: u64, last: nat)
    requires Inv(st) && Enabled(st, step) && KeepsUp(st, c, s, id, last) && st.now < last + PERIOD + TTL / 3
    requires step == ReadRenew(c) || (step == SendRenew(c) && last + PERIOD <= st.now)
    ensures KeepsUp(Next(st, step), c, s, id, if step == ReadRenew(c) then st.now else last)
    ensures step == ReadRenew(c) ==> NextReply(st, s) == Ok
  {
    assert ClientOk(st, c) && StreamOk(st, s);
  }

  lemma StepKeepsUp(st: State, step: Step, c: nat, s: nat, id: u64, last: nat)
    requires Inv(st) && Enabled(st, step) && KeepsUp(st, c, s, id, last) && st.now < last + PERIOD + TTL / 3
    requires ByClient(step, c) ==> step == ReadRenew(c) || (step == SendRenew(c) && last + PERIOD <= st.now)
    ensures KeepsUp(Next(st, step), c, s, id, if step == ReadRenew(c) then st.now else last)
  {
    if ByClient(step, c) {
      OwnStepKeepsUp(st, step, c, s, id, last);
    } else if step.ServeNext? {
      ServerKeepsUp(st, step.stream, step.minted, c, s, id, last);
    } else {
      OthersKeepUp(st, step, c, s, id, last);
    }
  }

  lemma JustReadKeepsUp(st: State, c: nat)
    requires Inv(st) && JustRead(st, c)
    ensures KeepsUp(st, c, st.clients[c].lease.stream, st.clients[c].lease.id, st.now)
  {
    assert ClientOk(st, c) && StreamOk(st, st.clients[c].lease.stream);
  }

  ghost predicate KeepsUpAt(states: seq<State>, steps: seq<Step>, c: nat, g: nat, s: nat, id: u64, n: nat)
    requires |states| == |steps| + 1 && g <= n <= |steps|
  {
    KeepsUp(states[n], c, s, id, LastRead(states, steps, c, g, n))
  }

  lemma StepInTimeKeepsUp(states: seq<State>, steps: seq<Step>, c: nat, g: nat, m: nat, s: nat, id: u64, n: nat)
    requires Run(states, steps) && InTime(states, steps, c, g, m) && g <= n < m
    requires KeepsUpAt(states, steps, c, g, s, id, n)
    ensures KeepsUpAt(states, steps, c, g, s, id, n + 1)
  {
    RunKeepsInv(states, steps, n);
    assert ReadsInTime(states, steps, c, g, n) && StepsInTime(states, steps, c, g, n);
    StepKeepsUp(states[n], steps[n], c, s, id, LastRead(states, steps, c, g, n));
    assert states[n + 1] == Next(states[n], steps[n]);
  }

  lemma {:induction false} KeepsUpThroughout(states: seq<State>, steps: seq<Step>, c: nat, g: nat,
                                             s: nat, id: u64, n: nat)
    requires |states| == |steps| + 1 && g <= n <= |steps| && KeepsUpAt(states, steps, c, g, s, id, g)
    requires forall k :: g <= k < n && KeepsUpAt(states, steps, c, g, s, id, k)
                         ==> KeepsUpAt(states, steps, c, g, s, id, k + 1)
    ensures KeepsUpAt(states, steps, c, g, s, id, n)
    decreases n
  {
    if n == g {
    } else {
      KeepsUpThroughout(states, steps, c, g, s, id, n - 1);
      assert KeepsUpAt(states, steps, c, g, s, id, n - 1 + 1);
    }
  }

  lemma InTimeKeepsUp(states: seq<State>, steps: seq<Step>, c: nat, g: nat, m: nat, n: nat)
    requires Run(states, steps) && InTime(states, steps, c, g, m) && JustRead(states[g], c) && g <= n <= m
    ensures var l := states[g].clients[c].lease;
            KeepsUpAt(states, steps, c, g, l.stream, l.id, n)
  {
    var l := states[g].clients[c].lease;
    RunKeepsInv(states, steps, g);
    JustReadKeepsUp(states[g], c);
    forall k | g <= k < n && KeepsUpAt(states, steps, c, g, l.stream, l.id, k)
      ensures KeepsUpAt(states, steps, c, g, l.stream, l.id, k + 1)
    {
      StepInTimeKeepsUp(states, steps, c, g, m, l.stream, l.id, k);
    }
    KeepsUpThroughout(states, steps, c, g, l.stream, l.id, n);
  }

  /** A client that keeps its pace keeps the rig, whatever the other machines do and
      however slowly anyone else is served: it believes it has the rig throughout, on
      one stream and under one id, every reply it reads is Ok, and nobody is granted. */
  lemma PunctualClientKeepsTheRig(states: seq<State>, steps: seq<Step>, c: nat, g: nat, m: nat, n: nat)
    requires Run(states, steps) && InTime(states, steps, c, g, m) && JustRead(states[g], c) && g <= n <= m
    ensures Believes(states[n], c)
    ensures states[n].clients[c].lease.stream == states[g].clients[c].lease.stream
    ensures states[n].clients[c].lease.id == states[g].clients[c].lease.id
    ensures n < m && steps[n] == ReadRenew(c) ==>
              Readable(states[n], states[n].clients[c].lease.stream)
              && NextReply(states[n], states[n].clients[c].lease.stream) == Ok
    ensures n < m ==> states[n + 1].owner == states[n].owner
  {
    var l := states[g].clients[c].lease;
    InTimeKeepsUp(states, steps, c, g, m, n);
    RunKeepsInv(states, steps, n);
    assert ReadsInTime(states, steps, c, g, n);
    KeepingUpBelieves(states[n], c, l.stream, l.id, LastRead(states, steps, c, g, n));
    if n < m {
      assert states[n + 1] == Next(states[n], steps[n]);
      if steps[n] == ReadRenew(c) {
        assert StepsInTime(states, steps, c, g, n);
        OwnStepKeepsUp(states[n], steps[n], c, l.stream, l.id, LastRead(states, steps, c, g, n));
      }
      if steps[n].ServeNext? && states[n + 1].owner != states[n].owner {
        GrantFindsNoBeliever(states, steps, n, c);
      }
    }
  }

  lemma GoOn(was: seq<State>, taken: seq<Step>, step: Step) returns (states: seq<State>, steps: seq<Step>)
    requires Run(was, taken) && Enabled(was[|taken|], step)
    ensures Run(states, steps)
    ensures states == was + [Next(was[|taken|], step)] && steps == taken + [step]
  {
    states, steps := was + [Next(was[|taken|], step)], taken + [step];
  }

  /** A renewal of the lease of `SomeRunGrantsTheRig`, one period later. */
  lemma SomeRenewal(st: State)
    requires st.now == 0 && |st.clients| == 2 && st.clients[0] == Holding(Lease(0, 7, 0, 0))
    requires st.slot == Some(Held(7, "a", TTL, TTL)) && st.owner == map[7 := 0]
    requires exists m :: st.streams == [Stream(0, [m], [Granted(7)], 1)]
    ensures Enabled(st, Tick(PERIOD)) && Enabled(Next(st, Tick(PERIOD)), SendRenew(0))
    ensures var asked := Next(Next(st, Tick(PERIOD)), SendRenew(0));
            Enabled(asked, ServeNext(0, 8)) && Enabled(Next(asked, ServeNext(0, 8)), ReadRenew(0))
  {
    var s6 := Next(st.(now := PERIOD), SendRenew(0));
    assert s6.streams[0].requests[1] == Sent(Renew(7), PERIOD);
  }

  lemma SomeClientRenews() returns (states: seq<State>, steps: seq<Step>)
    ensures |steps| == 8 && steps[4..] == [Tick(PERIOD), SendRenew(0), ServeNext(0, 8), ReadRenew(0)]
    ensures Run(states, steps) && JustRead(states[4], 0)
    ensures states[4].now == 0 && forall n :: 5 <= n <= 8 ==> states[n].now == PERIOD
  {
    states, steps := SomeRunGrantsTheRig();
    SomeRenewal(states[4]);
    states, steps := GoOn(states, steps, Tick(PERIOD));
    states, steps := GoOn(states, steps, SendRenew(0));
    states, steps := GoOn(states, steps, ServeNext(0, 8));
    states, steps := GoOn(states, steps, ReadRenew(0));
  }

  /** Such clients exist: some run has one renew its lease in time. */
  lemma SomeClientIsPunctual() returns (states: seq<State>, steps: seq<Step>)
    ensures Run(states, steps) && |steps| == 8 && steps[7] == ReadRenew(0)
    ensures JustRead(states[4], 0) && InTime(states, steps, 0, 4, 8)
  {
    states, steps := SomeClientRenews();
    var tail := steps[4..];
    assert steps[4] == tail[0] && steps[5] == tail[1] && steps[6] == tail[2] && steps[7] == tail[3];
    assert LastRead(states, steps, 0, 4, 4) == 0;
    assert LastRead(states, steps, 0, 4, 5) == 0;
    assert LastRead(states, steps, 0, 4, 6) == 0;
    assert LastRead(states, steps, 0, 4, 7) == 0;
    forall n | 4 <= n <= 8 ensures ReadsInTime(states, steps, 0, 4, n) {
      assert n == 4 || n == 5 || n == 6 || n == 7 || n == 8;
    }
    forall n | 4 <= n < 8 ensures StepsInTime(states, steps, 0, 4, n) {
      assert n == 4 || n == 5 || n == 6 || n == 7;
    }
  }
}
