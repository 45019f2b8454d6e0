/** What a client of the lease protocol does with what it is told, over whole runs:
    the lease it holds is the last one granted to it, a failed renewal leads to a
    re-acquire, and a Release frees the rig. */
module RenewLoop {
  import opened Common
  import opened LeaseServer
  import opened LeaseProtocol

  // ---------------------------------------------------------------------
  // The lease a client holds.
  // ---------------------------------------------------------------------

  /** Between `st` and `to` client `c` read `Granted(id)` on its stream `s`. */
  ghost predicate ReadsGrant(st: State, to: State, c: nat, s: nat, id: u64) {
    && s < |st.streams| <= |to.streams| && st.streams[s].client == c
    && st.streams[s].read < to.streams[s].read
    && Readable(st, s) && NextReply(st, s) == Granted(id)
  }

  /** Only the client's own reading steps read on its streams. */
  lemma OnlyReadersRead(st: State, step: Step, c: nat, s: nat)
    requires Inv(st) && Enabled(st, step) && s < |st.streams| && st.streams[s].client == c
    requires s < |Next(st, step).streams| && st.streams[s].read < Next(st, step).streams[s].read
    ensures (step.ReadAcquire? || step.ReadRenew? || step.ReadReacquire?) && step.client == c
    ensures c < |st.clients|
    ensures s == match st.clients[c]
                 case Acquiring(t) => t
                 case Reacquiring(_, t) => t
                 case Renewing(l) => l.stream
                 case _ => s
  {
    if !step.Tick? && !step.ServeNext? && !step.Observe? {
      assert ClientOk(st, step.client);
    }
  }

  /** A step at which a client reads a Granted puts it in the loop with that very
      stream and id. */
  lemma GrantIsTaken(st: State, step: Step, c: nat, s: nat, id: u64)
    requires Inv(st) && Enabled(st, step) && ReadsGrant(st, Next(st, step), c, s, id)
    ensures var to := Next(st, step);
            && c < |to.clients| && InLoop(to.clients[c])
            && to.clients[c].lease.stream == s && to.clients[c].lease.id == id
  {
    OnlyReadersRead(st, step, c, s);
    if step.ReadRenew? {
      RenewReplyExpected(st, c);
    }
  }

  /** Any other step leaves a client in the loop with the stream and id it had. */
  lemma NothingElseChangesTheLease(st: State, step: Step, c: nat)
    requires Inv(st) && Enabled(st, step) && c < |st.clients|
    requires forall s, id :: !ReadsGrant(st, Next(st, step), c, s, id)
    ensures var was, now := st.clients[c], Next(st, step).clients[c];
            && (InLoop(now) ==> InLoop(was) && now.lease.stream == was.lease.stream && now.lease.id == was.lease.id)
            && (InLoop(was) ==> InLoop(now) || now.Stopped?)
            && (was.Stopped? ==> now.Stopped?)
  {
    var to := Next(st, step);
    assert ClientOk(st, c);
    if (step.ReadAcquire? || step.ReadReacquire?) && step.client == c {
      var s := if step.ReadAcquire? then st.clients[c].stream else st.clients[c].spare;
      if NextReply(st, s).Granted? {
        assert ReadsGrant(st, to, c, s, NextReply(st, s).id);
      }
    }
  }

  ghost predicate GrantReadAt(states: seq<State>, x: nat, c: nat, s: nat, id: u64)
    requires x + 1 < |states|
  {
    ReadsGrant(states[x], states[x + 1], c, s, id)
  }

  /** The last Granted that client `c` read before state `n` was this one. */
  ghost predicate LastGrantRead(states: seq<State>, n: nat, c: nat, s: nat, id: u64)
    requires n < |states|
  {
    exists g: nat :: g < n && GrantReadAt(states, g, c, s, id)
                     && forall x, t, other :: g < x < n ==> !GrantReadAt(states, x, c, t, other)
  }

  /** At every instant of every run a client that has not stopped is in its loop
      exactly if it has ever read a Granted, and then its stream and id are those of
      the last one it read: nothing it lost is kept, nothing it got is dropped. */
  lemma {:induction false} LeaseIsTheLastGrant(states: seq<State>, steps: seq<Step>, n: nat, c: nat)
    requires Run(states, steps) && n < |states| && c < |states[n].clients|
    ensures InLoop(states[n].clients[c]) ==>
              LastGrantRead(states, n, c, states[n].clients[c].lease.stream, states[n].clients[c].lease.id)
    ensures !states[n].clients[c].Stopped? ==>
              (InLoop(states[n].clients[c]) <==> exists g: nat, s, id :: g < n && GrantReadAt(states, g, c, s, id))
  {
    if n == 0 {
    } else {
      var last: nat := n - 1;
      var st, to := states[last], states[n];
      assert states[n - 1 + 1] == Next(st, steps[n - 1]);
      RunKeepsInv(states, steps, n - 1);
      LeaseIsTheLastGrant(states, steps, n - 1, c);
      if s, id :| GrantReadAt(states, last, c, s, id) {
        GrantIsTaken(st, steps[n - 1], c, s, id);
        assert LastGrantRead(states, n, c, s, id);
      } else {
        assert forall s, id :: !ReadsGrant(st, to, c, s, id) by {
          forall s, id ensures !ReadsGrant(st, to, c, s, id) {
            assert !GrantReadAt(states, last, c, s, id);
          }
        }
        NothingElseChangesTheLease(st, steps[n - 1], c);
        if InLoop(to.clients[c]) {
          var l := to.clients[c].lease;
          var g: nat :| g < n - 1 && GrantReadAt(states, g, c, l.stream, l.id)
                        && forall x, t, other :: g < x < n - 1 ==> !GrantReadAt(states, x, c, t, other);
          assert GrantReadAt(states, g, c, l.stream, l.id);
        }
      }
    }
  }

  /** An acquire that is still waiting reads Granted or Busy: it holds on Granted,
      gives up on a Busy past its deadline, and asks again after any other Busy. */
  lemma AcquireReplyExpected(states: seq<State>, steps: seq<Step>, n: nat, c: nat)
    requires Run(states, steps) && n < |steps| && steps[n].ReadAcquire? && steps[n].client == c
    ensures c < |states[n].clients| && states[n].clients[c].Acquiring?
    ensures var s := states[n].clients[c].stream; var now := states[n + 1].clients[c];
            && Readable(states[n], s) && (NextReply(states[n], s).Granted? || NextReply(states[n], s).Busy?)
            && (now.Holding? <==> NextReply(states[n], s).Granted?)
            && (now.Stopped? <==> NextReply(states[n], s).Busy? && steps[n].expired)
            && (now == Trying(s) <==> NextReply(states[n], s).Busy? && !steps[n].expired)
  {
    RunKeepsInv(states, steps, n);
    var st := states[n]; var s := st.clients[c].stream; var x := st.streams[s];
    assert states[n + 1] == Next(st, steps[n]);
    assert ClientOk(st, c) && StreamOk(st, s);
    assert ReplyOk(st, s, x.requests[x.read], x.replies[x.read]);
  }

  // ---------------------------------------------------------------------
  // Failed renewals.
  // ---------------------------------------------------------------------

  /** A renewal that comes to nothing: not written, timed out or broken, or refused. */
  ghost predicate RenewFails(st: State, step: Step, c: nat) {
    && Enabled(st, step)
    && (|| step == RenewNotWritten(c) || step == RenewTimesOut(c)
        || (step == ReadRenew(c) && NextReply(st, st.clients[c].lease.stream) == Gone))
  }

  /** The end of an attempt to re-acquire, with whatever result. */
  predicate ReacquireEnds(step: Step, c: nat) {
    step == ReadReacquire(c) || step == ReacquireFails(c)
  }

  predicate Reacquires(cl: Client) {
    cl.Reconnecting? || cl.Reacquiring?
  }

  /** A client re-acquires exactly from a failed renewal to the end of the attempt. */
  lemma StepReacquires(st: State, step: Step, c: nat)
    requires Inv(st) && Enabled(st, step) && c < |st.clients| && !Next(st, step).clients[c].Stopped?
    ensures Reacquires(Next(st, step).clients[c]) <==>
            RenewFails(st, step, c) || (Reacquires(st.clients[c]) && !ReacquireEnds(step, c))
  {
    assert ClientOk(st, c);
    if step == ReadRenew(c) {
      RenewReplyExpected(st, c);
    }
  }

  /** Whether the last renewal of `c` to fail has had no attempt to re-acquire ended
      since, read off the steps. */
  ghost predicate OwesReacquire(states: seq<State>, steps: seq<Step>, n: nat, c: nat)
    requires |states| == |steps| + 1 && n <= |steps|
  {
    n > 0 &&
    (|| RenewFails(states[n - 1], steps[n - 1], c)
     || (OwesReacquire(states, steps, n - 1, c) && !ReacquireEnds(steps[n - 1], c)))
  }

  /** After every failed renewal, and only then, the client re-acquires before it does
      anything else: it renews again only once that attempt has ended. */
  lemma {:induction false} FailureLeadsToReacquire(states: seq<State>, steps: seq<Step>, n: nat, c: nat)
    requires Run(states, steps) && n < |states| && c < |states[n].clients| && !states[n].clients[c].Stopped?
    ensures Reacquires(states[n].clients[c]) <==> OwesReacquire(states, steps, n, c)
    ensures n < |steps| && steps[n] in {SendRenew(c), SendRelease(c)} ==> !OwesReacquire(states, steps, n, c)
  {
    if n == 0 {
    } else {
      assert states[n - 1 + 1] == Next(states[n - 1], steps[n - 1]);
      RunKeepsInv(states, steps, n - 1);
      FailureLeadsToReacquire(states, steps, n - 1, c);
      StepReacquires(states[n - 1], steps[n - 1], c);
    }
    if n < |steps| {
      assert Enabled(states[n], steps[n]);
    }
  }

  /** The loop has no error exit: it ends only by its Release or with its process. */
  lemma LoopEndsOnlyWhenTold(states: seq<State>, steps: seq<Step>, n: nat, c: nat)
    requires Run(states, steps) && n < |steps| && c < |states[n].clients| && InLoop(states[n].clients[c])
    ensures c < |states[n + 1].clients|
    ensures !InLoop(states[n + 1].clients[c]) <==> steps[n] in {SendRelease(c), Quit(c)}
  {
    assert states[n + 1] == Next(states[n], steps[n]);
  }

  // ---------------------------------------------------------------------
  // Releases.
  // ---------------------------------------------------------------------

  predicate NotInSlot(st: State, id: u64) {
    st.slot.None? || st.slot.value.id != id
  }

  /** Every Release served so far has freed the rig of its lease. */
  ghost predicate ReleasesDone(st: State) {
    forall s, k ::
      && 0 <= s < |st.streams| && 0 <= k < |st.streams[s].replies| && k < |st.streams[s].requests|
      && st.streams[s].requests[k].req.Release?
      ==> NotInSlot(st, st.streams[s].requests[k].req.id)
  }

  /** An id that has been granted and is out of the slot never comes back. */
  lemma OutStaysOut(st: State, step: Step, id: u64)
    requires Enabled(st, step) && id in st.owner && NotInSlot(st, id)
    ensures NotInSlot(Next(st, step), id) && id in Next(st, step).owner
  {
  }

  lemma StreamsOnlyGrow(st: State, step: Step, s: nat)
    requires Enabled(st, step) && s < |st.streams|
    ensures s < |Next(st, step).streams|
    ensures var x, y := st.streams[s], Next(st, step).streams[s];
            && x.requests <= y.requests && x.replies <= y.replies
            && (x.replies != y.replies ==> step.ServeNext? && step.stream == s && y.requests == x.requests
                                           && |y.replies| == |x.replies| + 1)
  {
  }

  lemma ServedReleaseFrees(st: State, s: nat, minted: u64)
    requires Inv(st) && Unserved(st, s) && minted !in st.owner
    requires st.streams[s].requests[|st.streams[s].replies|].req.Release?
    ensures NotInSlot(Served(st, s, minted), st.streams[s].requests[|st.streams[s].replies|].req.id)
  {
  }

  lemma StepKeepsReleases(st: State, step: Step)
    requires Inv(st) && ReleasesDone(st) && Enabled(st, step)
    ensures ReleasesDone(Next(st, step))
  {
    var to := Next(st, step);
    forall s, k | 0 <= s < |to.streams| && 0 <= k < |to.streams[s].replies| && k < |to.streams[s].requests|
                  && to.streams[s].requests[k].req.Release?
      ensures NotInSlot(to, to.streams[s].requests[k].req.id)
    {
      if s < |st.streams| {
        StreamsOnlyGrow(st, step, s);
        assert StreamOk(st, s);
        if k < |st.streams[s].replies| {
          assert st.streams[s].requests[k] == to.streams[s].requests[k];
          assert SentOk(st, s, st.streams[s].requests[k]);
          OutStaysOut(st, step, st.streams[s].requests[k].req.id);
        } else {
          ServedReleaseFrees(st, s, step.minted);
        }
      }
    }
  }

  lemma {:induction false} RunKeepsReleases(states: seq<State>, steps: seq<Step>, n: nat)
    requires Run(states, steps) && n < |states|
    ensures ReleasesDone(states[n])
  {
    if n == 0 {
    } else {
      RunKeepsInv(states, steps, n - 1);
      RunKeepsReleases(states, steps, n - 1);
      StepKeepsReleases(states[n - 1], steps[n - 1]);
      assert states[n - 1 + 1] == Next(states[n - 1], steps[n - 1]);
    }
  }

  lemma {:induction false} RequestsStay(states: seq<State>, steps: seq<Step>, j: nat, n: nat, s: nat)
    requires Run(states, steps) && j <= n < |states| && s < |states[j].streams|
    ensures s < |states[n].streams| && states[j].streams[s].requests <= states[n].streams[s].requests
  {
    if n == j {
    } else {
      RequestsStay(states, steps, j, n - 1, s);
      StreamsOnlyGrow(states[n - 1], steps[n - 1], s);
      assert states[n - 1 + 1] == Next(states[n - 1], steps[n - 1]);
    }
  }

  /** A client that stops by release frees the rig: once the server has served all that
      is on its stream, its lease is not in the slot. */
  lemma ReleaseFreesTheRig(states: seq<State>, steps: seq<Step>, n: nat, m: nat, c: nat)
    requires Run(states, steps) && n < m < |states| && steps[n] == SendRelease(c)
    ensures c < |states[n].clients| && states[n].clients[c].Holding? && states[n + 1].clients[c].Stopped?
    ensures var l := states[n].clients[c].lease;
            && l.stream < |states[m].streams|
            && (|states[m].streams[l.stream].replies| == |states[m].streams[l.stream].requests|
                ==> NotInSlot(states[m], l.id))
  {
    var l := states[n].clients[c].lease;
    assert states[n + 1] == Next(states[n], steps[n]);
    var k := |states[n].streams[l.stream].requests|;
    assert states[n + 1].streams[l.stream].requests[k].req == Release(l.id);
    RequestsStay(states, steps, n + 1, m, l.stream);
    RunKeepsReleases(states, steps, m);
    assert states[m].streams[l.stream].requests[k].req == Release(l.id);
  }
}
