/** The two acquire loops: ask, and while the answer is "busy" sleep and ask
    again until a deadline. Replies and clock readings come from outside. */
module Retry {
  import opened Common

  /** `clock(k)` is the reading taken after try `k`; a sleep of at least `step`
      separates one reading from the next. */
  ghost predicate Paced(clock: nat -> nat, start: nat, step: nat) {
    start <= clock(0) && forall k: nat :: clock(k) + step <= clock(k + 1)
  }

  lemma {:induction false} ReadingsAdvance(clock: nat -> nat, start: nat, step: nat, k: nat)
    requires Paced(clock, start, step)
    ensures start + k * step <= clock(k)
  {
    if k == 0 {
    } else {
      ReadingsAdvance(clock, start, step, k - 1);
      assert clock(k - 1) + step <= clock(k - 1 + 1);
      assert k * step == (k - 1) * step + step;
    }
  }

  function CeilDiv(a: nat, b: nat): nat
    requires b > 0
  {
    (a + b - 1) / b
  }

  lemma CeilDivCovers(a: nat, b: nat)
    requires b > 0
    ensures a <= CeilDiv(a, b) * b
  {
    assert a + b - 1 < (CeilDiv(a, b) + 1) * b == CeilDiv(a, b) * b + b;
  }

  lemma MoreTriesMoreTime(q: nat, k: nat, step: nat)
    requires q <= k
    ensures q * step <= k * step
  {
    assert k * step == q * step + (k - q) * step;
  }

  /** A loop that went on after try `k` is within its allowance of tries. */
  lemma TriesAreBounded(clock: nat -> nat, start: nat, step: nat, timeout: nat, k: nat)
    requires step > 0 && Paced(clock, start, step) && clock(k) < start + timeout
    ensures k < CeilDiv(timeout, step)
  {
    ReadingsAdvance(clock, start, step, k);
    CeilDivCovers(timeout, step);
    if CeilDiv(timeout, step) <= k {
      MoreTriesMoreTime(CeilDiv(timeout, step), k, step);
    }
  }
}

module LeaseClient {
  import opened Common
  import opened LeaseServer
  import Retry

  const SLEEP: nat := NANOS

  datatype Outcome = Acquired(id: u64) | HeldBy(holder: string, expiresInS: u32) | Broken

  /** `LeaseClient::acquire` up to its grant. `connected`: the server was reached and
      the handshake went well; `reply(k)` is the outcome of roundtrip `k`, `None` for
      an I/O error. It stops at the first reply that is not Busy, or at the first Busy
      read at or after the deadline, and at no other point. */
  method Acquire(start: nat, timeout: nat, connected: bool, reply: nat -> Option<Reply>, clock: nat -> nat)
    returns (out: Outcome, tries: nat)
    requires Retry.Paced(clock, start, SLEEP)
    ensures connected <==> tries >= 1
    ensures !connected ==> out == Broken
    ensures forall k :: 0 <= k < tries - 1 ==> reply(k).Some? && reply(k).value.Busy? && clock(k) < start + timeout
    ensures connected ==>
            match reply(tries - 1)
            case Some(Granted(id)) => out == Acquired(id)
            case Some(Busy(holder, left)) => out == HeldBy(holder, left) && clock(tries - 1) >= start + timeout
            case _ => out == Broken
    ensures tries <= Retry.CeilDiv(timeout, SLEEP) + 1
  {
    var deadline := start + timeout;
    tries := 0;
    if !connected {
      return Broken, 0;
    }
    while true
      invariant forall k :: 0 <= k < tries ==> reply(k).Some? && reply(k).value.Busy? && clock(k) < deadline
      invariant tries <= Retry.CeilDiv(timeout, SLEEP)
      decreases deadline - clock(tries)
    {
      tries := tries + 1;
      var r := reply(tries - 1);
      if r.None? {
        return Broken, tries;
      }
      match r.value {
        case Granted(id) =>
          return Acquired(id), tries;
        case Busy(holder, expiresInS) =>
          if clock(tries - 1) >= deadline {
            return HeldBy(holder, expiresInS), tries;
          }
          Retry.TriesAreBounded(clock, start, SLEEP, timeout, tries - 1);
          assert clock(tries - 1) + SLEEP <= clock(tries - 1 + 1);
        case _ =>
          return Broken, tries;
      }
    }
  }
}
