/** The renew thread's timing against the server's expiry test: how late a
    renewal may be, and how many may be missed. */
module LeaseTiming {
  import opened Common
  import opened LeaseServer

  const DEFAULT_TTL_S: u32 := 60
  const TTL: nat := 60 * NANOS

  /** The renew thread sleeps a third of the ttl between roundtrips. */
  const PERIOD: nat := TTL / 3

  /** The last instant, among the first `n` requests, at which grant `i`'s lease
      was granted or asked to be renewed. */
  function LastTouch(es: seq<Event>, i: nat, n: nat): nat
    requires i < n <= |es|
  {
    if n == i + 1 then es[i].at
    else if es[n - 1].req == Renew(es[i].minted) then es[n - 1].at
    else LastTouch(es, i, n - 1)
  }

  ghost predicate NotReleased(es: seq<Event>, i: nat, n: nat)
    requires i < n <= |es|
  {
    forall m :: i < m < n ==> es[m].req != Release(es[i].minted)
  }

  ghost predicate DefaultGrant(es: seq<Event>, i: nat) {
    i < |es| && GrantedAt(es, i) && es[i].req.ttlS == DEFAULT_TTL_S
  }

  /** Every request handled before `n` came less than a ttl after the touch before it. */
  ghost predicate NeverStale(es: seq<Event>, i: nat, n: nat)
    requires i < n <= |es|
  {
    forall m :: i < m < n ==> es[m].at < LastTouch(es, i, m) + TTL
  }

  lemma {:induction false} TouchedDeadline(es: seq<Event>, i: nat, n: nat)
    requires DefaultGrant(es, i) && i < n <= |es| && NotReleased(es, i, n) && NeverStale(es, i, n)
    ensures Deadline(es, i, n) == Some(LastTouch(es, i, n) + TTL)
  {
    if n == i + 1 {
    } else {
      TouchedDeadline(es, i, n - 1);
      assert es[n - 1].at < LastTouch(es, i, n - 1) + TTL;
    }
  }

  // ---------------------------------------------------------------------
  // A punctual holder.
  // ---------------------------------------------------------------------

  /** One trip round the holder's loop: `sent` when the request is written,
      `handled` when the server serves it, `done` when the reply has been read.
      Round 0 is the Acquire; the last may be the Release, which cuts a sleep short. */
  datatype Round = Round(sent: nat, handled: nat, done: nat)

  /** Each roundtrip, wake-up slack of the sleeping thread included, takes less
      than a third of the ttl on top of the sleep. */
  ghost predicate Punctual(rounds: seq<Round>) {
    && |rounds| > 0
    && (forall k :: 0 <= k < |rounds| ==> rounds[k].sent <= rounds[k].handled <= rounds[k].done)
    && rounds[0].done < rounds[0].sent + TTL / 3
    && (forall k :: 0 < k < |rounds| ==>
          && rounds[k - 1].done + (if k < |rounds| - 1 then PERIOD else 0) <= rounds[k].sent
          && rounds[k].done < rounds[k - 1].done + PERIOD + TTL / 3)
  }

  lemma RenewalsAreUnderATtlApart(rounds: seq<Round>, k: nat)
    requires Punctual(rounds) && 0 < k < |rounds|
    ensures rounds[k].handled < rounds[k - 1].handled + TTL
  {
    if k > 1 {
      assert rounds[k - 2].done + PERIOD <= rounds[k - 1].sent;
    }
  }

  /** The server saw these rounds: round `k` is request `where[k]` of its run. */
  ghost predicate Seen(es: seq<Event>, rounds: seq<Round>, where: seq<nat>) {
    && |where| == |rounds| > 0
    && (forall k :: 0 <= k < |where| ==> where[k] < |es| && es[where[k]].at == rounds[k].handled)
    && (forall k :: 0 < k < |where| ==>
          && where[k - 1] < where[k]
          && (es[where[k]].req == Renew(es[where[0]].minted)
              || (k == |where| - 1 && es[where[k]].req == Release(es[where[0]].minted))))
  }

  lemma {:induction false} TouchesAreInThePast(es: seq<Event>, i: nat, m: nat)
    requires Timed(es) && i < m <= |es|
    ensures LastTouch(es, i, m) <= es[m - 1].at
  {
    if m == i + 1 {
    } else {
      TouchesAreInThePast(es, i, m - 1);
      assert es[m - 2].at <= es[m - 1].at;
    }
  }

  lemma {:induction false} TouchesOnlyAdvance(es: seq<Event>, i: nat, m: nat, n: nat)
    requires Timed(es) && i < m <= n <= |es|
    ensures LastTouch(es, i, m) <= LastTouch(es, i, n)
  {
    if m == n {
    } else {
      TouchesOnlyAdvance(es, i, m, n - 1);
      TouchesAreInThePast(es, i, n - 1);
      assert es[n - 2].at <= es[n - 1].at;
    }
  }

  lemma {:induction false} RoundBefore(where: seq<nat>, m: nat) returns (k: nat)
    requires |where| > 1 && where[0] < m <= where[|where| - 1]
    requires forall k :: 0 < k < |where| ==> where[k - 1] < where[k]
    ensures 0 < k < |where| && where[k - 1] < m <= where[k]
  {
    if m <= where[1] {
      k := 1;
    } else {
      var rest := where[1..];
      assert forall k :: 0 < k < |rest| ==> rest[k - 1] == where[k] && rest[k] == where[k + 1];
      k := RoundBefore(rest, m);
      k := k + 1;
    }
  }

  lemma {:induction false} PunctualIsNeverStale(es: seq<Event>, rounds: seq<Round>, where: seq<nat>, m: nat)
    requires Timed(es) && Punctual(rounds) && Seen(es, rounds, where)
    requires where[0] < m <= where[|where| - 1]
    ensures es[m].at < LastTouch(es, where[0], m) + TTL
  {
    var i := where[0];
    var k := RoundBefore(where, m);
    RenewalsAreUnderATtlApart(rounds, k);
    var touch := where[k - 1];
    assert LastTouch(es, i, touch + 1) == es[touch].at by {
      if k > 1 {
        RoundsAscend(where, k - 1);
        assert es[touch].req == Renew(es[i].minted);
      }
    }
    RoundsAscend(where, k - 1);
    TouchesOnlyAdvance(es, i, touch + 1, m);
    assert es[m].at <= es[where[k]].at;
  }

  lemma {:induction false} RoundsAscend(where: seq<nat>, k: nat)
    requires k < |where|
    requires forall k :: 0 < k < |where| ==> where[k - 1] < where[k]
    ensures where[0] + k <= where[k]
  {
    if k == 0 {
    } else {
      RoundsAscend(where, k - 1);
    }
  }

  /** A punctual holder never loses the lease: whatever anyone else asks the
      server, none of its renewals is answered Gone and no Acquire is granted
      between its grant and its latest renewal, or its Release. */
  lemma {:induction false} PunctualHolderKeepsTheRig(es: seq<Event>, rounds: seq<Round>, where: seq<nat>, m: nat)
    requires Timed(es) && FreshIds(es) && Punctual(rounds) && Seen(es, rounds, where)
    requires DefaultGrant(es, where[0]) && where[0] < m <= where[|where| - 1]
    requires NotReleased(es, where[0], m)
    ensures Owned(es, where[0], m, es[m].at)
    ensures es[m].req == Renew(es[where[0]].minted) ==> ReplyAt(es, m) == Ok
    ensures es[m].req.Acquire? ==> ReplyAt(es, m).Busy?
  {
    var i := where[0];
    forall x | i < x <= m ensures es[x].at < LastTouch(es, i, x) + TTL {
      PunctualIsNeverStale(es, rounds, where, x);
    }
    TouchedDeadline(es, i, m);
    SlotIsHistory(es, i, m, es[m].at);
  }

  // ---------------------------------------------------------------------
  // Missed renewals.
  // ---------------------------------------------------------------------

  /** A trip round the loop whose Renew never reached the server: woken at
      `woke`, back to sleep at `done` (roundtrip error, failed re-acquire). */
  datatype Miss = Miss(woke: nat, done: nat)

  /** From the instant `start` a good roundtrip ended, the thread sleeps at least
      a period before each miss and before the Renew that arrives at `arrival`. */
  ghost predicate Missed(start: nat, misses: seq<Miss>, arrival: nat)
    decreases |misses|
  {
    if misses == [] then start + PERIOD <= arrival
    else start + PERIOD <= misses[0].woke <= misses[0].done && Missed(misses[0].done, misses[1..], arrival)
  }

  /** Time spent doing anything but the minimum sleeps: wire, timeouts, late wake-ups. */
  function Overhead(start: nat, misses: seq<Miss>, arrival: nat): int
    decreases |misses|
  {
    if misses == [] then arrival - start - PERIOD
    else (misses[0].done - start - PERIOD) + Overhead(misses[0].done, misses[1..], arrival)
  }

  lemma {:induction false} ArrivalAfterMisses(start: nat, misses: seq<Miss>, arrival: nat)
    requires Missed(start, misses, arrival)
    ensures Overhead(start, misses, arrival) >= 0
    ensures arrival == start + (|misses| + 1) * PERIOD + Overhead(start, misses, arrival)
    decreases |misses|
  {
    if misses == [] {
    } else {
      ArrivalAfterMisses(misses[0].done, misses[1..], arrival);
    }
  }

  lemma {:induction false} UntouchedDeadline(es: seq<Event>, i: nat, j: nat, k: nat)
    requires DefaultGrant(es, i) && i <= j < k <= |es| && NotReleased(es, i, k)
    requires forall m :: j < m < k ==> es[m].req != Renew(es[i].minted)
    requires Deadline(es, i, j + 1) == Some(es[j].at + TTL)
    ensures Deadline(es, i, k) == Some(es[j].at + TTL)
  {
    if k == j + 1 {
    } else {
      UntouchedDeadline(es, i, j, k - 1);
    }
  }

  /** Requests `j` and `k` are consecutive contacts of one lease with the server:
      its grant or an acknowledged renewal, then the next Renew to arrive. */
  ghost predicate NextContact(es: seq<Event>, i: nat, j: nat, k: nat) {
    && DefaultGrant(es, i) && i <= j < k < |es| && NotReleased(es, i, k)
    && (j == i || (es[j].req == Renew(es[i].minted) && ReplyAt(es, j) == Ok))
    && es[k].req == Renew(es[i].minted)
    && (forall m :: j < m < k ==> es[m].req != Renew(es[i].minted))
  }

  lemma {:induction false} ContactSetsDeadline(es: seq<Event>, i: nat, j: nat)
    requires Timed(es) && FreshIds(es) && DefaultGrant(es, i) && i <= j < |es|
    requires j == i || (es[j].req == Renew(es[i].minted) && ReplyAt(es, j) == Ok)
    ensures Deadline(es, i, j + 1) == Some(es[j].at + TTL)
  {
    if j > i {
      RenewedIffOwned(es, i, j);
      assert Owned(es, i, j, es[j].at);
    }
  }

  lemma {:induction false} NextContactIsOkIffInTime(es: seq<Event>, i: nat, j: nat, k: nat)
    requires Timed(es) && FreshIds(es) && NextContact(es, i, j, k)
    ensures ReplyAt(es, k) == if es[k].at < es[j].at + TTL then Ok else Gone
  {
    ContactSetsDeadline(es, i, j);
    UntouchedDeadline(es, i, j, k);
    RenewedIffOwned(es, i, k);
  }

  lemma PeriodsInATtl(misses: nat, lost: nat)
    ensures (misses + 1) * PERIOD + lost < TTL <==> misses < 2 && lost < (2 - misses) * PERIOD
  {
  }

  /** Missed-renewal tolerance is exactly one. After `|misses|` misses the next
      Renew to arrive is acknowledged if and only if fewer than two were missed
      and the time lost on top of the sleeps, counted from the server's side of
      the last good contact, is under a third of the ttl for each one left. */
  lemma {:induction false} ToleranceIsOneMiss(es: seq<Event>, i: nat, j: nat, k: nat,
                                              start: nat, misses: seq<Miss>)
    requires Timed(es) && FreshIds(es) && NextContact(es, i, j, k)
    requires es[j].at <= start && Missed(start, misses, es[k].at)
    ensures var lost := (start - es[j].at) + Overhead(start, misses, es[k].at);
            && lost >= 0
            && ReplyAt(es, k) == if |misses| < 2 && lost < (2 - |misses|) * PERIOD then Ok else Gone
  {
    var lost := (start - es[j].at) + Overhead(start, misses, es[k].at);
    ArrivalAfterMisses(start, misses, es[k].at);
    PeriodsInATtl(|misses|, lost);
    NextContactIsOkIffInTime(es, i, j, k);
  }

  /** In particular two consecutive misses lose the lease, however fast the wire. */
  lemma {:induction false} TwoMissesLoseTheRig(es: seq<Event>, i: nat, j: nat, k: nat,
                                               start: nat, misses: seq<Miss>)
    requires Timed(es) && FreshIds(es) && NextContact(es, i, j, k)
    requires es[j].at <= start && Missed(start, misses, es[k].at) && |misses| == 2
    ensures Deadline(es, i, k) == Some(es[j].at + TTL) && es[j].at + TTL <= es[k].at
    ensures ReplyAt(es, k) == Gone
  {
    ToleranceIsOneMiss(es, i, j, k, start, misses);
    ContactSetsDeadline(es, i, j);
    UntouchedDeadline(es, i, j, k);
    ArrivalAfterMisses(start, misses, es[k].at);
    PeriodsInATtl(2, 0);
  }

  /** The smallest such run: granted at 0, misses at exactly 20 s and 40 s on an
      instantaneous wire, and the Renew at 60 s is refused. */
  lemma CoupleOfMissesExample()
    ensures var es := [Event(0, Acquire("a", DEFAULT_TTL_S), 7), Event(TTL, Renew(7), 8)];
            var misses := [Miss(PERIOD, PERIOD), Miss(2 * PERIOD, 2 * PERIOD)];
            && GrantedAt(es, 0)
            && Missed(es[0].at, misses, es[1].at) && Overhead(es[0].at, misses, es[1].at) == 0
            && ReplyAt(es, 1) == Gone
  {
    var es := [Event(0, Acquire("a", DEFAULT_TTL_S), 7), Event(TTL, Renew(7), 8)];
    var misses := [Miss(PERIOD, PERIOD), Miss(2 * PERIOD, 2 * PERIOD)];
    assert misses[1..] == [Miss(2 * PERIOD, 2 * PERIOD)] && misses[1..][1..] == [];
    assert Missed(2 * PERIOD, misses[1..][1..], TTL) && Overhead(2 * PERIOD, misses[1..][1..], TTL) == 0;
    assert Overhead(PERIOD, misses[1..], TTL) == 0;
    assert SlotAt(es, 0) == None;
    assert SlotAt(es, 1) == Some(Held(7, "a", TTL, TTL));
  }
}
