/** The rig daemon's single-slot lease. Expiry is lazy: a lapsed lease is only
    swept out of the slot when the next request is handled. */
module LeaseServer {
  import opened Common

  /** Bounds the server puts on a requested time to live. */
  const MIN_TTL_S: nat := 5
  const MAX_TTL_S: nat := 3600

  datatype Held = Held(id: u64, holder: string, expiresAt: nat, ttl: nat)

  type Slot = Option<Held>

  datatype Request =
    | Acquire(holder: string, ttlS: u32)
    | Renew(id: u64)
    | Release(id: u64)
    | Status

  datatype Reply =
    | Granted(id: u64)
    | Busy(holder: string, expiresInS: u32)
    | Ok
    | Gone
    | StatusIs(current: Option<string>, expiresInS: u32)

  function ClampedTtl(ttlS: u32): nat {
    (if ttlS < MIN_TTL_S then MIN_TTL_S else if ttlS > MAX_TTL_S then MAX_TTL_S else ttlS) * NANOS
  }

  /** Of all the times the server allows, it takes the one nearest to that requested. */
  lemma ClampedIsNearest(ttlS: u32, allowed: nat)
    requires MIN_TTL_S <= allowed <= MAX_TTL_S
    ensures MIN_TTL_S * NANOS <= ClampedTtl(ttlS) <= MAX_TTL_S * NANOS
    ensures var taken := ClampedTtl(ttlS) / NANOS;
            && ClampedTtl(ttlS) == taken * NANOS
            && (if taken >= ttlS then taken - ttlS else ttlS - taken)
               <= (if allowed >= ttlS then allowed - ttlS else ttlS - allowed)
  {
  }

  /** What is left of a slot once a lapsed lease has been swept out of it. */
  function Live(slot: Slot, now: nat): Slot {
    if slot.Some? && slot.value.expiresAt <= now then None else slot
  }

  /** Whole seconds left, cast to 32 bits the way the reply carries them. */
  function SecondsLeft(held: Held, now: nat): u32 {
    ((if held.expiresAt > now then held.expiresAt - now else 0) / NANOS) % 0x1_0000_0000
  }

  /** The answer of a server whose slot holds no lapsed lease. */
  function Decide(slot: Slot, now: nat, req: Request, minted: u64): (Slot, Reply) {
    match req
    case Acquire(holder, ttlS) =>
      if slot.Some? then
        (slot, Busy(slot.value.holder, SecondsLeft(slot.value, now)))
      else
        var ttl := ClampedTtl(ttlS);
        (Some(Held(minted, holder, now + ttl, ttl)), Granted(minted))
    case Renew(id) =>
      if slot.Some? && slot.value.id == id then
        (Some(slot.value.(expiresAt := now + slot.value.ttl)), Ok)
      else
        (slot, Gone)
    case Release(id) =>
      (if slot.Some? && slot.value.id == id then None else slot, Ok)
    case Status =>
      if slot.Some? then
        (slot, StatusIs(Some(slot.value.holder), SecondsLeft(slot.value, now)))
      else
        (slot, StatusIs(None, 0))
  }

  /** The lazy server: sweep, then decide. */
  function Serve(slot: Slot, now: nat, req: Request, minted: u64): (Slot, Reply) {
    Decide(Live(slot, now), now, req, minted)
  }

  /** The `holder()` query: it filters a lapsed lease but leaves it in the slot. */
  function HolderOf(slot: Slot, now: nat): Option<string> {
    if slot.Some? && slot.value.expiresAt > now then Some(slot.value.holder) else None
  }

  /** The daemon's object. `minted` is the next draw from the id supply. */
  class LeaseServer {
    var state: Slot

    constructor ()
      ensures state == None
    {
      state := None;
    }

    method Holder(now: nat) returns (holder: Option<string>)
      ensures holder == HolderOf(state, now)
    {
      if state.Some? && state.value.expiresAt > now {
        return Some(state.value.holder);
      }
      return None;
    }

    method Handle(req: Request, now: nat, minted: u64) returns (reply: Reply)
      modifies this
      ensures (state, reply) == Serve(old(state), now, req, minted)
    {
      if state.Some? && state.value.expiresAt <= now {
        state := None;
      }
      match req {
        case Acquire(holder, ttlS) =>
          if state.Some? {
            reply := Busy(state.value.holder, SecondsLeft(state.value, now));
          } else {
            var ttl := ClampedTtl(ttlS);
            state := Some(Held(minted, holder, now + ttl, ttl));
            reply := Granted(minted);
          }
        case Renew(id) =>
          if state.Some? && state.value.id == id {
            state := Some(state.value.(expiresAt := now + state.value.ttl));
            reply := Ok;
          } else {
            reply := Gone;
          }
        case Release(id) =>
          if state.Some? && state.value.id == id {
            state := None;
          }
          reply := Ok;
        case Status =>
          if state.Some? {
            reply := StatusIs(Some(state.value.holder), SecondsLeft(state.value, now));
          } else {
            reply := StatusIs(None, 0);
          }
      }
    }
  }

  // ---------------------------------------------------------------------
  // Runs: every request the daemon handles, in the order it handles them.
  // ---------------------------------------------------------------------

  datatype Event = Event(at: nat, req: Request, minted: u64)

  ghost predicate Timed(es: seq<Event>) {
    forall i, j :: 0 <= i <= j < |es| ==> es[i].at <= es[j].at
  }

  /** The slot after the first `n` requests. */
  function SlotAt(es: seq<Event>, n: nat): Slot
    requires n <= |es|
  {
    if n == 0 then None
    else Serve(SlotAt(es, n - 1), es[n - 1].at, es[n - 1].req, es[n - 1].minted).0
  }

  function ReplyAt(es: seq<Event>, k: nat): Reply
    requires k < |es|
  {
    Serve(SlotAt(es, k), es[k].at, es[k].req, es[k].minted).1
  }

  predicate GrantedAt(es: seq<Event>, k: nat)
    requires k < |es|
  {
    ReplyAt(es, k).Granted?
  }

  /** Minted ids are fresh: no two grants of a run carry the same one. */
  ghost predicate FreshIds(es: seq<Event>) {
    forall i, j {:trigger GrantedAt(es, i), GrantedAt(es, j)} ::
      0 <= i < j < |es| && GrantedAt(es, i) && GrantedAt(es, j) ==> es[i].minted != es[j].minted
  }

  /** The instant of the last of the first `n` requests. */
  function Clock(es: seq<Event>, n: nat): nat
    requires n <= |es|
  {
    if n == 0 then 0 else es[n - 1].at
  }

  // ---------------------------------------------------------------------
  // Ownership read off the requests alone.
  // ---------------------------------------------------------------------

  /** When the lease granted by request `i` runs out, as far as the first `n`
      requests say: `None` once it has been released. Nothing here looks at the
      slot, and only requests naming this lease's id matter. */
  function Deadline(es: seq<Event>, i: nat, n: nat): Option<nat>
    requires i < n <= |es| && es[i].req.Acquire?
  {
    var ttl := ClampedTtl(es[i].req.ttlS);
    if n == i + 1 then Some(es[i].at + ttl)
    else
      var before := Deadline(es, i, n - 1);
      var e := es[n - 1];
      if before.None? || e.req == Release(es[i].minted) then None
      else if e.req == Renew(es[i].minted) && e.at < before.value then Some(e.at + ttl)
      else before
  }

  ghost predicate Owned(es: seq<Event>, i: nat, n: nat, now: nat)
    requires i < n <= |es|
  {
    GrantedAt(es, i) && Deadline(es, i, n).Some? && now < Deadline(es, i, n).value
  }

  /** The lease request `i` was granted, as the slot would hold it. */
  function LeaseOf(es: seq<Event>, i: nat, expiresAt: nat): Held
    requires i < |es| && es[i].req.Acquire?
  {
    Held(es[i].minted, es[i].req.holder, expiresAt, ClampedTtl(es[i].req.ttlS))
  }

  /** A lease still in the slot after a request that granted nothing was there
      before, unlapsed, and only a Renew of its own can have moved its expiry. */
  lemma StaysInSlot(was: Slot, e: Event)
    ensures var (slot, reply) := Serve(was, e.at, e.req, e.minted);
            slot.Some? && !reply.Granted? ==>
              && was.Some? && e.at < was.value.expiresAt && e.req != Release(was.value.id)
              && slot.value == if e.req == Renew(was.value.id) then was.value.(expiresAt := e.at + was.value.ttl)
                               else was.value
  {
  }

  /** A filled slot holds exactly the lease of some earlier grant, with the
      deadline that the requests alone imply. */
  lemma {:induction false} GrantBehind(es: seq<Event>, n: nat) returns (g: nat)
    requires n <= |es| && SlotAt(es, n).Some?
    ensures g < n && GrantedAt(es, g)
    ensures Deadline(es, g, n) == Some(SlotAt(es, n).value.expiresAt)
    ensures SlotAt(es, n).value == LeaseOf(es, g, SlotAt(es, n).value.expiresAt)
  {
    if GrantedAt(es, n - 1) {
      g := n - 1;
    } else {
      StaysInSlot(SlotAt(es, n - 1), es[n - 1]);
      g := GrantBehind(es, n - 1);
    }
  }

  /** The deadline in the slot is the deadline of the grant whose id it carries. */
  lemma {:induction false} SlotDeadline(es: seq<Event>, i: nat, n: nat)
    requires FreshIds(es) && i < n <= |es| && GrantedAt(es, i)
    requires SlotAt(es, n).Some? && SlotAt(es, n).value.id == es[i].minted
    ensures Deadline(es, i, n) == Some(SlotAt(es, n).value.expiresAt)
    ensures SlotAt(es, n).value == LeaseOf(es, i, SlotAt(es, n).value.expiresAt)
  {
    var g := GrantBehind(es, n);
    assert g == i;
  }

  /** A granted lease whose id is not in the slot has been released or has lapsed. */
  lemma {:induction false} OutOfSlotMeansOver(es: seq<Event>, i: nat, n: nat)
    requires Timed(es) && FreshIds(es) && i < n <= |es| && GrantedAt(es, i) && Deadline(es, i, n).Some?
    requires SlotAt(es, n).None? || SlotAt(es, n).value.id != es[i].minted
    ensures Deadline(es, i, n).value <= es[n - 1].at
  {
    if n == i + 1 {
    } else {
      var was := SlotAt(es, n - 1);
      if was.Some? && was.value.id == es[i].minted {
        SlotDeadline(es, i, n - 1);
      } else {
        OutOfSlotMeansOver(es, i, n - 1);
        assert es[n - 2].at <= es[n - 1].at;
      }
    }
  }

  /** The slot is the ownership history, no more and no less: a lease is live in
      the slot at `now` exactly when its grant is still owned at `now`. */
  lemma {:induction false} SlotIsHistory(es: seq<Event>, i: nat, n: nat, now: nat)
    requires Timed(es) && FreshIds(es) && i < n <= |es| && es[n - 1].at <= now && GrantedAt(es, i)
    ensures Owned(es, i, n, now) <==>
            Live(SlotAt(es, n), now).Some? && Live(SlotAt(es, n), now).value.id == es[i].minted
    ensures Owned(es, i, n, now) ==>
            Live(SlotAt(es, n), now) == Some(LeaseOf(es, i, Deadline(es, i, n).value))
  {
    if SlotAt(es, n).Some? && SlotAt(es, n).value.id == es[i].minted {
      SlotDeadline(es, i, n);
    } else if Deadline(es, i, n).Some? {
      OutOfSlotMeansOver(es, i, n);
    }
  }

  /** Ownership periods never overlap. */
  lemma {:induction false} AtMostOneOwner(es: seq<Event>, i: nat, j: nat, n: nat, now: nat)
    requires Timed(es) && FreshIds(es) && i < n <= |es| && j < n && es[n - 1].at <= now
    requires Owned(es, i, n, now) && Owned(es, j, n, now)
    ensures i == j
  {
    SlotIsHistory(es, i, n, now);
    SlotIsHistory(es, j, n, now);
  }

  /** The live slot is empty exactly when no earlier grant is still owned. */
  lemma {:induction false} FreeIffUnowned(es: seq<Event>, k: nat)
    requires Timed(es) && FreshIds(es) && k < |es|
    ensures Live(SlotAt(es, k), es[k].at).None? <==> forall i :: 0 <= i < k ==> !Owned(es, i, k, es[k].at)
  {
    if Live(SlotAt(es, k), es[k].at).Some? {
      var g := GrantBehind(es, k);
      assert Owned(es, g, k, es[k].at);
    } else {
      forall i | 0 <= i < k ensures !Owned(es, i, k, es[k].at) {
        if GrantedAt(es, i) {
          SlotIsHistory(es, i, k, es[k].at);
        }
      }
    }
  }

  /** An Acquire is granted exactly when every earlier grant has been released
      or has outlived the deadline of its last grant or renewal. */
  lemma {:induction false} GrantedIffAllOver(es: seq<Event>, k: nat)
    requires Timed(es) && FreshIds(es) && k < |es| && es[k].req.Acquire?
    ensures GrantedAt(es, k) <==> forall i :: 0 <= i < k ==> !Owned(es, i, k, es[k].at)
  {
    FreeIffUnowned(es, k);
  }

  /** A Renew carrying a granted id is acknowledged exactly while that grant is owned. */
  lemma {:induction false} RenewedIffOwned(es: seq<Event>, i: nat, k: nat)
    requires Timed(es) && FreshIds(es) && i < k < |es| && GrantedAt(es, i) && es[k].req == Renew(es[i].minted)
    ensures ReplyAt(es, k) == if Owned(es, i, k, es[k].at) then Ok else Gone
  {
    SlotIsHistory(es, i, k, es[k].at);
  }

  /** Every request gets an answer of its own kind, and a Release always the same one,
      whether or not it freed anything. */
  lemma AnswersFitRequests(es: seq<Event>, k: nat)
    requires k < |es|
    ensures match es[k].req
            case Acquire(_, _) => ReplyAt(es, k) == Granted(es[k].minted) || ReplyAt(es, k).Busy?
            case Renew(_) => ReplyAt(es, k) in {Ok, Gone}
            case Release(_) => ReplyAt(es, k) == Ok
            case Status => ReplyAt(es, k).StatusIs?
  {
  }

  /** A lease that is over stays over. */
  lemma {:induction false} OverIsForever(es: seq<Event>, i: nat, j: nat, k: nat)
    requires Timed(es) && i < j <= k < |es| && GrantedAt(es, i) && !Owned(es, i, j, es[j].at)
    ensures !Owned(es, i, k, es[k].at)
  {
    if j == k {
    } else {
      OverIsForever(es, i, j, k - 1);
      assert es[k - 1].at <= es[k].at;
    }
  }

  /** The renew replies for one lease are a run of Ok followed only by Gone. */
  lemma {:induction false} RenewsAreOkThenGone(es: seq<Event>, i: nat, j: nat, k: nat)
    requires Timed(es) && FreshIds(es) && i < j < k < |es| && GrantedAt(es, i)
    requires es[j].req == es[k].req == Renew(es[i].minted)
    ensures ReplyAt(es, j) in {Ok, Gone} && ReplyAt(es, k) in {Ok, Gone}
    ensures ReplyAt(es, j) == Gone ==> ReplyAt(es, k) == Gone
  {
    RenewedIffOwned(es, i, j);
    RenewedIffOwned(es, i, k);
    if !Owned(es, i, j, es[j].at) {
      OverIsForever(es, i, j, k);
    }
  }

  // ---------------------------------------------------------------------
  // Lazy expiry refines a server with an exact timer.
  // ---------------------------------------------------------------------

  /** A server with a timer: the clock moves one instant at a time and the slot
      is emptied at the very instant its lease expires. */
  function Wait(slot: Slot, now: nat, until: nat): Slot
    decreases until - now
  {
    if until <= now then slot
    else Wait(if slot.Some? && slot.value.expiresAt == now + 1 then None else slot, now + 1, until)
  }

  /** The timer server's slot after `n` requests. It never compares clocks when
      it answers: whatever is in the slot is current. */
  function TimerSlotAt(es: seq<Event>, n: nat): Slot
    requires n <= |es|
  {
    if n == 0 then None
    else Decide(Wait(TimerSlotAt(es, n - 1), Clock(es, n - 1), es[n - 1].at),
                es[n - 1].at, es[n - 1].req, es[n - 1].minted).0
  }

  function TimerReplyAt(es: seq<Event>, k: nat): Reply
    requires k < |es|
  {
    Decide(Wait(TimerSlotAt(es, k), Clock(es, k), es[k].at), es[k].at, es[k].req, es[k].minted).1
  }

  lemma {:induction false} WaitSweeps(slot: Slot, now: nat, until: nat)
    requires slot.Some? ==> slot.value.expiresAt > now
    requires now <= until
    ensures Wait(slot, now, until) == Live(slot, until)
    decreases until - now
  {
    if now == until {
    } else {
      WaitSweeps(if slot.Some? && slot.value.expiresAt == now + 1 then None else slot, now + 1, until);
      if slot.Some? && slot.value.expiresAt == now + 1 {
        assert Wait(slot, now, until) == Wait(None, now + 1, until);
      }
    }
  }

  /** A lease in the slot right after a request has time left to run, and no more
      than the server's longest time to live. */
  lemma {:induction false} LeaseIsBounded(es: seq<Event>, n: nat)
    requires n <= |es|
    ensures SlotAt(es, n).Some? ==>
              && Clock(es, n) < SlotAt(es, n).value.expiresAt
              && MIN_TTL_S * NANOS <= SlotAt(es, n).value.ttl <= MAX_TTL_S * NANOS
    ensures Timed(es) && SlotAt(es, n).Some? ==>
              SlotAt(es, n).value.expiresAt <= Clock(es, n) + SlotAt(es, n).value.ttl
  {
    if n == 0 {
    } else {
      LeaseIsBounded(es, n - 1);
    }
  }

  /** For every run, the lazy server answers every request, and the `holder()`
      query at every later instant, exactly as the timer server does. */
  lemma {:induction false} LazyRefinesTimer(es: seq<Event>, n: nat, now: nat)
    requires Timed(es) && n <= |es| && Clock(es, n) <= now
    ensures SlotAt(es, n) == TimerSlotAt(es, n)
    ensures n < |es| ==> ReplyAt(es, n) == TimerReplyAt(es, n)
    ensures var timer := Wait(TimerSlotAt(es, n), Clock(es, n), now);
            HolderOf(SlotAt(es, n), now) == if timer.Some? then Some(timer.value.holder) else None
  {
    if n == 0 {
    } else {
      LazyRefinesTimer(es, n - 1, es[n - 1].at);
      LeaseIsBounded(es, n - 1);
      WaitSweeps(SlotAt(es, n - 1), Clock(es, n - 1), es[n - 1].at);
    }
    LeaseIsBounded(es, n);
    WaitSweeps(SlotAt(es, n), Clock(es, n), now);
    if n < |es| {
      WaitSweeps(SlotAt(es, n), Clock(es, n), es[n].at);
    }
  }

  // ---------------------------------------------------------------------
  // Requests that come to nothing leave no trace.
  // ---------------------------------------------------------------------

  /** Status, a refused Acquire, a refused Renew, and a Release that matches
      nothing. */
  predicate Ineffective(es: seq<Event>, k: nat)
    requires k < |es|
  {
    match es[k].req
    case Acquire(_, _) => ReplyAt(es, k).Busy?
    case Renew(_) => ReplyAt(es, k).Gone?
    case Release(id) =>
      var slot := Live(SlotAt(es, k), es[k].at);
      slot.None? || slot.value.id != id
    case Status => true
  }

  /** The first `n` requests without the dropped ones, and likewise their replies. */
  function Thinned(es: seq<Event>, drop: seq<bool>, n: nat): (kept: seq<Event>)
    requires n <= |es| == |drop|
  {
    if n == 0 then []
    else if drop[n - 1] then Thinned(es, drop, n - 1)
    else Thinned(es, drop, n - 1) + [es[n - 1]]
  }

  function ThinnedReplies(es: seq<Event>, drop: seq<bool>, n: nat): (kept: seq<Reply>)
    requires n <= |es| == |drop|
  {
    if n == 0 then []
    else if drop[n - 1] then ThinnedReplies(es, drop, n - 1)
    else ThinnedReplies(es, drop, n - 1) + [ReplyAt(es, n - 1)]
  }

  /** All the replies of the first `n` requests. */
  function Replies(es: seq<Event>, n: nat): (rs: seq<Reply>)
    requires n <= |es|
  {
    if n == 0 then [] else Replies(es, n - 1) + [ReplyAt(es, n - 1)]
  }

  lemma {:induction false} AppendKeepsPrefix(es: seq<Event>, e: Event, n: nat)
    requires n <= |es|
    ensures SlotAt(es + [e], n) == SlotAt(es, n)
    ensures Replies(es + [e], n) == Replies(es, n)
  {
    if n == 0 {
    } else {
      AppendKeepsPrefix(es, e, n - 1);
      assert (es + [e])[n - 1] == es[n - 1];
    }
  }

  lemma {:induction false} DroppingServesAlike(kept: seq<Event>, es: seq<Event>, k: nat, now: nat)
    requires k < |es| && Ineffective(es, k) && es[k].at <= now
    requires Live(SlotAt(kept, |kept|), es[k].at) == Live(SlotAt(es, k), es[k].at)
    ensures Live(SlotAt(kept, |kept|), now) == Live(SlotAt(es, k + 1), now)
  {
    assert SlotAt(es, k + 1) == Live(SlotAt(es, k), es[k].at);
  }

  lemma {:induction false} AppendServesAlike(kept: seq<Event>, es: seq<Event>, k: nat)
    requires k < |es| && Live(SlotAt(kept, |kept|), es[k].at) == Live(SlotAt(es, k), es[k].at)
    ensures SlotAt(kept + [es[k]], |kept| + 1) == SlotAt(es, k + 1)
    ensures Replies(kept + [es[k]], |kept| + 1) == Replies(kept, |kept|) + [ReplyAt(es, k)]
  {
    AppendKeepsPrefix(kept, es[k], |kept|);
    assert (kept + [es[k]])[|kept|] == es[k];
  }

  /** Dropping any set of ineffective requests from any run changes no remaining
      reply, and no later owner or expiry. */
  lemma {:induction false} IneffectiveRequestsAreErasable(es: seq<Event>, drop: seq<bool>, n: nat, now: nat)
    requires Timed(es) && n <= |es| == |drop| && Clock(es, n) <= now
    requires forall k :: 0 <= k < n && drop[k] ==> Ineffective(es, k)
    ensures var kept := Thinned(es, drop, n);
            && Replies(kept, |kept|) == ThinnedReplies(es, drop, n)
            && Live(SlotAt(kept, |kept|), now) == Live(SlotAt(es, n), now)
  {
    if n == 0 {
    } else {
      var e, kept := es[n - 1], Thinned(es, drop, n - 1);
      assert Replies(kept, |kept|) == ThinnedReplies(es, drop, n - 1)
             && Live(SlotAt(kept, |kept|), e.at) == Live(SlotAt(es, n - 1), e.at) by {
        IneffectiveRequestsAreErasable(es, drop, n - 1, e.at);
      }
      if drop[n - 1] {
        DroppingServesAlike(kept, es, n - 1, now);
      } else {
        AppendServesAlike(kept, es, n - 1);
        assert Thinned(es, drop, n) == kept + [e];
        assert |kept + [e]| == |kept| + 1;
      }
    }
  }

  // ---------------------------------------------------------------------
  // What "expires in n seconds" promises a contender.
  // ---------------------------------------------------------------------

  /** For a lease no server hands out more than the longest ttl of, the reported
      seconds are the floor of the true remaining time and the cast loses nothing. */
  lemma SecondsLeftAreExact(held: Held, now: nat)
    requires now < held.expiresAt <= now + MAX_TTL_S * NANOS
    ensures now + SecondsLeft(held, now) * NANOS <= held.expiresAt < now + (SecondsLeft(held, now) + 1) * NANOS
    ensures SecondsLeft(held, now) <= MAX_TTL_S
  {
  }

  lemma {:induction false} LiveLeaseIsBounded(es: seq<Event>, k: nat)
    requires Timed(es) && k < |es| && Live(SlotAt(es, k), es[k].at).Some?
    ensures es[k].at < SlotAt(es, k).value.expiresAt <= es[k].at + MAX_TTL_S * NANOS
  {
    LeaseIsBounded(es, k);
  }

  /** The seconds a contender is told are exact, and never exceed the longest ttl. */
  lemma {:induction false} BusySecondsAreExact(es: seq<Event>, k: nat)
    requires Timed(es) && k < |es| && ReplyAt(es, k).Busy?
    ensures SlotAt(es, k).Some? && ReplyAt(es, k).expiresInS <= MAX_TTL_S
    ensures var s := ReplyAt(es, k).expiresInS;
            es[k].at + s * NANOS <= SlotAt(es, k).value.expiresAt < es[k].at + (s + 1) * NANOS
  {
    LiveLeaseIsBounded(es, k);
    SecondsLeftAreExact(SlotAt(es, k).value, es[k].at);
  }

  /** Busy and Status name the owner the history implies, and the whole seconds its
      deadline leaves. */
  lemma {:induction false} AnswersNameTheOwner(es: seq<Event>, i: nat, k: nat)
    requires Timed(es) && FreshIds(es) && i < k < |es| && Owned(es, i, k, es[k].at)
    ensures var left := SecondsLeft(LeaseOf(es, i, Deadline(es, i, k).value), es[k].at);
            && es[k].at + left * NANOS <= Deadline(es, i, k).value < es[k].at + (left + 1) * NANOS
            && (es[k].req.Acquire? ==> ReplyAt(es, k) == Busy(es[i].req.holder, left))
            && (es[k].req.Status? ==> ReplyAt(es, k) == StatusIs(Some(es[i].req.holder), left))
  {
    SlotIsHistory(es, i, k, es[k].at);
    LiveLeaseIsBounded(es, k);
    SecondsLeftAreExact(LeaseOf(es, i, Deadline(es, i, k).value), es[k].at);
  }

  /** Status says the rig is free exactly when nobody owns it. */
  lemma {:induction false} StatusFreeIffUnowned(es: seq<Event>, k: nat)
    requires Timed(es) && FreshIds(es) && k < |es| && es[k].req.Status?
    ensures ReplyAt(es, k) == StatusIs(None, 0) <==> forall i :: 0 <= i < k ==> !Owned(es, i, k, es[k].at)
  {
    FreeIffUnowned(es, k);
  }

  /** While nobody is granted or renewed, the slot's expiry stands still. */
  lemma {:induction false} ExpiryStandsStill(es: seq<Event>, j: nat, k: nat)
    requires j <= k <= |es|
    requires forall m :: j <= m < k ==> !GrantedAt(es, m) && !(es[m].req.Renew? && ReplyAt(es, m) == Ok)
    ensures SlotAt(es, k) == None || SlotAt(es, k) == SlotAt(es, j)
  {
    if j == k {
    } else {
      ExpiryStandsStill(es, j, k - 1);
    }
  }

  /** A contender told "expires in s" who asks again s + 1 seconds later is granted,
      unless someone renewed or acquired meanwhile. */
  lemma {:induction false} ToldToWaitThenGranted(es: seq<Event>, j: nat, k: nat)
    requires Timed(es) && j < k < |es| && ReplyAt(es, j).Busy? && es[k].req.Acquire?
    requires es[k].at >= es[j].at + (ReplyAt(es, j).expiresInS + 1) * NANOS
    requires forall m :: j < m < k ==> !GrantedAt(es, m) && !(es[m].req.Renew? && ReplyAt(es, m) == Ok)
    ensures GrantedAt(es, k)
  {
    BusySecondsAreExact(es, j);
    ExpiryStandsStill(es, j, k);
  }
}
