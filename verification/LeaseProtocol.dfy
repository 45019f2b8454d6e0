/** Many machines contending for one lease over FIFO streams that may delay a
    message forever. A broken stream is one on which nothing more happens, so
    loss needs no step of its own; a roundtrip may fail at any point. */
module LeaseProtocol {
  import opened Common
  import opened LeaseServer
  import opened LeaseTiming

  /** A request frame and the instant its client wrote it. */
  datatype Sent = Sent(req: Request, at: nat)

  /** One connection. The server has served the first `|replies|` requests and
      the client has read the first `read` replies. */
  datatype Stream = Stream(client: nat, requests: seq<Sent>, replies: seq<Reply>, read: nat)

  /** The renew thread's variables: the stream and id it swaps only together, the
      index of the last positive reply it read on that stream, and the number of
      roundtrips that timed out there after the request was written. */
  datatype Lease = Lease(stream: nat, id: u64, proof: nat, timeouts: nat)

  /** Where a client is between two I/O operations. */
  datatype Client =
    | Idle
    | Trying(stream: nat)                       // acquire loop, about to ask
    | Acquiring(stream: nat)                    // acquire loop, waiting for the reply
    | Holding(lease: Lease)                     // renew loop, asleep
    | Renewing(lease: Lease)                    // renew loop, waiting for the reply
    | Reconnecting(lease: Lease)                // inside re-acquire, not connected yet
    | Reacquiring(lease: Lease, spare: nat)     // inside re-acquire, waiting for the reply
    | Stopped

  datatype State = State(
    now: nat,
    slot: Slot,
    streams: seq<Stream>,
    clients: seq<Client>,
    owner: map<u64, nat>,                       // every id ever minted, and the stream it was granted on
    released: set<u64>)                         // ids for which a Release has been written

  datatype Step =
    | Tick(until: nat)
    | ServeNext(stream: nat, minted: u64)
    | Observe                                   // somebody's Status request is served
    | Connect(client: nat)
    | SendAcquire(client: nat, holder: string)
    | ReadAcquire(client: nat, expired: bool)   // `expired`: the acquire deadline has passed
    | SendRenew(client: nat)
    | RenewNotWritten(client: nat)
    | ReadRenew(client: nat)
    | RenewTimesOut(client: nat)
    | SendReacquire(client: nat, holder: string)
    | ReadReacquire(client: nat)
    | ReacquireFails(client: nat)
    | SendRelease(client: nat)
    | Quit(client: nat)                         // roundtrip error while acquiring, or process death

  predicate InLoop(c: Client) {
    c.Holding? || c.Renewing? || c.Reconnecting? || c.Reacquiring?
  }

  predicate Unserved(st: State, s: nat) {
    s < |st.streams| && |st.streams[s].replies| < |st.streams[s].requests|
  }

  predicate Readable(st: State, s: nat) {
    s < |st.streams| && st.streams[s].read < |st.streams[s].replies|
  }

  function NextReply(st: State, s: nat): Reply
    requires Readable(st, s)
  {
    st.streams[s].replies[st.streams[s].read]
  }

  function Write(st: State, s: nat, req: Request): State
    requires s < |st.streams|
  {
    st.(streams := st.streams[s := st.streams[s].(requests := st.streams[s].requests + [Sent(req, st.now)])])
  }

  function Consume(st: State, s: nat): State
    requires s < |st.streams|
  {
    st.(streams := st.streams[s := st.streams[s].(read := st.streams[s].read + 1)])
  }

  function Open(st: State, c: nat): State {
    st.(streams := st.streams + [Stream(c, [], [], 0)])
  }

  function Go(st: State, c: nat, to: Client): State
    requires c < |st.clients|
  {
    st.(clients := st.clients[c := to])
  }

  predicate Enabled(st: State, step: Step) {
    match step
    case Tick(until) => st.now <= until
    case ServeNext(s, minted) => Unserved(st, s) && minted !in st.owner
    case Observe => true
    case _ =>
      && step.client < |st.clients|
      && var c := st.clients[step.client];
         match step
         case Connect(_) => c.Idle?
         case SendAcquire(_, _) => c.Trying? && c.stream < |st.streams|
         case ReadAcquire(_, _) => c.Acquiring? && Readable(st, c.stream)
         case SendRenew(_) => c.Holding? && c.lease.stream < |st.streams|
         case RenewNotWritten(_) => c.Holding?
         case ReadRenew(_) => c.Renewing? && Readable(st, c.lease.stream)
         case RenewTimesOut(_) => c.Renewing?
         case SendReacquire(_, _) => c.Reconnecting?
         case ReadReacquire(_) => c.Reacquiring? && Readable(st, c.spare)
         case ReacquireFails(_) => c.Reconnecting? || c.Reacquiring?
         case SendRelease(_) => c.Holding? && c.lease.stream < |st.streams|
         case _ => c.Trying? || c.Acquiring? || InLoop(c)
  }

  /** The server takes the next request of stream `s`. */
  function Served(st: State, s: nat, minted: u64): State
    requires Unserved(st, s)
  {
    var stream := st.streams[s];
    var (slot, reply) := Serve(st.slot, st.now, stream.requests[|stream.replies|].req, minted);
    st.(slot := slot,
        streams := st.streams[s := stream.(replies := stream.replies + [reply])],
        owner := if reply.Granted? then st.owner[minted := s] else st.owner)
  }

  function Next(st: State, step: Step): State
    requires Enabled(st, step)
  {
    match step
    case Tick(until) => st.(now := until)
    case ServeNext(s, minted) => Served(st, s, minted)
    case Observe => st.(slot := Serve(st.slot, st.now, Status, 0).0)
    case _ => ClientNext(st, step)
  }

  function ClientNext(st: State, step: Step): State
    requires Enabled(st, step) && !step.Tick? && !step.ServeNext? && !step.Observe?
  {
    var i := step.client;
    var c := st.clients[i];
    match step
    case Connect(_) => Go(Open(st, i), i, Trying(|st.streams|))
    case SendAcquire(_, holder) => Go(Write(st, c.stream, Acquire(holder, DEFAULT_TTL_S)), i, Acquiring(c.stream))
    case ReadAcquire(_, expired) =>
      Go(Consume(st, c.stream), i,
         match NextReply(st, c.stream)
         case Granted(id) => Holding(Lease(c.stream, id, st.streams[c.stream].read, 0))
         case Busy(_, _) => if expired then Stopped else Trying(c.stream)
         case _ => Stopped)
    case SendRenew(_) => Go(Write(st, c.lease.stream, Renew(c.lease.id)), i, Renewing(c.lease))
    case RenewNotWritten(_) => Go(st, i, Reconnecting(c.lease))
    case ReadRenew(_) =>
      Go(Consume(st, c.lease.stream), i,
         match NextReply(st, c.lease.stream)
         case Ok => Holding(c.lease.(proof := st.streams[c.lease.stream].read))
         case Gone => Reconnecting(c.lease)
         case _ => Holding(c.lease))
    case RenewTimesOut(_) => Go(st, i, Reconnecting(c.lease.(timeouts := c.lease.timeouts + 1)))
    case SendReacquire(_, holder) =>
      Go(Write(Open(st, i), |st.streams|, Acquire(holder, DEFAULT_TTL_S)), i, Reacquiring(c.lease, |st.streams|))
    case ReadReacquire(_) =>
      Go(Consume(st, c.spare), i,
         match NextReply(st, c.spare)
         case Granted(id) => Holding(Lease(c.spare, id, st.streams[c.spare].read, 0))
         case _ => Holding(c.lease))
    case ReacquireFails(_) => Go(st, i, Holding(c.lease))
    case SendRelease(_) =>
      Go(Write(st, c.lease.stream, Release(c.lease.id)), i, Stopped).(released := st.released + {c.lease.id})
    case _ => Go(st, i, Stopped)
  }

  predicate Init(st: State) {
    && st.slot.None? && st.streams == [] && st.owner == map[] && st.released == {}
    && forall i :: 0 <= i < |st.clients| ==> st.clients[i].Idle?
  }

  // ---------------------------------------------------------------------
  // The invariant.
  // ---------------------------------------------------------------------

  /** A positive reply to a request written at `at` still counts for something:
      the server holds the rig for this id at least until `at` plus the ttl,
      unless that has passed or the lease has been given up. */
  predicate Backed(st: State, id: u64, at: nat) {
    || id in st.released
    || at + TTL <= st.now
    || (st.slot.Some? && st.slot.value.id == id && at + TTL <= st.slot.value.expiresAt)
  }

  predicate GrantedOn(st: State, id: u64, s: nat) {
    id in st.owner && st.owner[id] == s
  }

  predicate SentOk(st: State, s: nat, m: Sent) {
    && m.at <= st.now
    && match m.req
       case Acquire(_, ttlS) => ttlS == DEFAULT_TTL_S
       case Renew(id) => GrantedOn(st, id, s)
       case Release(id) => GrantedOn(st, id, s) && id in st.released
       case Status => false
  }

  predicate ReplyOk(st: State, s: nat, m: Sent, reply: Reply) {
    match reply
    case Granted(id) => m.req.Acquire? && GrantedOn(st, id, s) && Backed(st, id, m.at)
    case Busy(_, _) => m.req.Acquire?
    case Ok => m.req.Release? || (m.req.Renew? && Backed(st, m.req.id, m.at))
    case Gone => m.req.Renew?
    case StatusIs(_, _) => false
  }

  ghost predicate StreamOk(st: State, s: nat)
    requires s < |st.streams|
  {
    var x := st.streams[s];
    && x.read <= |x.replies| <= |x.requests|
    && (forall k :: 0 <= k < |x.requests| ==> SentOk(st, s, x.requests[k]))
    && (forall k :: 0 <= k < |x.replies| ==> ReplyOk(st, s, x.requests[k], x.replies[k]))
  }

  /** Reply `proof` of the lease's stream is positive and about the lease's id. */
  predicate Proves(x: Stream, lease: Lease) {
    && lease.proof < x.read <= |x.replies| <= |x.requests|
    && (|| x.replies[lease.proof] == Granted(lease.id)
        || (x.replies[lease.proof] == Ok && x.requests[lease.proof].req == Renew(lease.id)))
  }

  ghost predicate LeaseOk(st: State, c: nat, lease: Lease, awaited: nat) {
    && lease.stream < |st.streams| && GrantedOn(st, lease.id, lease.stream)
    && var x := st.streams[lease.stream];
       && x.client == c && Proves(x, lease)
       && |x.requests| == x.read + lease.timeouts + awaited
       && forall k :: x.read <= k < |x.requests| ==> x.requests[k].req == Renew(lease.id)
  }

  /** A stream of client `c` whose every request has been answered and read,
      except for one last Acquire if `awaited`. */
  predicate Asking(st: State, c: nat, s: nat, awaited: bool) {
    && s < |st.streams| && st.streams[s].client == c
    && |st.streams[s].requests| == st.streams[s].read + (if awaited then 1 else 0)
    && (awaited ==> st.streams[s].requests[st.streams[s].read].req.Acquire?)
  }

  ghost predicate ClientOk(st: State, c: nat)
    requires c < |st.clients|
  {
    match st.clients[c]
    case Trying(s) => Asking(st, c, s, false)
    case Acquiring(s) => Asking(st, c, s, true)
    case Holding(lease) => LeaseOk(st, c, lease, 0)
    case Renewing(lease) => LeaseOk(st, c, lease, 1)
    case Reconnecting(lease) => LeaseOk(st, c, lease, 0)
    case Reacquiring(lease, s) => LeaseOk(st, c, lease, 0) && Asking(st, c, s, true)
    case _ => true
  }

  ghost predicate SlotOk(st: State) {
    st.slot.Some? ==> st.slot.value.id in st.owner && st.slot.value.ttl == TTL
  }

  /** A lease is only ever given up by a client that has stopped for good. */
  predicate GivenUp(st: State, id: u64) {
    && id in st.owner && st.owner[id] < |st.streams|
    && st.streams[st.owner[id]].client < |st.clients| && st.clients[st.streams[st.owner[id]].client].Stopped?
  }

  ghost predicate Inv(st: State) {
    && SlotOk(st)
    && (forall id :: id in st.released ==> GivenUp(st, id))
    && (forall s :: 0 <= s < |st.streams| ==> StreamOk(st, s))
    && (forall c :: 0 <= c < |st.clients| ==> ClientOk(st, c))
  }

  /** Steps that only move the clock and the slot, and append replies. */
  ghost predicate ServerSide(st: State, to: State) {
    && st.now <= to.now && to.clients == st.clients && to.released == st.released && |to.streams| == |st.streams|
    && (forall id :: id in st.owner ==> id in to.owner && to.owner[id] == st.owner[id])
    && (forall s :: 0 <= s < |st.streams| ==>
          && to.streams[s].(replies := []) == st.streams[s].(replies := [])
          && st.streams[s].replies <= to.streams[s].replies)
  }

  lemma ServerSideKeepsClient(st: State, to: State, c: nat)
    requires ServerSide(st, to) && c < |st.clients| && ClientOk(st, c)
    requires forall s :: 0 <= s < |st.streams| ==> StreamOk(st, s) && StreamOk(to, s)
    ensures ClientOk(to, c)
  {
    if InLoop(st.clients[c]) {
      var s := st.clients[c].lease.stream;
      assert to.streams[s].(replies := []) == st.streams[s].(replies := []);
      assert StreamOk(to, s);
    }
  }

  /** Serving one request keeps every standing promise. */
  lemma BackingKept(st: State, s: nat, minted: u64, id: u64, at: nat)
    requires SlotOk(st) && Unserved(st, s) && StreamOk(st, s) && minted !in st.owner
    requires at <= st.now && id in st.owner && Backed(st, id, at)
    ensures Backed(Served(st, s, minted), id, at)
  {
  }

  lemma ServedReplyOk(st: State, s: nat, minted: u64)
    requires SlotOk(st) && Unserved(st, s) && StreamOk(st, s) && minted !in st.owner
    ensures var to := Served(st, s, minted); var n := |st.streams[s].replies|;
            SlotOk(to) && ReplyOk(to, s, to.streams[s].requests[n], to.streams[s].replies[n])
  {
  }

  lemma ServedKeepsStream(st: State, s: nat, minted: u64, x: nat)
    requires Inv(st) && Unserved(st, s) && minted !in st.owner && x < |st.streams|
    ensures StreamOk(Served(st, s, minted), x)
  {
    var to := Served(st, s, minted);
    ServedReplyOk(st, s, minted);
    var was, now := st.streams[x], to.streams[x];
    assert StreamOk(st, x) && StreamOk(st, s);
    forall k | 0 <= k < |now.requests| ensures SentOk(to, x, now.requests[k]) {
      assert SentOk(st, x, was.requests[k]);
    }
    forall k | 0 <= k < |was.replies| ensures ReplyOk(to, x, was.requests[k], was.replies[k]) {
      var m := was.requests[k];
      assert SentOk(st, x, m) && ReplyOk(st, x, m, was.replies[k]);
      match was.replies[k] {
        case Granted(id) => BackingKept(st, s, minted, id, m.at);
        case Ok => if m.req.Renew? { BackingKept(st, s, minted, m.req.id, m.at); }
        case _ =>
      }
    }
  }

  lemma ServedKeepsInv(st: State, s: nat, minted: u64)
    requires Inv(st) && Unserved(st, s) && minted !in st.owner
    ensures Inv(Served(st, s, minted))
  {
    var to := Served(st, s, minted);
    ServedReplyOk(st, s, minted);
    forall x | 0 <= x < |to.streams| ensures StreamOk(to, x) {
      ServedKeepsStream(st, s, minted, x);
    }
    forall c | 0 <= c < |to.clients| ensures ClientOk(to, c) {
      ServerSideKeepsClient(st, to, c);
    }
    forall id | id in to.released ensures GivenUp(to, id) {
      assert GivenUp(st, id);
    }
  }

  lemma ClockKeepsInv(st: State, to: State)
    requires Inv(st) && st.now <= to.now && to == st.(now := to.now, slot := to.slot)
    requires to.slot == st.slot || to.slot == Live(st.slot, to.now)
    ensures Inv(to)
  {
    forall s | 0 <= s < |to.streams| ensures StreamOk(to, s) {
      var x := st.streams[s];
      assert StreamOk(st, s);
      forall k | 0 <= k < |x.requests| ensures SentOk(to, s, x.requests[k]) {
        assert SentOk(st, s, x.requests[k]);
      }
      forall k | 0 <= k < |x.replies| ensures ReplyOk(to, s, x.requests[k], x.replies[k]) {
        assert ReplyOk(st, s, x.requests[k], x.replies[k]);
      }
    }
    forall c | 0 <= c < |to.clients| ensures ClientOk(to, c) {
      ServerSideKeepsClient(st, to, c);
    }
    forall id | id in to.released ensures GivenUp(to, id) {
      assert GivenUp(st, id);
    }
  }

  /** A step of client `c` that touches only its own stream `t`. */
  ghost predicate ClientSide(st: State, to: State, c: nat, t: nat) {
    && c < |st.clients| == |to.clients| && t < |to.streams|
    && to.now == st.now && to.slot == st.slot && to.owner == st.owner
    && st.released <= to.released && (st.clients[c].Stopped? ==> to.clients[c].Stopped?)
    && |st.streams| <= |to.streams| && (|to.streams| == |st.streams| || |to.streams| == t + 1 == |st.streams| + 1)
    && to.streams[t].client == c && (t < |st.streams| ==> st.streams[t].client == c)
    && (forall s :: 0 <= s < |st.streams| && s != t ==> to.streams[s] == st.streams[s])
    && (forall d :: 0 <= d < |st.clients| && d != c ==> to.clients[d] == st.clients[d])
  }

  lemma ClientSideKeepsStream(st: State, to: State, c: nat, t: nat, s: nat)
    requires ClientSide(st, to, c, t) && s < |st.streams| && s != t && StreamOk(st, s)
    ensures StreamOk(to, s)
  {
  }

  lemma ClientSideKeepsOthers(st: State, to: State, c: nat, t: nat, d: nat)
    requires ClientSide(st, to, c, t) && d < |st.clients| && d != c && ClientOk(st, d)
    ensures ClientOk(to, d)
  {
  }

  lemma ClientSideKeepsInv(st: State, to: State, c: nat, t: nat)
    requires Inv(st) && ClientSide(st, to, c, t) && StreamOk(to, t) && ClientOk(to, c)
    requires forall id :: id in to.released && id !in st.released ==> GivenUp(to, id)
    ensures Inv(to)
  {
    forall id | id in to.released ensures GivenUp(to, id) {
      if id in st.released {
        assert GivenUp(st, id);
      }
    }
    forall s | 0 <= s < |to.streams| ensures StreamOk(to, s) {
      if s != t {
        ClientSideKeepsStream(st, to, c, t, s);
      }
    }
    forall d | 0 <= d < |to.clients| ensures ClientOk(to, d) {
      if d != c {
        ClientSideKeepsOthers(st, to, c, t, d);
      }
    }
  }

  /** Writing a request on a stream, reading a reply from it, or leaving it alone
      keeps the stream in order. */
  lemma TouchKeepsStream(st: State, to: State, s: nat)
    requires s < |st.streams| <= |to.streams| && StreamOk(st, s)
    requires to.now == st.now && to.slot == st.slot && to.owner == st.owner && st.released <= to.released
    requires var x, y := st.streams[s], to.streams[s];
             && y.client == x.client && y.replies == x.replies && y.read <= |y.replies|
             && (y.requests == x.requests || (|y.requests| == |x.requests| + 1 && x.requests <= y.requests
                                              && SentOk(to, s, y.requests[|x.requests|])))
    ensures StreamOk(to, s)
  {
  }

  /** A grant read off a stream that asked for nothing after it makes a lease. */
  lemma GrantReadOk(st: State, c: nat, s: nat)
    requires Asking(st, c, s, true) && Readable(st, s) && StreamOk(st, s)
    ensures var x := st.streams[s]; NextReply(st, s).Granted? ==>
              LeaseOk(Consume(st, s), c, Lease(s, NextReply(st, s).id, x.read, 0), 0)
  {
  }

  /** The reply a renewing client reads next answers one of its own Renews, so it
      is Ok or Gone and the "unexpected reply" arm of the loop is never taken. */
  lemma RenewReplyExpected(st: State, c: nat)
    requires Inv(st) && Enabled(st, ReadRenew(c))
    ensures var l := st.clients[c].lease; var x := st.streams[l.stream];
            && x.read < |x.requests| && x.requests[x.read].req == Renew(l.id)
            && NextReply(st, l.stream) in {Ok, Gone}
  {
    var l := st.clients[c].lease;
    var x := st.streams[l.stream];
    assert ClientOk(st, c) && StreamOk(st, l.stream);
    assert ReplyOk(st, l.stream, x.requests[x.read], x.replies[x.read]);
  }

  lemma AcquiringKeepsInv(st: State, step: Step)
    requires Inv(st) && Enabled(st, step) && (step.Connect? || step.SendAcquire? || step.ReadAcquire?)
    ensures Inv(Next(st, step))
  {
    var to, c := Next(st, step), step.client;
    assert ClientOk(st, c);
    if step.Connect? {
      ClientSideKeepsInv(st, to, c, |st.streams|);
    } else {
      var t := st.clients[c].stream;
      assert StreamOk(st, t);
      if step.ReadAcquire? {
        GrantReadOk(st, c, t);
      }
      TouchKeepsStream(st, to, t);
      ClientSideKeepsInv(st, to, c, t);
    }
  }

  lemma ReadRenewKeepsInv(st: State, c: nat)
    requires Inv(st) && Enabled(st, ReadRenew(c))
    ensures Inv(Next(st, ReadRenew(c)))
  {
    var to, t := Next(st, ReadRenew(c)), st.clients[c].lease.stream;
    assert ClientOk(st, c) && StreamOk(st, t);
    RenewReplyExpected(st, c);
    TouchKeepsStream(st, to, t);
    ClientSideKeepsInv(st, to, c, t);
  }

  lemma RenewingKeepsInv(st: State, step: Step)
    requires Inv(st) && Enabled(st, step)
    requires step.SendRenew? || step.RenewNotWritten? || step.RenewTimesOut?
    ensures Inv(Next(st, step))
  {
    var to, c := Next(st, step), step.client;
    var t := st.clients[c].lease.stream;
    assert ClientOk(st, c) && StreamOk(st, t);
    TouchKeepsStream(st, to, t);
    ClientSideKeepsInv(st, to, c, t);
  }

  lemma ReacquiringKeepsInv(st: State, step: Step)
    requires Inv(st) && Enabled(st, step)
    requires step.SendReacquire? || step.ReadReacquire? || step.ReacquireFails?
    ensures Inv(Next(st, step))
  {
    var to, c := Next(st, step), step.client;
    assert ClientOk(st, c);
    if step.SendReacquire? {
      ClientSideKeepsInv(st, to, c, |st.streams|);
    } else {
      var t := if step.ReadReacquire? then st.clients[c].spare else st.clients[c].lease.stream;
      assert StreamOk(st, t);
      if step.ReadReacquire? {
        GrantReadOk(st, c, t);
      }
      TouchKeepsStream(st, to, t);
      ClientSideKeepsInv(st, to, c, t);
    }
  }

  lemma StoppingKeepsInv(st: State, step: Step)
    requires Inv(st) && Enabled(st, step) && (step.SendRelease? || step.Quit?)
    ensures Inv(Next(st, step))
  {
    var to, c := Next(st, step), step.client;
    assert ClientOk(st, c);
    var t := if InLoop(st.clients[c]) then st.clients[c].lease.stream else st.clients[c].stream;
    assert StreamOk(st, t);
    TouchKeepsStream(st, to, t);
    ClientSideKeepsInv(st, to, c, t);
  }

  lemma NextKeepsInv(st: State, step: Step)
    requires Inv(st) && Enabled(st, step)
    ensures Inv(Next(st, step))
  {
    match step {
      case Tick(_) => ClockKeepsInv(st, Next(st, step));
      case ServeNext(s, minted) => ServedKeepsInv(st, s, minted);
      case Observe => ClockKeepsInv(st, Next(st, step));
      case Connect(_) => AcquiringKeepsInv(st, step);
      case SendAcquire(_, _) => AcquiringKeepsInv(st, step);
      case ReadAcquire(_, _) => AcquiringKeepsInv(st, step);
      case ReadRenew(c) => ReadRenewKeepsInv(st, c);
      case SendReacquire(_, _) => ReacquiringKeepsInv(st, step);
      case ReadReacquire(_) => ReacquiringKeepsInv(st, step);
      case ReacquireFails(_) => ReacquiringKeepsInv(st, step);
      case SendRelease(_) => StoppingKeepsInv(st, step);
      case Quit(_) => StoppingKeepsInv(st, step);
      case _ => RenewingKeepsInv(st, step);
    }
  }

  // ---------------------------------------------------------------------
  // What every run keeps.
  // ---------------------------------------------------------------------

  /** A run: each state follows from the one before by an enabled step. */
  ghost predicate Run(states: seq<State>, steps: seq<Step>) {
    && |states| == |steps| + 1 && Init(states[0])
    && forall i :: 0 <= i < |steps| ==> Enabled(states[i], steps[i]) && states[i + 1] == Next(states[i], steps[i])
  }

  lemma {:induction false} RunKeepsInv(states: seq<State>, steps: seq<Step>, n: nat)
    requires Run(states, steps) && n < |states|
    ensures Inv(states[n])
  {
    if n == 0 {
    } else {
      RunKeepsInv(states, steps, n - 1);
      NextKeepsInv(states[n - 1], steps[n - 1]);
      assert states[n - 1 + 1] == Next(states[n - 1], steps[n - 1]);
    }
  }

  /** Client `c` has read a Granted or an Ok, has not written Release since, and
      less than a ttl has gone by since the request that reply answers was written. */
  predicate Believes(st: State, c: nat) {
    && c < |st.clients| && InLoop(st.clients[c])
    && var l := st.clients[c].lease;
       && l.stream < |st.streams| && Proves(st.streams[l.stream], l)
       && st.now < st.streams[l.stream].requests[l.proof].at + TTL
  }

  lemma BelieverHasTheSlot(st: State, c: nat)
    requires Inv(st) && Believes(st, c)
    ensures var l := st.clients[c].lease;
            && st.slot.Some? && st.slot.value.id == l.id && st.now < st.slot.value.expiresAt
            && GrantedOn(st, l.id, l.stream) && st.streams[l.stream].client == c
  {
    var l := st.clients[c].lease;
    var x := st.streams[l.stream];
    assert ClientOk(st, c) && StreamOk(st, l.stream);
    assert ReplyOk(st, l.stream, x.requests[l.proof], x.replies[l.proof]);
    assert !GivenUp(st, l.id);
  }

  /** Mutual exclusion, at every instant of every run, for any number of clients,
      any delays and any failures: at most one client believes it has the rig. */
  lemma MutualExclusion(states: seq<State>, steps: seq<Step>, n: nat, c: nat, d: nat)
    requires Run(states, steps) && n < |states|
    requires Believes(states[n], c) && Believes(states[n], d)
    ensures c == d
  {
    RunKeepsInv(states, steps, n);
    BelieverHasTheSlot(states[n], c);
    BelieverHasTheSlot(states[n], d);
  }

  /** When the server grants, nobody believes any more, not even the asker: after a
      broken connection a client regains the rig only once its own old lease has lapsed. */
  lemma GrantFindsNoBeliever(states: seq<State>, steps: seq<Step>, n: nat, c: nat)
    requires Run(states, steps) && n < |steps| && steps[n].ServeNext?
    requires states[n + 1].owner != states[n].owner
    ensures !Believes(states[n], c)
  {
    RunKeepsInv(states, steps, n);
    assert states[n + 1] == Next(states[n], steps[n]);
    if Believes(states[n], c) {
      BelieverHasTheSlot(states[n], c);
    }
  }

  /** The j-th reply of a stream answers the j-th request, so after m roundtrips
      that timed out on a kept stream the reply acted on is m requests old: it is
      that request's Ok the client counts from, or that request's Gone that sends
      it off to re-acquire. */
  lemma ReplyIsAsOldAsTheTimeouts(states: seq<State>, steps: seq<Step>, n: nat)
    requires Run(states, steps) && n < |steps| && steps[n].ReadRenew?
    ensures var st := states[n]; var l := st.clients[steps[n].client].lease; var x := st.streams[l.stream];
            && |x.requests| - 1 - l.timeouts == x.read
            && x.requests[|x.requests| - 1 - l.timeouts].req == Renew(l.id)
            && NextReply(st, l.stream) in {Ok, Gone}
            && states[n + 1].clients[steps[n].client] ==
               (if NextReply(st, l.stream) == Ok then Holding(l.(proof := |x.requests| - 1 - l.timeouts))
                else Reconnecting(l))
  {
    RunKeepsInv(states, steps, n);
    var st := states[n];
    assert states[n + 1] == Next(st, steps[n]);
    assert ClientOk(st, steps[n].client);
    RenewReplyExpected(st, steps[n].client);
  }

  /** The renew thread's stream and id change only together, when a Granted read
      on the new stream named that very id; a swap forgets the old timeouts. */
  lemma StreamAndIdSwapTogether(states: seq<State>, steps: seq<Step>, n: nat, c: nat)
    requires Run(states, steps) && n < |steps| && c < |states[n].clients|
    requires InLoop(states[n].clients[c]) && InLoop(states[n + 1].clients[c])
    ensures var was, now := states[n].clients[c].lease, states[n + 1].clients[c].lease;
            || (now.stream == was.stream && now.id == was.id)
            || (&& steps[n] == ReadReacquire(c) && now.stream == states[n].clients[c].spare
                && Readable(states[n], now.stream) && NextReply(states[n], now.stream) == Granted(now.id)
                && now.timeouts == 0)
  {
  }

  /** The exclusion is not empty: some run makes a client believe it has the rig. */
  lemma SomeRunGrantsTheRig() returns (states: seq<State>, steps: seq<Step>)
    ensures Run(states, steps) && |steps| == 4 && Believes(states[4], 0)
    ensures var asked := Sent(Acquire("a", DEFAULT_TTL_S), 0);
            states[4] == State(0, Some(Held(7, "a", TTL, TTL)), [Stream(0, [asked], [Granted(7)], 1)],
                               [Holding(Lease(0, 7, 0, 0)), Idle], map[7 := 0], {})
  {
    var a := Sent(Acquire("a", DEFAULT_TTL_S), 0);
    var held := Some(Held(7, "a", TTL, TTL));
    var s0, sA := Stream(0, [], [], 0), Stream(0, [a], [], 0);
    var sG, sR := Stream(0, [a], [Granted(7)], 0), Stream(0, [a], [Granted(7)], 1);
    steps := [Connect(0), SendAcquire(0, "a"), ServeNext(0, 7), ReadAcquire(0, false)];
    states := [State(0, None, [], [Idle, Idle], map[], {}),
               State(0, None, [s0], [Trying(0), Idle], map[], {}),
               State(0, None, [sA], [Acquiring(0), Idle], map[], {}),
               State(0, held, [sG], [Acquiring(0), Idle], map[7 := 0], {}),
               State(0, held, [sR], [Holding(Lease(0, 7, 0, 0)), Idle], map[7 := 0], {})];
    assert [] + [a] == [a] && [] + [Granted(7)] == [Granted(7)];
    assert [s0][0 := sA] == [sA] && [sA][0 := sG] == [sG] && [sG][0 := sR] == [sR];
    forall n | 0 <= n < |steps| ensures Enabled(states[n], steps[n]) && states[n + 1] == Next(states[n], steps[n]) {
      assert n == 0 || n == 1 || n == 2 || n == 3;
    }
  }
}
