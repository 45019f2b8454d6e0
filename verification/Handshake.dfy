/** The token handshake that opens every connection to a rig daemon. */
module Handshake {
  import opened Common
  import opened Framing

  const NET_VERSION: u8 := 0

  datatype Role = NodeRole | LeaseRole

  type Token = seq<bv8>

  datatype Hello = Hello(version: u8, role: Role, token: Token)

  datatype HelloReply = Accepted(rigName: string) | Denied

  /** The serialization library, seen only through what it promises. */
  datatype Codec = Codec(
    hello: Hello -> seq<u8>,
    toHello: seq<u8> -> Option<Hello>,
    reply: HelloReply -> seq<u8>,
    toReply: seq<u8> -> Option<HelloReply>)

  ghost predicate Faithful(c: Codec) {
    && (forall h :: c.toHello(c.hello(h)) == Some(h))
    && (forall r :: c.toReply(c.reply(r)) == Some(r))
  }

  // ---------------------------------------------------------------------
  // Tokens.
  // ---------------------------------------------------------------------

  /** The fold that never looks at its accumulator before the end. */
  function Difference(a: Token, b: Token, acc: bv8): bv8
    requires |a| == |b|
  {
    if a == [] then acc else Difference(a[1..], b[1..], acc | (a[0] ^ b[0]))
  }

  predicate TokenEq(a: Token, b: Token) {
    |a| == |b| && Difference(a, b, 0) == 0
  }

  lemma OrIsZero(x: bv8, y: bv8)
    ensures x | y == 0 <==> x == 0 && y == 0
  {
  }

  lemma XorIsZero(x: bv8, y: bv8)
    ensures x ^ y == 0 <==> x == y
  {
  }

  lemma {:induction false} NoDifferenceMeansEqual(a: Token, b: Token, acc: bv8)
    requires |a| == |b|
    ensures Difference(a, b, acc) == 0 <==> acc == 0 && a == b
  {
    if a == [] {
    } else {
      NoDifferenceMeansEqual(a[1..], b[1..], acc | (a[0] ^ b[0]));
      OrIsZero(acc, a[0] ^ b[0]);
      XorIsZero(a[0], b[0]);
      assert a == [a[0]] + a[1..] && b == [b[0]] + b[1..];
    }
  }

  lemma TokenEqIsEquality(a: Token, b: Token)
    ensures TokenEq(a, b) <==> a == b
  {
    if |a| == |b| {
      NoDifferenceMeansEqual(a, b, 0);
    }
  }

  // ---------------------------------------------------------------------
  // The two halves.
  // ---------------------------------------------------------------------

  datatype ServerError = SetupFailed | BadFrame(error: FrameError) | Undecodable | Refused | WriteFailed

  datatype ClientError = HelloNotSent | NoReply(error: FrameError) | BadReply | WasDenied

  /** What the server makes of a connection: its result, what it leaves unread, and
      the bytes its peer gets. */
  datatype Served = Served(result: Result<Role, ServerError>, rest: seq<u8>, sent: seq<u8>)

  ghost predicate RepliesFit(c: Codec, rigName: string) {
    |c.reply(Denied)| <= MAX_FRAME && |c.reply(Accepted(rigName))| <= MAX_FRAME
  }

  predicate Welcome(hello: Hello, token: Token) {
    hello.version == NET_VERSION && TokenEq(hello.token, token)
  }

  /** `nodelay`: the socket option could be set. `io`: how the one write goes. */
  ghost function Serve(c: Codec, s: seq<u8>, token: Token, rigName: string, nodelay: bool, io: WriteIo): Served
    requires RepliesFit(c, rigName)
  {
    if !nodelay then Served(Failure(SetupFailed), s, [])
    else
      var (frame, rest) := TakeFrame(s);
      match frame
      case Failure(e) => Served(Failure(BadFrame(e)), rest, [])
      case Success(payload) =>
        match c.toHello(payload)
        case None => Served(Failure(Undecodable), rest, [])
        case Some(hello) =>
          var welcome := Welcome(hello, token);
          var result :=
            if io.Breaks? then Failure(WriteFailed)
            else if welcome then Success(hello.role)
            else Failure(Refused);
          Served(result, rest, Sent(FrameOf(c.reply(if welcome then Accepted(rigName) else Denied)), io))
  }

  method ServerHandshake(c: Codec, wire: Wire, token: Token, rigName: string, nodelay: bool, io: WriteIo)
    returns (r: Result<Role, ServerError>)
    requires RepliesFit(c, rigName)
    modifies wire
    ensures var served := Serve(c, old(wire.Remaining()), token, rigName, nodelay, io);
            && r == served.result && wire.Remaining() == served.rest
            && wire.written == old(wire.written) + served.sent
  {
    if !nodelay {
      return Failure(SetupFailed);
    }
    var frame := wire.ReadFrame();
    if frame.Failure? {
      return Failure(BadFrame(frame.error));
    }
    var hello := c.toHello(frame.value);
    if hello.None? {
      return Failure(Undecodable);
    }
    if hello.value.version != NET_VERSION || !TokenEq(hello.value.token, token) {
      var written := wire.WriteFrame(c.reply(Denied), io);
      return Failure(if written then Refused else WriteFailed);
    }
    var written := wire.WriteFrame(c.reply(Accepted(rigName)), io);
    return if written then Success(hello.value.role) else Failure(WriteFailed);
  }

  /** What a client concludes from the bytes it reads back. */
  function Conclude(c: Codec, s: seq<u8>): (Result<string, ClientError>, seq<u8>) {
    var (frame, rest) := TakeFrame(s);
    match frame
    case Failure(e) => (Failure(NoReply(e)), rest)
    case Success(payload) =>
      match c.toReply(payload)
      case None => (Failure(BadReply), rest)
      case Some(Denied) => (Failure(WasDenied), rest)
      case Some(Accepted(rigName)) => (Success(rigName), rest)
  }

  method ClientHandshake(c: Codec, wire: Wire, role: Role, token: Token, io: WriteIo)
    returns (r: Result<string, ClientError>)
    requires |c.hello(Hello(NET_VERSION, role, token))| <= MAX_FRAME
    modifies wire
    ensures (r, wire.Remaining()) == if io.Complete? then Conclude(c, old(wire.Remaining()))
                                     else (Failure(HelloNotSent), old(wire.Remaining()))
    ensures wire.written == old(wire.written) + Sent(FrameOf(c.hello(Hello(NET_VERSION, role, token))), io)
  {
    var written := wire.WriteFrame(c.hello(Hello(NET_VERSION, role, token)), io);
    if !written {
      return Failure(HelloNotSent);
    }
    var frame := wire.ReadFrame();
    if frame.Failure? {
      return Failure(NoReply(frame.error));
    }
    var reply := c.toReply(frame.value);
    match reply {
      case None => return Failure(BadReply);
      case Some(Denied) => return Failure(WasDenied);
      case Some(Accepted(rigName)) => return Success(rigName);
    }
  }

  // ---------------------------------------------------------------------
  // What the two halves promise each other.
  // ---------------------------------------------------------------------

  /** A Hello that arrived and decoded is accepted exactly when the version matches,
      the token bytes are the server's and the answer could be written; in any case the
      stream is left on the frame after it. */
  lemma AcceptedIffVersionAndToken(c: Codec, hello: Hello, later: seq<u8>, token: Token, rigName: string, io: WriteIo)
    requires Faithful(c) && RepliesFit(c, rigName) && |c.hello(hello)| <= MAX_FRAME
    ensures var served := Serve(c, FrameOf(c.hello(hello)) + later, token, rigName, true, io);
            var welcome := hello.version == NET_VERSION && hello.token == token;
            && (served.result == Success(hello.role) <==> io.Complete? && welcome)
            && (served.result == Failure(Refused) <==> io.Complete? && !welcome)
            && (served.result == Failure(WriteFailed) <==> io.Breaks?)
            && served.rest == later
  {
    FrameIsTaken(FrameOf(c.hello(hello)) + later, c.hello(hello), later);
    TokenEqIsEquality(hello.token, token);
  }

  /** The Hello a server gets to see, if one arrives whole and decodes. */
  ghost function HelloSeen(c: Codec, s: seq<u8>, nodelay: bool): Option<Hello> {
    if nodelay && TakeFrame(s).0.Success? then c.toHello(TakeFrame(s).0.value) else None
  }

  /** The stream starts with a frame whose payload is this. */
  ghost predicate StartsWith(s: seq<u8>, payload: seq<u8>) {
    |payload| <= MAX_FRAME && FrameOf(payload) <= s
  }

  lemma StartIsTaken(s: seq<u8>, payload: seq<u8>)
    ensures StartsWith(s, payload) <==> TakeFrame(s).0 == Success(payload)
  {
    var rest := TakeFrame(s).1;
    FrameIsTaken(s, payload, rest);
    if StartsWith(s, payload) {
      FrameIsTaken(s, payload, s[|FrameOf(payload)|..]);
    }
  }

  /** The stream starts with a frame that decodes to this Hello. */
  ghost predicate Says(c: Codec, s: seq<u8>, hello: Hello) {
    exists payload :: StartsWith(s, payload) && c.toHello(payload) == Some(hello)
  }

  lemma SaysIsSeen(c: Codec, s: seq<u8>, hello: Hello)
    ensures Says(c, s, hello) <==> TakeFrame(s).0.Success? && c.toHello(TakeFrame(s).0.value) == Some(hello)
  {
    forall payload ensures StartsWith(s, payload) <==> TakeFrame(s).0 == Success(payload) {
      StartIsTaken(s, payload);
    }
  }

  /** Nobody gets in but with the token: on any bytes whatever, the server accepts in a
      role exactly if they start with a frame that decodes to a Hello of the right
      version with that very token, in that role, and the answer could be written. It
      refuses exactly if they decode to any other Hello, and sends nothing at all to
      whoever has not sent one. */
  lemma AcceptsIffToken(c: Codec, s: seq<u8>, token: Token, rigName: string, nodelay: bool, io: WriteIo, role: Role)
    requires RepliesFit(c, rigName)
    ensures var served := Serve(c, s, token, rigName, nodelay, io);
            && (served.result == Success(role) <==>
                  nodelay && io.Complete? && Says(c, s, Hello(NET_VERSION, role, token)))
            && (served.result == Failure(Refused) <==>
                  && nodelay && io.Complete?
                  && exists h :: Says(c, s, h) && !(h.version == NET_VERSION && h.token == token))
            && (served.sent != [] ==> nodelay && exists h :: Says(c, s, h))
  {
    forall h ensures Says(c, s, h) <==> TakeFrame(s).0.Success? && c.toHello(TakeFrame(s).0.value) == Some(h) {
      SaysIsSeen(c, s, h);
    }
    var seen := HelloSeen(c, s, nodelay);
    if seen.Some? {
      TokenEqIsEquality(seen.value.token, token);
      assert Says(c, s, seen.value);
    }
  }

  /** Why a handshake failed: each error has its own cause, and the causes exclude
      each other. */
  lemma FailuresHaveTheirCauses(c: Codec, s: seq<u8>, token: Token, rigName: string, nodelay: bool, io: WriteIo)
    requires RepliesFit(c, rigName)
    ensures var served := Serve(c, s, token, rigName, nodelay, io);
            && (served.result == Failure(SetupFailed) <==> !nodelay)
            && (served.result.Failure? && served.result.error.BadFrame? <==>
                  nodelay && forall payload :: !StartsWith(s, payload))
            && (served.result == Failure(Undecodable) <==>
                  nodelay && exists payload :: StartsWith(s, payload) && c.toHello(payload) == None)
            && (served.result == Failure(WriteFailed) <==> nodelay && io.Breaks? && exists h :: Says(c, s, h))
            && (!nodelay ==> served.rest == s)
  {
    forall payload ensures StartsWith(s, payload) <==> TakeFrame(s).0 == Success(payload) {
      StartIsTaken(s, payload);
    }
    forall h ensures Says(c, s, h) <==> TakeFrame(s).0.Success? && c.toHello(TakeFrame(s).0.value) == Some(h) {
      SaysIsSeen(c, s, h);
    }
    var seen := HelloSeen(c, s, nodelay);
    if seen.Some? {
      assert Says(c, s, seen.value);
    }
  }

  /** A client whose Hello got out succeeds, on any bytes whatever, exactly if they
      start with a frame that decodes to an acceptance, and learns the name in it. */
  lemma ClientSucceedsIffAccepted(c: Codec, s: seq<u8>, rigName: string)
    ensures Conclude(c, s).0 == Success(rigName) <==>
              exists payload :: StartsWith(s, payload) && c.toReply(payload) == Some(Accepted(rigName))
    ensures Conclude(c, s).0 == Failure(WasDenied) <==>
              exists payload :: StartsWith(s, payload) && c.toReply(payload) == Some(Denied)
    ensures Conclude(c, s).0 == Failure(BadReply) <==>
              exists payload :: StartsWith(s, payload) && c.toReply(payload) == None
  {
    forall payload ensures StartsWith(s, payload) <==> TakeFrame(s).0 == Success(payload) {
      StartIsTaken(s, payload);
    }
  }

  /** What a peer reads when a frame is all it is ever sent. */
  lemma ReplyIsConcluded(c: Codec, reply: HelloReply, io: WriteIo)
    requires Faithful(c) && |c.reply(reply)| <= MAX_FRAME
    ensures Conclude(c, Sent(FrameOf(c.reply(reply)), io)).0
            == if !InFull(FrameOf(c.reply(reply)), io) then Failure(NoReply(Eof))
               else match reply case Denied => Failure(WasDenied) case Accepted(rigName) => Success(rigName)
  {
    var frame := FrameOf(c.reply(reply));
    if InFull(frame, io) {
      FrameIsTaken(frame, c.reply(reply), []);
      assert frame + [] == frame;
    } else {
      CutFrameIsEof(c.reply(reply), io);
    }
  }

  /** The peer of a failed handshake finds itself denied exactly when its Hello was
      read and decoded, had the wrong version or token, and the Denied got out whole. */
  lemma DeniedIffRefusedAndSent(c: Codec, s: seq<u8>, token: Token, rigName: string, nodelay: bool, io: WriteIo)
    requires Faithful(c) && RepliesFit(c, rigName)
    requires Serve(c, s, token, rigName, nodelay, io).result.Failure?
    ensures var peer := Conclude(c, Serve(c, s, token, rigName, nodelay, io).sent).0;
            var seen := HelloSeen(c, s, nodelay);
            && (peer == Failure(WasDenied) <==>
                && seen.Some? && !(seen.value.version == NET_VERSION && seen.value.token == token)
                && InFull(FrameOf(c.reply(Denied)), io))
            && (peer.Success? <==>
                && seen.Some? && seen.value.version == NET_VERSION && seen.value.token == token
                && InFull(FrameOf(c.reply(Accepted(rigName))), io))
            && (peer.Success? || peer == Failure(WasDenied) || peer == Failure(NoReply(Eof)))
  {
    var seen := HelloSeen(c, s, nodelay);
    ReplyIsConcluded(c, Denied, io);
    ReplyIsConcluded(c, Accepted(rigName), io);
    if seen.Some? {
      TokenEqIsEquality(seen.value.token, token);
    } else {
      assert TakeFrame([]).0 == Failure(Eof);
    }
  }

  /** A peer that hangs up before its Hello is complete fails the handshake unanswered. */
  lemma HangUpIsNotDenied(c: Codec, token: Token, rigName: string, io: WriteIo)
    requires RepliesFit(c, rigName)
    ensures Serve(c, [], token, rigName, true, io) == Served(Failure(BadFrame(Eof)), [], [])
  {
  }

  /** So does one that sends a good Hello and is gone when the answer is written,
      whatever its token. */
  lemma ResetIsNotDenied(c: Codec, hello: Hello, token: Token, rigName: string)
    requires Faithful(c) && RepliesFit(c, rigName) && |c.hello(hello)| <= MAX_FRAME
    ensures Serve(c, FrameOf(c.hello(hello)), token, rigName, true, Breaks(0)) == Served(Failure(WriteFailed), [], [])
  {
    FrameIsTaken(FrameOf(c.hello(hello)), c.hello(hello), []);
    assert FrameOf(c.hello(hello)) + [] == FrameOf(c.hello(hello));
  }

  /** End to end: the client succeeds exactly when the server does, learns the
      server's rig name, and both streams are left on the first later frame. */
  lemma BothSidesAgree(c: Codec, role: Role, clientToken: Token, serverToken: Token, rigName: string,
                       fromClient: seq<u8>, fromServer: seq<u8>)
    requires Faithful(c) && |c.hello(Hello(NET_VERSION, role, clientToken))| <= MAX_FRAME
    requires RepliesFit(c, rigName)
    ensures var hello := FrameOf(c.hello(Hello(NET_VERSION, role, clientToken)));
            var served := Serve(c, hello + fromClient, serverToken, rigName, true, Complete);
            var concluded := Conclude(c, served.sent + fromServer);
            && served.rest == fromClient && concluded.1 == fromServer
            && served.result == (if clientToken == serverToken then Success(role) else Failure(Refused))
            && concluded.0 == (if clientToken == serverToken then Success(rigName) else Failure(WasDenied))
  {
    var hello := Hello(NET_VERSION, role, clientToken);
    AcceptedIffVersionAndToken(c, hello, fromClient, serverToken, rigName, Complete);
    FrameIsTaken(FrameOf(c.hello(hello)) + fromClient, c.hello(hello), fromClient);
    TokenEqIsEquality(clientToken, serverToken);
    var reply := if clientToken == serverToken then Accepted(rigName) else Denied;
    FrameIsTaken(FrameOf(c.reply(reply)) + fromServer, c.reply(reply), fromServer);
  }
}
