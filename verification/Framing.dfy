/** Length-prefixed frames over a byte stream that arrives in arbitrary pieces. */
module Framing {
  import opened Common

  const MAX_FRAME: nat := 256 * 1024

  /** Little-endian 32-bit lengths. */
  function Encode32(n: u32): (bytes: seq<u8>)
    ensures |bytes| == 4
  {
    [n % 0x100, n / 0x100 % 0x100, n / 0x1_0000 % 0x100, n / 0x100_0000]
  }

  function Decode32(bytes: seq<u8>): u32
    requires |bytes| == 4
  {
    var b0: int, b1: int, b2: int, b3: int := bytes[0], bytes[1], bytes[2], bytes[3];
    b0 + 0x100 * b1 + 0x1_0000 * b2 + 0x100_0000 * b3
  }

  lemma DigitsApart(low: int, high: int)
    requires 0 <= low < 0x100
    ensures (low + 0x100 * high) % 0x100 == low && (low + 0x100 * high) / 0x100 == high
  {
  }

  lemma EncodeInvertsDecode(bytes: seq<u8>)
    requires |bytes| == 4
    ensures Encode32(Decode32(bytes)) == bytes
  {
    var m: int := Decode32(bytes);
    var b0: int, b1: int, b2: int, b3: int := bytes[0], bytes[1], bytes[2], bytes[3];
    var m1 := b1 + 0x100 * (b2 + 0x100 * b3);
    assert m == b0 + 0x100 * m1;
    DigitsApart(b0, m1);
    DigitsApart(b1, b2 + 0x100 * b3);
    DigitsApart(b2, b3);
    assert m / 0x1_0000 == m1 / 0x100 && m / 0x100_0000 == m1 / 0x1_0000;
    assert m1 / 0x1_0000 == b3;
  }

  lemma LengthsRoundTrip(n: u32)
    ensures Decode32(Encode32(n)) == n
  {
    var n1 := n / 0x100;
    var n2 := n1 / 0x100;
    assert n / 0x1_0000 == n2 && n / 0x100_0000 == n2 / 0x100;
    assert n == n % 0x100 + 0x100 * n1;
    assert n1 == n1 % 0x100 + 0x100 * n2;
    assert n2 == n2 % 0x100 + 0x100 * (n2 / 0x100);
  }

  datatype FrameError = Eof | TooLong(length: u32)

  function FrameOf(payload: seq<u8>): (frame: seq<u8>)
    requires |payload| <= MAX_FRAME
    ensures |frame| == 4 + |payload|
  {
    Encode32(|payload|) + payload
  }

  /** On the wire a frame is the payload's length, least significant byte first, and
      then the payload. */
  lemma FrameLayout(payload: seq<u8>)
    requires |payload| <= MAX_FRAME
    ensures var f := FrameOf(payload);
            && (f[0] as int) + 0x100 * (f[1] as int) + 0x1_0000 * (f[2] as int) + 0x100_0000 * (f[3] as int)
               == |payload|
            && f[4..] == payload
  {
    LengthsRoundTrip(|payload|);
  }

  /** One frame off the front of a stream, and what is left of the stream. */
  function TakeFrame(s: seq<u8>): (Result<seq<u8>, FrameError>, seq<u8>) {
    if |s| < 4 then (Failure(Eof), [])
    else
      var length := Decode32(s[..4]);
      if length > MAX_FRAME then (Failure(TooLong(length)), s[4..])
      else if |s| < 4 + length then (Failure(Eof), [])
      else (Success(s[4..4 + length]), s[4 + length..])
  }

  /** A frame is taken off a stream exactly when the stream starts with it. */
  lemma FrameIsTaken(s: seq<u8>, payload: seq<u8>, rest: seq<u8>)
    ensures TakeFrame(s) == (Success(payload), rest) <==> |payload| <= MAX_FRAME && s == FrameOf(payload) + rest
  {
    if TakeFrame(s) == (Success(payload), rest) {
      EncodeInvertsDecode(s[..4]);
      assert s == s[..4] + payload + rest;
    }
    if |payload| <= MAX_FRAME && s == FrameOf(payload) + rest {
      LengthsRoundTrip(|payload|);
      assert s[..4] == Encode32(|payload|);
      assert s[4..4 + |payload|] == payload && s[4 + |payload|..] == rest;
    }
  }

  lemma PrefixSays(s: seq<u8>, length: u32)
    requires |s| >= 4
    ensures Encode32(length) <= s <==> Decode32(s[..4]) == length
  {
    LengthsRoundTrip(length);
    EncodeInvertsDecode(s[..4]);
  }

  lemma StopsInside<T>(s: seq<T>, a: seq<T>, b: seq<T>)
    requires |s| >= |a|
    ensures s < a + b <==> a <= s && s[|a|..] < b
  {
    if a <= s {
      assert s == a + s[|a|..];
    }
  }

  lemma IsInsideAFrame(s: seq<u8>, payload: seq<u8>)
    requires |s| >= 4 && |payload| <= MAX_FRAME && s < FrameOf(payload)
    ensures Decode32(s[..4]) == |payload| && |s| < 4 + |payload|
  {
    StopsInside(s, Encode32(|payload|), payload);
    PrefixSays(s, |payload|);
  }

  lemma FrameToStopIn(s: seq<u8>, missing: nat) returns (payload: seq<u8>)
    requires |s| >= 4 && missing > 0 && Decode32(s[..4]) == |s| - 4 + missing <= MAX_FRAME
    ensures |payload| <= MAX_FRAME && s < FrameOf(payload)
  {
    payload := s[4..] + seq(missing, _ => 0);
    PrefixSays(s, |payload|);
    StopsInside(s, Encode32(|payload|), payload);
  }

  /** A reader fails for length exactly on a prefix that says more than MAX_FRAME, having
      read just that prefix, and for the end of the stream exactly if the stream stops
      inside the prefix or inside some frame, having read it all. */
  lemma FrameErrors(s: seq<u8>, length: u32)
    ensures TakeFrame(s).0 == Failure(TooLong(length)) <==> length > MAX_FRAME && Encode32(length) <= s
    ensures TakeFrame(s).0 == Failure(TooLong(length)) ==> TakeFrame(s).1 == s[4..]
    ensures TakeFrame(s).0 == Failure(Eof) <==>
              |s| < 4 || exists payload :: |payload| <= MAX_FRAME && s < FrameOf(payload)
    ensures TakeFrame(s).0 == Failure(Eof) ==> TakeFrame(s).1 == []
  {
    if |s| >= 4 {
      PrefixSays(s, length);
      forall payload | |payload| <= MAX_FRAME && s < FrameOf(payload) ensures TakeFrame(s).0 == Failure(Eof) {
        IsInsideAFrame(s, payload);
      }
      if TakeFrame(s).0 == Failure(Eof) {
        var payload := FrameToStopIn(s, 4 + Decode32(s[..4]) - |s|);
      }
    }
  }

  /** How a write on a socket goes: in full, or with an error after so many bytes. */
  datatype WriteIo = Complete | Breaks(after: nat)

  predicate InFull(frame: seq<u8>, io: WriteIo) {
    io.Complete? || |frame| <= io.after
  }

  /** The bytes of a frame that get out. */
  function Sent(frame: seq<u8>, io: WriteIo): seq<u8> {
    if InFull(frame, io) then frame else frame[..io.after]
  }

  /** A frame cut short is end of file to its reader. */
  lemma CutFrameIsEof(payload: seq<u8>, io: WriteIo)
    requires |payload| <= MAX_FRAME && !InFull(FrameOf(payload), io)
    ensures TakeFrame(Sent(FrameOf(payload), io)) == (Failure(Eof), [])
  {
    var s := Sent(FrameOf(payload), io);
    if |s| >= 4 {
      assert s[..4] == Encode32(|payload|);
      LengthsRoundTrip(|payload|);
    }
  }

  /** All the frames of a stream, up to the error that ends it. */
  function ReadAll(s: seq<u8>): (seq<seq<u8>>, FrameError)
    decreases |s|
  {
    match TakeFrame(s).0
    case Failure(e) => ([], e)
    case Success(payload) =>
      var more := ReadAll(TakeFrame(s).1);
      ([payload] + more.0, more.1)
  }

  lemma ReadOn(frames: seq<seq<u8>>, s: seq<u8>)
    ensures match TakeFrame(s).0
            case Failure(e) => frames + ReadAll(s).0 == frames && ReadAll(s).1 == e
            case Success(payload) =>
              var more := ReadAll(TakeFrame(s).1);
              frames + ReadAll(s).0 == frames + [payload] + more.0 && ReadAll(s).1 == more.1
  {
    if TakeFrame(s).0.Success? {
      var more := ReadAll(TakeFrame(s).1);
      assert frames + ([TakeFrame(s).0.value] + more.0) == frames + [TakeFrame(s).0.value] + more.0;
    }
  }

  ghost predicate Sendable(payloads: seq<seq<u8>>) {
    forall k :: 0 <= k < |payloads| ==> |payloads[k]| <= MAX_FRAME
  }

  function WireOf(payloads: seq<seq<u8>>): seq<u8>
    requires Sendable(payloads)
  {
    if payloads == [] then [] else FrameOf(payloads[0]) + WireOf(payloads[1..])
  }

  /** How many whole frames fit in the first `n` bytes of the wire. */
  function WholeFrames(payloads: seq<seq<u8>>, n: nat): (k: nat)
    requires Sendable(payloads)
    ensures k <= |payloads|
  {
    if payloads == [] || n < |FrameOf(payloads[0])| then 0
    else 1 + WholeFrames(payloads[1..], n - |FrameOf(payloads[0])|)
  }

  lemma {:induction false} WholeFramesAreWhole(payloads: seq<seq<u8>>, n: nat)
    requires Sendable(payloads) && n <= |WireOf(payloads)|
    ensures var k := WholeFrames(payloads, n);
            && |WireOf(payloads[..k])| <= n
            && (k < |payloads| ==> n < |WireOf(payloads[..k + 1])|)
  {
    if payloads == [] {
    } else if n >= |FrameOf(payloads[0])| {
      WholeFramesAreWhole(payloads[1..], n - |FrameOf(payloads[0])|);
      var k := WholeFrames(payloads, n);
      assert payloads[..k][1..] == payloads[1..][..k - 1];
      if k < |payloads| {
        assert payloads[..k + 1][1..] == payloads[1..][..k];
      }
    } else {
      assert payloads[..1][1..] == [];
      assert WireOf(payloads[..1]) == FrameOf(payloads[0]) + [];
    }
  }

  /** Whatever prefix of the wire arrives, what is read back is exactly the frames
      that arrived whole, in order, and then end of file. */
  lemma {:induction false} TruncatedWireReadsBack(payloads: seq<seq<u8>>, n: nat)
    requires Sendable(payloads) && n <= |WireOf(payloads)|
    ensures ReadAll(WireOf(payloads)[..n]) == (payloads[..WholeFrames(payloads, n)], Eof)
  {
    var s := WireOf(payloads)[..n];
    if payloads == [] {
    } else {
      var frame := FrameOf(payloads[0]);
      if n >= |frame| {
        assert s == frame + WireOf(payloads[1..])[..n - |frame|];
        FrameIsTaken(s, payloads[0], WireOf(payloads[1..])[..n - |frame|]);
        TruncatedWireReadsBack(payloads[1..], n - |frame|);
        var k := WholeFrames(payloads, n);
        assert payloads[..k] == [payloads[0]] + payloads[1..][..k - 1];
      } else {
        assert s == Sent(frame, Breaks(n));
        CutFrameIsEof(payloads[0], Breaks(n));
        assert TakeFrame(s).0 == Failure(Eof);
      }
    }
  }

  lemma {:induction false} EverythingFits(payloads: seq<seq<u8>>)
    requires Sendable(payloads)
    ensures WholeFrames(payloads, |WireOf(payloads)|) == |payloads|
  {
    if payloads == [] {
    } else {
      EverythingFits(payloads[1..]);
    }
  }

  /** Every sequence of payloads is read back exactly and in order. */
  lemma WireRoundTrips(payloads: seq<seq<u8>>)
    requires Sendable(payloads)
    ensures ReadAll(WireOf(payloads)) == (payloads, Eof)
  {
    EverythingFits(payloads);
    TruncatedWireReadsBack(payloads, |WireOf(payloads)|);
    assert WireOf(payloads)[..|WireOf(payloads)|] == WireOf(payloads);
    assert payloads[..|payloads|] == payloads;
  }

  /** One end of a connection: the pieces still to arrive, and the bytes written. */
  class Wire {
    var arriving: seq<seq<u8>>
    var written: seq<u8>

    function Remaining(): seq<u8>
      reads this
    {
      Flatten(arriving)
    }

    constructor (arriving: seq<seq<u8>>)
      ensures this.arriving == arriving && written == []
    {
      this.arriving := arriving;
      written := [];
    }

    /** The operating system's read: some of the next piece, or nothing at the end. */
    method Read(max: nat) returns (chunk: seq<u8>)
      requires max > 0
      modifies this`arriving
      ensures old(Remaining()) == chunk + Remaining() && |chunk| <= max
      ensures chunk == [] ==> Remaining() == []
      ensures chunk != [] || old(Remaining()) == []
    {
      while arriving != [] && arriving[0] == []
        invariant Remaining() == old(Remaining())
        decreases |arriving|
      {
        arriving := arriving[1..];
      }
      if arriving == [] {
        return [];
      }
      var piece := arriving[0];
      var n := Min(max, |piece|);
      chunk := piece[..n];
      arriving := [piece[n..]] + arriving[1..];
      assert piece == chunk + piece[n..];
    }

    /** `read_exact`: exactly `n` bytes, or end of file with everything consumed. */
    method ReadExact(n: nat) returns (bytes: Option<seq<u8>>)
      modifies this`arriving
      ensures var all := old(Remaining());
              if |all| < n then bytes == None && Remaining() == []
              else bytes == Some(all[..n]) && Remaining() == all[n..]
    {
      var buf: seq<u8> := [];
      while |buf| < n
        invariant |buf| <= n && old(Remaining()) == buf + Remaining()
        decreases n - |buf|
      {
        var chunk := Read(n - |buf|);
        if chunk == [] {
          return None;
        }
        buf := buf + chunk;
      }
      return Some(buf);
    }

    method ReadFrame() returns (frame: Result<seq<u8>, FrameError>)
      modifies this`arriving
      ensures (frame, Remaining()) == TakeFrame(old(Remaining()))
    {
      ghost var all := Remaining();
      var prefix := ReadExact(4);
      if prefix.None? {
        return Failure(Eof);
      }
      var length := Decode32(prefix.value);
      if length > MAX_FRAME {
        return Failure(TooLong(length));
      }
      var payload := ReadExact(length);
      if payload.None? {
        return Failure(Eof);
      }
      assert all[4..][..length] == all[4..4 + length] && all[4..][length..] == all[4 + length..];
      return Success(payload.value);
    }

    /** Both writers: the length, then the payload. The source asserts the bound. */
    method WriteFrame(payload: seq<u8>, io: WriteIo) returns (ok: bool)
      requires |payload| <= MAX_FRAME
      modifies this`written
      ensures written == old(written) + Sent(FrameOf(payload), io)
      ensures ok <==> io.Complete?
    {
      var prefix := Encode32(|payload|);
      if io.Breaks? && io.after < 4 {
        written := written + prefix[..io.after];
        assert prefix[..io.after] == FrameOf(payload)[..io.after];
        return false;
      }
      written := written + prefix;
      if io.Breaks? && io.after < 4 + |payload| {
        written := written + payload[..io.after - 4];
        assert prefix + payload[..io.after - 4] == FrameOf(payload)[..io.after];
        return false;
      }
      written := written + payload;
      return io.Complete?;
    }

    /** A reader that keeps going sees what the bytes say, however they were cut up. */
    method ReadFrames() returns (frames: seq<seq<u8>>, end: FrameError)
      modifies this`arriving
      ensures (frames, end) == ReadAll(old(Remaining()))
    {
      frames := [];
      ghost var goal := ReadAll(Remaining());
      assert goal.0 == [] + goal.0;
      while true
        invariant goal.0 == frames + ReadAll(Remaining()).0 && goal.1 == ReadAll(Remaining()).1
        decreases |Remaining()|
      {
        ReadOn(frames, Remaining());
        var frame := ReadFrame();
        if frame.Failure? {
          return frames, frame.error;
        }
        frames := frames + [frame.value];
      }
    }
  }
}
