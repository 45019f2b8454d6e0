/** The RTT line splitter: bytes arrive in chunks, complete lines go out, and an
    unterminated line is flushed before it can grow without bound. */
module LineSplitter {
  import opened Common

  const NEWLINE: u8 := 10
  const MAX_LINE: nat := 64 * 1024

  /** One read off the probe fills at most this much. */
  const READ_SIZE: nat := 1024

  datatype State = State(emitted: seq<seq<u8>>, pending: seq<u8>)

  // ---------------------------------------------------------------------
  // The canonical split.
  // ---------------------------------------------------------------------

  predicate NewlineFree(s: seq<u8>) {
    forall k :: 0 <= k < |s| ==> s[k] != NEWLINE
  }

  /** A line: one newline, at its end. */
  predicate IsLine(s: seq<u8>) {
    |s| > 0 && s[|s| - 1] == NEWLINE && NewlineFree(s[..|s| - 1])
  }

  /** The split of a whole stream into its lines and an unterminated rest. */
  ghost predicate IsSplit(stream: seq<u8>, lines: seq<seq<u8>>, rest: seq<u8>) {
    && (forall k :: 0 <= k < |lines| ==> IsLine(lines[k]))
    && NewlineFree(rest)
    && Flatten(lines) + rest == stream
  }

  /** Byte by byte: a newline closes the pending line. */
  function Split(stream: seq<u8>): (r: State)
  {
    if stream == [] then State([], [])
    else
      var before := Split(stream[..|stream| - 1]);
      var b := stream[|stream| - 1];
      if b == NEWLINE then State(before.emitted + [before.pending + [b]], [])
      else before.(pending := before.pending + [b])
  }

  lemma NewlineClosesALine(stream: seq<u8>, lines: seq<seq<u8>>, rest: seq<u8>)
    requires IsSplit(stream, lines, rest)
    ensures IsSplit(stream + [NEWLINE], lines + [rest + [NEWLINE]], [])
  {
    var line := rest + [NEWLINE];
    assert line[..|line| - 1] == rest;
    FlattenSnoc(lines, line);
    assert Flatten(lines) + line == (Flatten(lines) + rest) + [NEWLINE];
  }

  lemma OtherBytesArePending(stream: seq<u8>, lines: seq<seq<u8>>, rest: seq<u8>, b: u8)
    requires IsSplit(stream, lines, rest) && b != NEWLINE
    ensures IsSplit(stream + [b], lines, rest + [b])
  {
    assert Flatten(lines) + (rest + [b]) == (Flatten(lines) + rest) + [b];
  }

  lemma {:induction false} SplitIsSplit(stream: seq<u8>)
    ensures IsSplit(stream, Split(stream).emitted, Split(stream).pending)
  {
    if stream == [] {
    } else {
      var init, b := stream[..|stream| - 1], stream[|stream| - 1];
      SplitIsSplit(init);
      assert stream == init + [b];
      if b == NEWLINE {
        NewlineClosesALine(init, Split(init).emitted, Split(init).pending);
      } else {
        OtherBytesArePending(init, Split(init).emitted, Split(init).pending, b);
      }
    }
  }

  lemma {:induction false} NoNewlineNoLines(s: seq<u8>)
    requires NewlineFree(s)
    ensures Split(s) == State([], s)
  {
    if s == [] {
    } else {
      NoNewlineNoLines(s[..|s| - 1]);
      assert s == s[..|s| - 1] + [s[|s| - 1]];
    }
  }

  /** Splitting on goes from where splitting left off. */
  lemma {:induction false} SplitConcat(a: seq<u8>, b: seq<u8>)
    ensures var more := Split(Split(a).pending + b);
            Split(a + b) == State(Split(a).emitted + more.emitted, more.pending)
  {
    var p := Split(a).pending;
    if b == [] {
      SplitIsSplit(a);
      NoNewlineNoLines(p);
      assert a + b == a && p + b == p;
      assert Split(a).emitted + [] == Split(a).emitted;
    } else {
      var init, x := b[..|b| - 1], b[|b| - 1];
      SplitConcat(a, init);
      assert (a + b)[..|a + b| - 1] == a + init && (p + b)[..|p + b| - 1] == p + init;
      assert (a + b)[|a + b| - 1] == x && (p + b)[|p + b| - 1] == x;
    }
  }

  lemma SplitFront(line: seq<u8>, rest: seq<u8>)
    requires IsLine(line)
    ensures Split(line + rest) == State([line] + Split(rest).emitted, Split(rest).pending)
  {
    var body := line[..|line| - 1];
    NoNewlineNoLines(body);
    assert body + [line[|line| - 1]] == line;
    assert Split(line) == State([line], []);
    SplitConcat(line, rest);
    assert [] + rest == rest;
  }

  // ---------------------------------------------------------------------
  // One poll.
  // ---------------------------------------------------------------------

  /** What a read of `chunk` does: split off the complete lines, then flush what
      is left if it has grown too long. */
  function Feed(st: State, chunk: seq<u8>): State {
    if chunk == [] then st
    else
      var s := Split(st.pending + chunk);
      if |s.pending| > MAX_LINE then State(st.emitted + s.emitted + [s.pending], [])
      else State(st.emitted + s.emitted, s.pending)
  }

  /** The capture's buffer and the lines handed to its sink. */
  class Splitter {
    var emitted: seq<seq<u8>>
    var pending: seq<u8>

    constructor ()
      ensures State(emitted, pending) == State([], [])
    {
      emitted, pending := [], [];
    }

    /** The first newline in the buffer. */
    method Position() returns (pos: Option<nat>)
      ensures pos.Some? ==> pos.value < |pending| && IsLine(pending[..pos.value + 1])
      ensures pos.None? ==> NewlineFree(pending)
    {
      var k := 0;
      while k < |pending|
        invariant k <= |pending| && NewlineFree(pending[..k])
      {
        if pending[k] == NEWLINE {
          assert pending[..k + 1][..k] == pending[..k];
          return Some(k);
        }
        k := k + 1;
      }
      assert pending[..k] == pending;
      return None;
    }

    method Poll(chunk: seq<u8>)
      modifies this
      ensures State(emitted, pending) == Feed(old(State(emitted, pending)), chunk)
    {
      if |chunk| == 0 {
        return;
      }
      pending := pending + chunk;
      ghost var whole, before := Split(pending), emitted;
      var pos: Option<nat> := Position();
      while pos.Some?
        invariant pos.Some? ==> pos.value < |pending| && IsLine(pending[..pos.value + 1])
        invariant pos.None? ==> NewlineFree(pending)
        invariant before + whole.emitted == emitted + Split(pending).emitted
        invariant whole.pending == Split(pending).pending
        decreases |pending|
      {
        var line, rest := pending[..pos.value + 1], pending[pos.value + 1..];
        assert line + rest == pending;
        SplitFront(line, rest);
        assert emitted + ([line] + Split(rest).emitted) == (emitted + [line]) + Split(rest).emitted;
        pending := rest;
        emitted := emitted + [line];
        pos := Position();
      }
      NoNewlineNoLines(pending);
      if |pending| > MAX_LINE {
        var line := pending;
        pending := [];
        emitted := emitted + [line];
      }
    }
  }

  // ---------------------------------------------------------------------
  // Whole captures.
  // ---------------------------------------------------------------------

  /** The capture after every chunk of `chunks`. */
  function FeedAll(chunks: seq<seq<u8>>): State {
    if chunks == [] then State([], [])
    else Feed(FeedAll(chunks[..|chunks| - 1]), chunks[|chunks| - 1])
  }

  lemma FlattenInit<T>(pieces: seq<seq<T>>)
    requires pieces != []
    ensures Flatten(pieces) == Flatten(pieces[..|pieces| - 1]) + pieces[|pieces| - 1]
  {
    FlattenSnoc(pieces[..|pieces| - 1], pieces[|pieces| - 1]);
    assert pieces == pieces[..|pieces| - 1] + [pieces[|pieces| - 1]];
  }

  lemma AppendAssociates<T>(a: seq<T>, b: seq<T>, c: seq<T>)
    ensures (a + b) + c == a + (b + c)
  {
  }

  lemma FeedConserves(st: State, chunk: seq<u8>)
    ensures var to := Feed(st, chunk);
            Flatten(to.emitted) + to.pending == Flatten(st.emitted) + st.pending + chunk
  {
    var s := Split(st.pending + chunk);
    var lines := Flatten(st.emitted);
    if chunk == [] {
    } else {
      SplitIsSplit(st.pending + chunk);
      AppendAssociates(lines, st.pending, chunk);
      AppendAssociates(lines, Flatten(s.emitted), s.pending);
      FlattenAppend(st.emitted, s.emitted);
      if |s.pending| > MAX_LINE {
        FlattenSnoc(st.emitted + s.emitted, s.pending);
      }
    }
  }

  /** No byte is lost, invented or reordered, however the stream was chunked. */
  lemma {:induction false} BytesAreConserved(chunks: seq<seq<u8>>)
    ensures Flatten(FeedAll(chunks).emitted) + FeedAll(chunks).pending == Flatten(chunks)
  {
    if chunks == [] {
    } else {
      var init, last := chunks[..|chunks| - 1], chunks[|chunks| - 1];
      BytesAreConserved(init);
      FeedConserves(FeedAll(init), last);
      FlattenInit(chunks);
    }
  }

  lemma {:induction false} PieceFits<T>(pieces: seq<seq<T>>, k: nat)
    requires k < |pieces|
    ensures |pieces[k]| <= |Flatten(pieces)|
  {
    if k == 0 {
    } else {
      PieceFits(pieces[1..], k - 1);
    }
  }

  /** Host memory stays capped: after every poll the buffer is newline-free and at
      most MAX_LINE long, and no emitted line exceeds MAX_LINE plus one read. */
  lemma {:induction false} MemoryIsCapped(chunks: seq<seq<u8>>)
    requires forall k :: 0 <= k < |chunks| ==> |chunks[k]| <= READ_SIZE
    ensures NewlineFree(FeedAll(chunks).pending) && |FeedAll(chunks).pending| <= MAX_LINE
    ensures forall k :: 0 <= k < |FeedAll(chunks).emitted| ==> 0 < |FeedAll(chunks).emitted[k]| <= MAX_LINE + READ_SIZE
  {
    if chunks == [] {
    } else {
      var init, last := chunks[..|chunks| - 1], chunks[|chunks| - 1];
      MemoryIsCapped(init);
      var s := Split(FeedAll(init).pending + last);
      SplitIsSplit(FeedAll(init).pending + last);
      forall k | 0 <= k < |s.emitted| ensures 0 < |s.emitted[k]| <= MAX_LINE + READ_SIZE {
        PieceFits(s.emitted, k);
        assert IsLine(s.emitted[k]);
      }
    }
  }

  /** No stretch without a newline is longer than MAX_LINE. */
  ghost predicate Bounded(stream: seq<u8>) {
    forall i, j :: 0 <= i <= j <= |stream| && NewlineFree(stream[i..j]) ==> j - i <= MAX_LINE
  }

  lemma PendingIsATail(stream: seq<u8>)
    ensures var p := Split(stream).pending; |p| <= |stream| && p == stream[|stream| - |p|..]
  {
  }

  lemma BoundedPrefix(a: seq<u8>, b: seq<u8>)
    requires Bounded(a + b)
    ensures Bounded(a)
  {
    forall i, j | 0 <= i <= j <= |a| && NewlineFree(a[i..j]) ensures j - i <= MAX_LINE {
      assert a[i..j] == (a + b)[i..j];
    }
  }

  lemma BoundedPending(stream: seq<u8>)
    requires Bounded(stream)
    ensures |Split(stream).pending| <= MAX_LINE
  {
    var p := Split(stream).pending;
    SplitIsSplit(stream);
    PendingIsATail(stream);
    assert NewlineFree(stream[|stream| - |p|..|stream|]);
  }

  /** If no stretch of the stream is over-long, the sink sees the canonical lines
      and nothing else, whatever the chunking. */
  lemma {:induction false} BoundedMeansCanonical(chunks: seq<seq<u8>>)
    requires Bounded(Flatten(chunks))
    ensures FeedAll(chunks) == Split(Flatten(chunks))
  {
    if chunks == [] {
    } else {
      var init, last := chunks[..|chunks| - 1], chunks[|chunks| - 1];
      FlattenInit(chunks);
      BoundedPrefix(Flatten(init), last);
      BoundedMeansCanonical(init);
      SplitConcat(Flatten(init), last);
      BoundedPending(Flatten(chunks));
      assert last == [] ==> Flatten(init) + last == Flatten(init);
    }
  }

  /** The stream one byte at a time. */
  function Bytewise(stream: seq<u8>): (chunks: seq<seq<u8>>) {
    if stream == [] then [] else Bytewise(stream[..|stream| - 1]) + [[stream[|stream| - 1]]]
  }

  lemma {:induction false} BytewiseChunks(stream: seq<u8>)
    ensures Flatten(Bytewise(stream)) == stream
    ensures forall k :: 0 <= k < |Bytewise(stream)| ==> |Bytewise(stream)[k]| <= READ_SIZE
  {
    if stream == [] {
    } else {
      BytewiseChunks(stream[..|stream| - 1]);
      FlattenSnoc(Bytewise(stream[..|stream| - 1]), [stream[|stream| - 1]]);
      assert stream == stream[..|stream| - 1] + [stream[|stream| - 1]];
    }
  }

  ghost predicate OnlyLines(st: State) {
    forall k :: 0 <= k < |st.emitted| ==> IsLine(st.emitted[k])
  }

  lemma BytewiseStep(init: seq<u8>, b: u8)
    ensures FeedAll(Bytewise(init + [b])) == Feed(FeedAll(Bytewise(init)), [b])
  {
  }

  /** Emitted lines are never taken back. */
  lemma {:induction false} OnlyLinesBefore(stream: seq<u8>, j: nat)
    requires j <= |stream| && OnlyLines(FeedAll(Bytewise(stream)))
    ensures OnlyLines(FeedAll(Bytewise(stream[..j])))
  {
    if j == |stream| {
      assert stream[..j] == stream;
    } else {
      var init, b := stream[..|stream| - 1], stream[|stream| - 1];
      assert stream == init + [b];
      BytewiseStep(init, b);
      var st, to := FeedAll(Bytewise(init)), FeedAll(Bytewise(stream));
      assert forall k :: 0 <= k < |st.emitted| ==> st.emitted[k] == to.emitted[k];
      OnlyLinesBefore(init, j);
      assert init[..j] == stream[..j];
    }
  }

  lemma FlushIsNoLine(st: State, b: u8)
    requires |Split(st.pending + [b]).pending| > MAX_LINE
    ensures !OnlyLines(Feed(st, [b]))
  {
    var p, to := Split(st.pending + [b]).pending, Feed(st, [b]);
    SplitIsSplit(st.pending + [b]);
    assert to.emitted[|to.emitted| - 1] == p && p[|p| - 1] != NEWLINE;
  }

  /** Fed a byte at a time, a splitter that has emitted only true lines never flushed. */
  lemma {:induction false} OnlyLinesMeansCanonical(stream: seq<u8>)
    requires OnlyLines(FeedAll(Bytewise(stream)))
    ensures FeedAll(Bytewise(stream)) == Split(stream)
  {
    if stream == [] {
    } else {
      var init, b := stream[..|stream| - 1], stream[|stream| - 1];
      assert stream == init + [b];
      BytewiseStep(init, b);
      OnlyLinesBefore(stream, |stream| - 1);
      OnlyLinesMeansCanonical(init);
      SplitConcat(init, [b]);
      if |Split(Split(init).pending + [b]).pending| > MAX_LINE {
        FlushIsNoLine(FeedAll(Bytewise(init)), b);
      }
    }
  }

  lemma {:induction false} PendingSpansTheStretch(stream: seq<u8>, i: nat)
    requires i <= |stream| && NewlineFree(stream[i..])
    ensures |Split(stream).pending| >= |stream| - i
  {
    if i == |stream| {
    } else {
      var init := stream[..|stream| - 1];
      assert init[i..] == stream[i..][..|stream| - 1 - i];
      assert stream[|stream| - 1] == stream[i..][|stream| - 1 - i];
      PendingSpansTheStretch(init, i);
    }
  }

  /** The line boundaries are independent of chunking exactly for the streams with
      no over-long stretch: for any other stream some legal chunking differs. */
  lemma {:induction false} ChunkingIsInvisibleIffBounded(stream: seq<u8>)
    ensures Bounded(stream) <==>
            forall chunks: seq<seq<u8>> ::
              Flatten(chunks) == stream && (forall k :: 0 <= k < |chunks| ==> |chunks[k]| <= READ_SIZE)
              ==> FeedAll(chunks) == Split(stream)
  {
    if Bounded(stream) {
      forall chunks: seq<seq<u8>> | Flatten(chunks) == stream ensures FeedAll(chunks) == Split(stream) {
        BoundedMeansCanonical(chunks);
      }
    } else {
      var i, j :| 0 <= i <= j <= |stream| && NewlineFree(stream[i..j]) && j - i > MAX_LINE;
      BytewiseChunks(stream);
      SplitIsSplit(stream);
      if FeedAll(Bytewise(stream)) == Split(stream) {
        OnlyLinesBefore(stream, j);
        OnlyLinesMeansCanonical(stream[..j]);
        assert stream[..j][i..] == stream[i..j];
        PendingSpansTheStretch(stream[..j], i);
        BytewiseChunks(stream[..j]);
        MemoryIsCapped(Bytewise(stream[..j]));
        assert false;
      }
    }
  }
}
