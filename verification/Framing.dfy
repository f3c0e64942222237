/** Newline framing of the IPC byte stream: each side writes an encoded message and one
    newline, and the reader loops cut whatever chunks the socket returns back into frames. */
module Framing {
  import opened Wrappers

  newtype byte = x: int | 0 <= x < 256

  type Bytes = seq<byte>

  const NEWLINE: byte := 10

  /** What `bytes.strip()` removes: space, tab, newline, carriage return, vertical tab, form feed. */
  predicate IsSpace(b: byte) {
    b == 32 || 9 <= b <= 13
  }

  /** `not raw.strip()` */
  predicate IsBlank(raw: Bytes) {
    forall k :: 0 <= k < |raw| ==> IsSpace(raw[k])
  }

  /** The position of the first newline, or the length if there is none. */
  function FirstNewline(b: Bytes): (n: nat)
    ensures n <= |b|
    ensures forall k :: 0 <= k < n ==> b[k] != NEWLINE
    ensures n < |b| ==> b[n] == NEWLINE
    decreases |b|
  {
    if |b| == 0 || b[0] == NEWLINE then 0 else 1 + FirstNewline(b[1..])
  }

  // ---------- the stream, cut at once ----------

  /** What follows the newline at `n`. */
  function After(b: Bytes, n: nat): (r: Bytes)
    requires n < |b|
    ensures |r| < |b|
  {
    b[n + 1..]
  }

  /** The complete segments of a stream, each ended by its newline. */
  function Segments(stream: Bytes): seq<Bytes>
    decreases |stream|
  {
    var n := FirstNewline(stream);
    if n == |stream| then [] else [stream[..n]] + Segments(After(stream, n))
  }

  /** What follows the last newline. */
  function Remainder(stream: Bytes): Bytes
    decreases |stream|
  {
    var n := FirstNewline(stream);
    if n == |stream| then stream else Remainder(After(stream, n))
  }

  function Nonblank(segments: seq<Bytes>): seq<Bytes> {
    if |segments| == 0 then []
    else (if IsBlank(segments[0]) then [] else [segments[0]]) + Nonblank(segments[1..])
  }

  lemma NonblankNil()
    ensures Nonblank([]) == []
  {
  }

  lemma {:induction false} NonblankConcat(a: seq<Bytes>, b: seq<Bytes>)
    ensures Nonblank(a + b) == Nonblank(a) + Nonblank(b)
  {
    hide IsBlank, Nonblank;
    if |a| == 0 {
      NonblankNil();
      assert a == [] && a + b == b;
    } else {
      NonblankConcat(a[1..], b);
      NonblankCons(a[0], a[1..]);
      NonblankCons(a[0], a[1..] + b);
      assert [a[0]] + a[1..] == a && [a[0]] + (a[1..] + b) == a + b;
    }
  }

  lemma FirstNewlineIs(b: Bytes, n: nat)
    requires n < |b| && b[n] == NEWLINE
    requires forall k :: 0 <= k < n ==> b[k] != NEWLINE
    ensures FirstNewline(b) == n
  {
  }

  lemma SegmentsOnly(b: Bytes)
    ensures var n := FirstNewline(b);
            Segments(b) == (if n == |b| then [] else [b[..n]] + Segments(After(b, n)))
  {
    hide FirstNewline, Remainder, After;
  }

  lemma RemainderOnly(b: Bytes)
    ensures var n := FirstNewline(b);
            Remainder(b) == (if n == |b| then b else Remainder(After(b, n)))
  {
    hide FirstNewline, Segments, After;
  }

  lemma SegmentsStep(b: Bytes)
    ensures var n := FirstNewline(b);
            && Segments(b) == (if n == |b| then [] else [b[..n]] + Segments(b[n + 1..]))
            && Remainder(b) == (if n == |b| then b else Remainder(b[n + 1..]))
  {
    hide FirstNewline, Segments, Remainder;
    SegmentsOnly(b);
    RemainderOnly(b);
  }

  /** Taking one frame off the front of the buffer. */
  lemma CutOne(buffer: Bytes)
    requires FirstNewline(buffer) < |buffer|
    ensures var n := FirstNewline(buffer);
            && Nonblank(Segments(buffer))
                 == (if IsBlank(buffer[..n]) then [] else [buffer[..n]]) + Nonblank(Segments(buffer[n + 1..]))
            && Remainder(buffer) == Remainder(buffer[n + 1..])
  {
    hide IsBlank, Nonblank, FirstNewline, Segments, Remainder;
    var n := FirstNewline(buffer);
    SegmentsStep(buffer);
    NonblankCons(buffer[..n], Segments(buffer[n + 1..]));
  }

  lemma NonblankCons(first: Bytes, rest: seq<Bytes>)
    ensures Nonblank([first] + rest) == (if IsBlank(first) then [] else [first]) + Nonblank(rest)
  {
    hide IsBlank;
    assert ([first] + rest)[1..] == rest;
  }

  lemma NothingToCut(buffer: Bytes)
    requires FirstNewline(buffer) == |buffer|
    ensures Nonblank(Segments(buffer)) == [] && Remainder(buffer) == buffer
  {
  }

  lemma Associates<T(!new)>(a: seq<T>, b: seq<T>, c: seq<T>)
    ensures a + (b + c) == (a + b) + c
  {
  }

  /** Cutting what is left over together with what arrives later gives the same frames as
      cutting the whole stream. */
  lemma {:induction false} CutLater(early: Bytes, late: Bytes)
    ensures Segments(early + late) == Segments(early) + Segments(Remainder(early) + late)
    ensures Remainder(early + late) == Remainder(Remainder(early) + late)
    decreases |early|
  {
    hide FirstNewline, Segments, Remainder;
    var n := FirstNewline(early);
    SegmentsStep(early);
    if n < |early| {
      var rest := early[n + 1..];
      FirstNewlineIs(early + late, n);
      SegmentsStep(early + late);
      assert (early + late)[..n] == early[..n];
      assert (early + late)[n + 1..] == rest + late;
      CutLater(rest, late);
      Associates([early[..n]], Segments(rest), Segments(Remainder(rest) + late));
    } else {
      assert [] + Segments(early + late) == Segments(early + late);
    }
  }

  // ---------- which bytes are handed on ----------

  /** Bytes `a` to `b` lie between two newlines, or between the start of the stream and the first. */
  ghost predicate IsSegment(stream: Bytes, a: nat, b: nat) {
    && a <= b < |stream| && stream[b] == NEWLINE
    && (a == 0 || stream[a - 1] == NEWLINE)
    && forall k :: a <= k < b ==> stream[k] != NEWLINE
  }

  /** Some byte is no white space of the ASCII kind. */
  ghost predicate HasContent(raw: Bytes) {
    exists k :: 0 <= k < |raw| && raw[k] !in [9, 10, 11, 12, 13, 32]
  }

  lemma BlankIffNoContent(raw: Bytes)
    ensures IsBlank(raw) <==> !HasContent(raw)
  {
  }

  /** Segments after the first newline, seen from the whole stream. */
  lemma SegmentShift(stream: Bytes, n: nat, a: nat, b: nat)
    requires n < |stream| && stream[n] == NEWLINE
    ensures IsSegment(stream[n + 1..], a, b) <==> IsSegment(stream, a + n + 1, b + n + 1)
    ensures a <= b < |stream| - n - 1 ==> stream[n + 1..][a..b] == stream[a + n + 1..b + n + 1]
  {
    var rest := stream[n + 1..];
    assert forall k :: 0 <= k < |rest| ==> rest[k] == stream[k + n + 1];
    if a <= b < |rest| {
      forall k | a + n + 1 <= k < b + n + 1
        ensures stream[k] == rest[k - n - 1]
      {
      }
    }
  }

  ghost predicate AreFrames(stream: Bytes, cuts: seq<(nat, nat)>, frames: seq<Bytes>) {
    && |cuts| == |frames|
    && (forall k :: 0 <= k < |cuts| ==>
          && IsSegment(stream, cuts[k].0, cuts[k].1)
          && frames[k] == stream[cuts[k].0..cuts[k].1] && HasContent(frames[k]))
    && (forall k, l :: 0 <= k < l < |cuts| ==> cuts[k].1 < cuts[l].0)
  }

  function Shifted(cuts: seq<(nat, nat)>, n: nat): (r: seq<(nat, nat)>)
    ensures |r| == |cuts| && forall k :: 0 <= k < |cuts| ==> r[k] == (cuts[k].0 + n + 1, cuts[k].1 + n + 1)
  {
    seq(|cuts|, k requires 0 <= k < |cuts| => (cuts[k].0 + n + 1, cuts[k].1 + n + 1))
  }

  lemma ShiftedFrames(stream: Bytes, n: nat, cuts: seq<(nat, nat)>, frames: seq<Bytes>)
    requires n < |stream| && stream[n] == NEWLINE
    requires AreFrames(stream[n + 1..], cuts, frames)
    ensures AreFrames(stream, Shifted(cuts, n), frames)
  {
    hide IsSegment, HasContent;
    forall k | 0 <= k < |cuts|
      ensures IsSegment(stream, cuts[k].0 + n + 1, cuts[k].1 + n + 1)
      ensures cuts[k].0 <= cuts[k].1 < |stream| - n - 1
      ensures frames[k] == stream[cuts[k].0 + n + 1..cuts[k].1 + n + 1]
    {
      SegmentBounds(stream[n + 1..], cuts[k].0, cuts[k].1);
      SegmentShift(stream, n, cuts[k].0, cuts[k].1);
    }
  }

  lemma SegmentBounds(stream: Bytes, a: nat, b: nat)
    requires IsSegment(stream, a, b)
    ensures a <= b < |stream|
  {
  }

  lemma FirstSegment(stream: Bytes, a: nat, b: nat)
    requires FirstNewline(stream) < |stream| && IsSegment(stream, a, b)
    ensures (a == 0 && b == FirstNewline(stream)) || a > FirstNewline(stream)
  {
  }

  /** A segment that is handed on. */
  ghost predicate IsFrame(stream: Bytes, a: nat, b: nat) {
    IsSegment(stream, a, b) && HasContent(stream[a..b])
  }

  ghost predicate HasAllFrames(stream: Bytes, cuts: seq<(nat, nat)>) {
    forall a: nat, b: nat :: IsFrame(stream, a, b) ==> (a, b) in cuts
  }

  /** The frames handed on are, in order, the stretches of the stream between newlines that have
      some content, each once, and none is left out; what remains has no newline. */
  lemma {:induction false} FramesAreSegments(stream: Bytes) returns (cuts: seq<(nat, nat)>)
    ensures AreFrames(stream, cuts, Nonblank(Segments(stream)))
    ensures HasAllFrames(stream, cuts)
    ensures NEWLINE !in Remainder(stream) && |Remainder(stream)| <= |stream|
    ensures stream[|stream| - |Remainder(stream)|..] == Remainder(stream)
    decreases |stream|
  {
    hide IsBlank, Nonblank, Segments, Remainder, HasContent, IsSegment, AreFrames, HasAllFrames;
    var n := FirstNewline(stream);
    if n == |stream| {
      NothingToCut(stream);
      cuts := [];
      NoSegments(stream);
    } else {
      var rest := stream[n + 1..];
      CutOne(stream);
      var later := FramesAreSegments(rest);
      var frames := Nonblank(Segments(rest));
      ShiftedFrames(stream, n, later, frames);
      BlankIffNoContent(stream[..n]);
      AllFramesNext(stream, later);
      if IsBlank(stream[..n]) {
        cuts := Shifted(later, n);
        assert [] + frames == frames;
      } else {
        cuts := [(0, n)] + Shifted(later, n);
        FirstIsSegment(stream);
        OneMoreFrame(stream, Shifted(later, n), frames, n);
      }
    }
  }

  lemma IsAmong(stream: Bytes, cuts: seq<(nat, nat)>, a: nat, b: nat)
    requires HasAllFrames(stream, cuts) && IsFrame(stream, a, b)
    ensures (a, b) in cuts
  {
    hide IsFrame;
  }

  lemma FrameShift(stream: Bytes, n: nat, a: nat, b: nat)
    requires n < |stream| && stream[n] == NEWLINE && IsFrame(stream, a, b) && a > n
    ensures b >= a && IsFrame(stream[n + 1..], a - n - 1, b - n - 1)
  {
    hide IsSegment, HasContent;
    SegmentBounds(stream, a, b);
    var c, d := a - n - 1, b - n - 1;
    SegmentShift(stream, n, c, d);
    assert c + n + 1 == a && d + n + 1 == b;
    assert stream[n + 1..][c..d] == stream[a..b];
  }

  lemma AmongShifted(cuts: seq<(nat, nat)>, n: nat, a: nat, b: nat)
    requires (a, b) in cuts
    ensures (a + n + 1, b + n + 1) in Shifted(cuts, n)
  {
    var k :| 0 <= k < |cuts| && cuts[k] == (a, b);
    assert Shifted(cuts, n)[k] == (a + n + 1, b + n + 1);
  }

  lemma LaterFrame(stream: Bytes, n: nat, later: seq<(nat, nat)>, a: nat, b: nat)
    requires n < |stream| && stream[n] == NEWLINE && HasAllFrames(stream[n + 1..], later)
    requires IsFrame(stream, a, b) && a > n
    ensures (a, b) in Shifted(later, n)
  {
    hide IsFrame, HasAllFrames;
    FrameShift(stream, n, a, b);
    IsAmong(stream[n + 1..], later, a - n - 1, b - n - 1);
    AmongShifted(later, n, a - n - 1, b - n - 1);
  }

  lemma AllFramesNext(stream: Bytes, later: seq<(nat, nat)>)
    requires FirstNewline(stream) < |stream| && HasAllFrames(After(stream, FirstNewline(stream)), later)
    ensures var n := FirstNewline(stream);
            && (HasContent(stream[..n]) ==> HasAllFrames(stream, [(0, n)] + Shifted(later, n)))
            && (!HasContent(stream[..n]) ==> HasAllFrames(stream, Shifted(later, n)))
  {
    hide IsFrame, HasContent, FirstNewline, Shifted;
    var n, shifted := FirstNewline(stream), Shifted(later, FirstNewline(stream));
    InLonger(shifted, (0, n));
    forall a: nat, b: nat | IsFrame(stream, a, b)
      ensures (a, b) in shifted || ((a, b) == (0, n) && HasContent(stream[..n]))
    {
      FrameOrLater(stream, later, a, b);
    }
  }

  lemma FrameOrLater(stream: Bytes, later: seq<(nat, nat)>, a: nat, b: nat)
    requires FirstNewline(stream) < |stream| && HasAllFrames(After(stream, FirstNewline(stream)), later)
    requires IsFrame(stream, a, b)
    ensures var n := FirstNewline(stream);
            (a, b) in Shifted(later, n) || ((a, b) == (0, n) && HasContent(stream[..n]))
  {
    hide IsFrame, HasContent, FirstNewline, Shifted, HasAllFrames;
    FirstFrame(stream, a, b);
    if a > FirstNewline(stream) {
      LaterFrame(stream, FirstNewline(stream), later, a, b);
    }
  }

  lemma InLonger<T(!new)>(s: seq<T>, first: T)
    ensures forall x :: x in [first] + s <==> x == first || x in s
  {
  }

  lemma FirstFrame(stream: Bytes, a: nat, b: nat)
    requires FirstNewline(stream) < |stream| && IsFrame(stream, a, b)
    ensures var n := FirstNewline(stream); a > n || ((a, b) == (0, n) && HasContent(stream[..n]))
  {
    hide HasContent;
    FirstSegment(stream, a, b);
    if a == 0 {
      assert stream[a..b] == stream[..b];
    }
  }

  lemma NoSegments(stream: Bytes)
    requires FirstNewline(stream) == |stream|
    ensures AreFrames(stream, [], []) && NEWLINE !in stream && HasAllFrames(stream, [])
  {
    hide HasContent;
  }

  lemma OneMoreFrame(stream: Bytes, cuts: seq<(nat, nat)>, frames: seq<Bytes>, n: nat)
    requires n < |stream| && AreFrames(stream, cuts, frames) && IsSegment(stream, 0, n) && HasContent(stream[..n])
    requires forall k :: 0 <= k < |cuts| ==> cuts[k].0 > n
    ensures AreFrames(stream, [(0, n)] + cuts, [stream[..n]] + frames)
  {
    hide HasContent, IsSegment;
    var all, texts := [(0, n)] + cuts, [stream[..n]] + frames;
    assert stream[0..n] == stream[..n];
    forall k | 0 <= k < |all|
      ensures IsSegment(stream, all[k].0, all[k].1) && all[k].0 <= all[k].1 < |stream|
      ensures texts[k] == stream[all[k].0..all[k].1] && HasContent(texts[k])
    {
      if k > 0 {
        SegmentBounds(stream, cuts[k - 1].0, cuts[k - 1].1);
        assert all[k] == cuts[k - 1] && texts[k] == frames[k - 1];
      }
    }
    forall k, l | 0 <= k < l < |all|
      ensures all[k].1 < all[l].0
    {
      if k > 0 {
        assert all[k] == cuts[k - 1] && all[l] == cuts[l - 1];
      }
    }
  }

  lemma FirstIsSegment(stream: Bytes)
    requires FirstNewline(stream) < |stream|
    ensures IsSegment(stream, 0, FirstNewline(stream))
  {
  }

  // ---------- the reader ----------

  /** The buffer and loop of `_reader_loop`; `handled` are the frames handed on, in order. */
  class FrameReader {
    var buffer: Bytes
    var handled: seq<Bytes>
    /** Every byte received. */
    ghost var received: Bytes

    ghost predicate Valid()
      reads this
    {
      && handled == Nonblank(Segments(received))
      && buffer == Remainder(received)
    }

    constructor ()
      ensures Valid() && received == [] && handled == []
    {
      buffer, handled, received := [], [], [];
    }

    /** One `recv` and the inner loop after it. */
    method Receive(chunk: Bytes)
      requires Valid()
      modifies this
      ensures Valid() && received == old(received) + chunk
      ensures old(handled) <= handled
    {
      hide Segments, Nonblank, Remainder, IsBlank;
      ghost var prior := handled;
      CutLater(received, chunk);
      NonblankConcat(Segments(received), Segments(buffer + chunk));
      ghost var pending := buffer + chunk;
      received := received + chunk;
      buffer := buffer + chunk;
      while FirstNewline(buffer) < |buffer|
        invariant handled + Nonblank(Segments(buffer)) == prior + Nonblank(Segments(pending))
        invariant Remainder(buffer) == Remainder(pending)
        invariant prior <= handled && received == old(received) + chunk
        decreases |buffer|
      {
        CutOne(buffer);
        var n := FirstNewline(buffer);
        var raw := buffer[..n];
        buffer := buffer[n + 1..];
        if !IsBlank(raw) {
          handled := handled + [raw];
        }
      }
      NothingToCut(buffer);
    }
  }

  function Concat(chunks: seq<Bytes>): Bytes {
    if |chunks| == 0 then [] else chunks[0] + Concat(chunks[1..])
  }

  lemma {:induction false} ConcatAppend(chunks: seq<Bytes>, chunk: Bytes)
    ensures Concat(chunks + [chunk]) == Concat(chunks) + chunk
  {
    if |chunks| == 0 {
      assert [chunk][1..] == [];
    } else {
      ConcatAppend(chunks[1..], chunk);
      assert (chunks + [chunk])[1..] == chunks[1..] + [chunk];
    }
  }

  /** A whole connection: however the stream is split into receives, the frames handed on are
      the nonblank newline-separated segments of the stream. */
  method ReadAll(chunks: seq<Bytes>) returns (frames: seq<Bytes>, rest: Bytes)
    ensures frames == Nonblank(Segments(Concat(chunks)))
    ensures rest == Remainder(Concat(chunks))
  {
    var reader := new FrameReader();
    for i := 0 to |chunks|
      invariant reader.Valid() && reader.received == Concat(chunks[..i]) && fresh(reader)
    {
      ConcatAppend(chunks[..i], chunks[i]);
      assert chunks[..i] + [chunks[i]] == chunks[..i + 1];
      reader.Receive(chunks[i]);
    }
    assert chunks[..|chunks|] == chunks;
    return reader.handled, reader.buffer;
  }

  // ---------- round trip ----------

  /** What the sender writes for one encoded message. */
  function Frame(encoded: Bytes): Bytes {
    encoded + [NEWLINE]
  }

  function FramesOf(messages: seq<Bytes>): Bytes {
    if |messages| == 0 then [] else Frame(messages[0]) + FramesOf(messages[1..])
  }

  /** A JSON text on one line: it has no raw newline (section 7 of RFC 8259) and is not blank. */
  predicate IsLine(encoded: Bytes) {
    NEWLINE !in encoded && !IsBlank(encoded)
  }

  /** Any sequence of encoded messages comes back, in order and whole, followed by however
      much of the next message has already arrived. */
  lemma {:induction false} MessagesRecovered(messages: seq<Bytes>, partial: Bytes)
    requires forall k :: 0 <= k < |messages| ==> IsLine(messages[k])
    requires NEWLINE !in partial
    ensures Nonblank(Segments(FramesOf(messages) + partial)) == messages
    ensures Remainder(FramesOf(messages) + partial) == partial
  {
    if |messages| == 0 {
      assert FramesOf(messages) + partial == partial;
      assert FirstNewline(partial) == |partial|;
    } else {
      var m, rest := messages[0], FramesOf(messages[1..]) + partial;
      var stream := FramesOf(messages) + partial;
      assert stream == m + [NEWLINE] + rest;
      FirstNewlineIs(stream, |m|);
      assert stream[..|m|] == m && stream[|m| + 1..] == rest;
      MessagesRecovered(messages[1..], partial);
    }
  }

  // ---------- messages ----------

  datatype Handled<M> = Message(message: M) | Invalid

  /** The server's handling of each frame: a decoded message, or the invalid-JSON reply. */
  function HandleFrames<M>(decode: Bytes -> Option<M>, frames: seq<Bytes>): (r: seq<Handled<M>>)
    ensures |r| == |frames|
  {
    seq(|frames|, k requires 0 <= k < |frames| =>
      match decode(frames[k]) case Some(m) => Message(m) case None => Invalid)
  }

  function EncodeAll<M>(encode: M -> Bytes, messages: seq<M>): (r: seq<Bytes>)
    ensures |r| == |messages|
    ensures forall k :: 0 <= k < |messages| ==> r[k] == encode(messages[k])
  {
    seq(|messages|, k requires 0 <= k < |messages| => encode(messages[k]))
  }

  /** `_send` undone by `_reader_loop`: for any encoder of one-line texts with its decoder, any
      messages, and any split of the bytes into receives, exactly those messages are handled. */
  lemma RoundTrip<M(!new)>(encode: M -> Bytes, decode: Bytes -> Option<M>, messages: seq<M>, chunks: seq<Bytes>)
    requires forall m :: IsLine(encode(m)) && decode(encode(m)) == Some(m)
    requires Concat(chunks) == FramesOf(EncodeAll(encode, messages))
    ensures var h := HandleFrames(decode, Nonblank(Segments(Concat(chunks))));
            |h| == |messages| && forall k :: 0 <= k < |messages| ==> h[k] == Message(messages[k])
  {
    var encoded := EncodeAll(encode, messages);
    MessagesRecovered(encoded, []);
    assert FramesOf(encoded) + [] == FramesOf(encoded);
  }
}
