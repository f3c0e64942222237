/** The sliding window of raw samples behind the PRN vector measurements: spans are
    appended as they arrive, old ones are evicted from the left, and a measurement
    extracts one range. The unbounded recording of everything appended is kept as a
    ghost, and the window is compared with it. */
module SampleWindow {
  import opened Wrappers
  import opened ComplexVectors

  /** The weights a span was beamformed with: one row for all sources, one row a source,
      or an array of any other dimension. */
  datatype Logical = SharedRow(row: Vector) | RowPerSource(rows: seq<Vector>) | OtherShape

  /** Samples `start .. start + |samples|`; one sample is a vector across the channels. */
  datatype Span = Span(start: int, samples: seq<Vector>, logical: Logical)

  function End(s: Span): int {
    s.start + |s.samples|
  }

  predicate Holds(s: Span, p: int) {
    s.start <= p < End(s)
  }

  function SampleOf(s: Span, p: int): Vector
    requires Holds(s, p)
  {
    s.samples[p - s.start]
  }

  predicate Overlaps(s: Span, a: int, b: int) {
    Larger(a, s.start) < Smaller(b, End(s))
  }

  function Larger(x: int, y: int): int {
    if x < y then y else x
  }

  function Smaller(x: int, y: int): int {
    if x < y then x else y
  }

  function OverlapLength(s: Span, a: int, b: int): nat {
    if Overlaps(s, a, b) then Smaller(b, End(s)) - Larger(a, s.start) else 0
  }

  /** The span was beamformed with this row for the source: the one row for all, or the source's own. */
  predicate HasRow(s: Span, rowIndex: int, channels: nat, row: Vector) {
    && |row| == channels
    && (s.logical == SharedRow(row)
        || (s.logical.RowPerSource? && 0 <= rowIndex < |s.logical.rows| && s.logical.rows[rowIndex] == row))
  }

  ghost predicate HasSomeRow(s: Span, rowIndex: int, channels: nat) {
    exists row :: HasRow(s, rowIndex, channels, row)
  }

  lemma SelectedRow(s: Span, rowIndex: int, channels: nat)
    ensures forall row :: HasRow(s, rowIndex, channels, row) <==> SelectRow(s, rowIndex, channels) == Some(row)
    ensures HasSomeRow(s, rowIndex, channels) <==> SelectRow(s, rowIndex, channels).Some?
  {
    if SelectRow(s, rowIndex, channels).Some? {
      assert HasRow(s, rowIndex, channels, SelectRow(s, rowIndex, channels).value);
    }
  }

  /** The weight row of one source in a span, when there is one of the right length. */
  function SelectRow(s: Span, rowIndex: int, channels: nat): Option<Vector> {
    match s.logical
    case SharedRow(row) => if |row| == channels then Some(row) else None
    case RowPerSource(rows) =>
      if 0 <= rowIndex < |rows| && |rows[rowIndex]| == channels then Some(rows[rowIndex]) else None
    case OtherShape => None
  }

  /** Appended in increasing order without overlap; gaps are allowed. */
  ghost predicate Ordered(spans: seq<Span>) {
    && (forall j :: 0 <= j < |spans| ==> |spans[j].samples| > 0)
    && (forall j, k :: 0 <= j < k < |spans| ==> End(spans[j]) <= spans[k].start)
  }

  // ---------- what the counter of filled samples means ----------

  function FilledBy(spans: seq<Span>, n: nat, a: int, b: int): nat
    requires n <= |spans|
  {
    if n == 0 then 0 else FilledBy(spans, n - 1, a, b) + OverlapLength(spans[n - 1], a, b)
  }

  ghost predicate HasSample(spans: seq<Span>, n: nat, p: int)
    requires n <= |spans|
  {
    exists j :: 0 <= j < n && Holds(spans[j], p)
  }

  ghost predicate CoveredBy(spans: seq<Span>, n: nat, a: int, b: int)
    requires n <= |spans|
  {
    forall p :: a <= p < b ==> HasSample(spans, n, p)
  }

  /** Nothing lies beyond the end of the last of the first `n` spans. */
  lemma {:induction false} FilledUpTo(spans: seq<Span>, n: nat, a: int, m: int, b: int)
    requires n <= |spans| && a <= m <= b
    requires forall j :: 0 <= j < n ==> End(spans[j]) <= m || m == b || (m == a && End(spans[j]) <= a)
    ensures FilledBy(spans, n, a, b) == FilledBy(spans, n, a, m)
  {
    if n != 0 {
      FilledUpTo(spans, n - 1, a, m, b);
    }
  }

  /** For ordered spans the counter reaches the length of the range exactly when every
      sample of the range is covered. */
  lemma {:induction false} FilledIffCovered(spans: seq<Span>, n: nat, a: int, b: int)
    requires Ordered(spans) && n <= |spans| && a <= b
    ensures FilledBy(spans, n, a, b) <= b - a
    ensures FilledBy(spans, n, a, b) == b - a <==> CoveredBy(spans, n, a, b)
  {
    if n == 0 {
      if a < b {
        assert !HasSample(spans, n, a);
      }
    } else {
      var s := spans[n - 1];
      var m := Smaller(Larger(s.start, a), b);
      forall j | 0 <= j < n - 1
        ensures End(spans[j]) <= m || m == b || (m == a && End(spans[j]) <= a)
      {
        assert End(spans[j]) <= s.start;
      }
      FilledUpTo(spans, n - 1, a, m, b);
      FilledIffCovered(spans, n - 1, a, m);
      if FilledBy(spans, n, a, b) == b - a {
        forall p | a <= p < b
          ensures HasSample(spans, n, p)
        {
          if p < m {
            assert HasSample(spans, n - 1, p);
          } else {
            assert Holds(spans[n - 1], p);
          }
        }
      }
      if CoveredBy(spans, n, a, b) {
        LastSpanCoversRest(spans, n, a, m, b);
      }
    }
  }

  lemma LastSpanCoversRest(spans: seq<Span>, n: nat, a: int, m: int, b: int)
    requires Ordered(spans) && 0 < n <= |spans| && a <= b
    requires m == Smaller(Larger(spans[n - 1].start, a), b)
    requires CoveredBy(spans, n, a, b)
    ensures CoveredBy(spans, n - 1, a, m)
    ensures OverlapLength(spans[n - 1], a, b) == b - m
  {
    var s := spans[n - 1];
    var k := n - 1;
    forall p | a <= p < m
      ensures HasSample(spans, k, p)
    {
      assert HasSample(spans, n, p);
      var j :| 0 <= j < n && Holds(spans[j], p);
      assert j != n - 1;
    }
    if m < b {
      assert HasSample(spans, n, b - 1);
      var j :| 0 <= j < n && Holds(spans[j], b - 1);
    }
  }

  // ---------- the window as a function of the recording ----------

  function DropLeft(spans: seq<Span>, keepFrom: int): seq<Span> {
    if |spans| > 0 && End(spans[0]) <= keepFrom then DropLeft(spans[1..], keepFrom) else spans
  }

  function LatestEnd(recording: seq<Span>): int {
    if |recording| == 0 then 0
    else Larger(LatestEnd(recording[..|recording| - 1]), End(recording[|recording| - 1]))
  }

  function WindowOf(recording: seq<Span>, retention: nat): seq<Span> {
    if |recording| == 0 then []
    else
      var n := |recording| - 1;
      DropLeft(WindowOf(recording[..n], retention) + [recording[n]], LatestEnd(recording) - retention)
  }

  lemma DropLeftNext(spans: seq<Span>, keepFrom: int)
    ensures DropLeft(spans, keepFrom)
         == if |spans| > 0 && End(spans[0]) <= keepFrom then DropLeft(spans[1..], keepFrom) else spans
  {
  }

  lemma WindowNext(recording: seq<Span>, span: Span, retention: nat)
    ensures End(span) == span.start + |span.samples|
    ensures LatestEnd(recording + [span]) == Larger(LatestEnd(recording), End(span))
    ensures WindowOf(recording + [span], retention)
         == DropLeft(WindowOf(recording, retention) + [span], LatestEnd(recording + [span]) - retention)
  {
    assert (recording + [span])[..|recording|] == recording;
  }

  /** A span of an ordered recording is still in the window. */
  predicate Retained(s: Span, recording: seq<Span>, retention: nat) {
    End(s) > LatestEnd(recording) - retention
  }

  /** Dropping from the left of an ordered recording stops at the first span that reaches
      past the limit, and all later spans do. */
  lemma {:induction false} DropLeftIsSuffix(recording: seq<Span>, from: nat, keepFrom: int) returns (d: nat)
    requires Ordered(recording) && from <= |recording|
    ensures from <= d <= |recording| && DropLeft(recording[from..], keepFrom) == recording[d..]
    ensures forall j :: from <= j < d ==> End(recording[j]) <= keepFrom
    ensures forall j :: d <= j < |recording| ==> End(recording[j]) > keepFrom
    decreases |recording| - from
  {
    if from < |recording| && End(recording[from]) <= keepFrom {
      assert recording[from..][1..] == recording[from + 1..];
      d := DropLeftIsSuffix(recording, from + 1, keepFrom);
    } else {
      d := from;
      forall j | d <= j < |recording|
        ensures End(recording[j]) > keepFrom
      {
        if j > from {
          assert End(recording[from]) <= recording[j].start;
        }
      }
    }
  }

  lemma {:induction false} LatestEndIsLast(recording: seq<Span>, j: nat)
    requires j < |recording|
    ensures End(recording[j]) <= LatestEnd(recording)
    ensures LatestEnd(recording[..|recording| - 1]) <= LatestEnd(recording)
  {
    var n := |recording| - 1;
    if j < n {
      assert recording[..n][j] == recording[j];
      LatestEndIsLast(recording[..n], j);
    }
  }

  /** Of an ordered recording the window holds exactly the retained spans, in order. */
  lemma {:induction false} WindowIsRetainedSuffix(recording: seq<Span>, retention: nat) returns (d: nat)
    requires Ordered(recording)
    ensures d <= |recording| && WindowOf(recording, retention) == recording[d..]
    ensures forall j :: 0 <= j < d ==> !Retained(recording[j], recording, retention)
    ensures forall j :: d <= j < |recording| ==> Retained(recording[j], recording, retention)
  {
    if |recording| == 0 {
      d := 0;
    } else {
      hide End, Ordered, DropLeft;
      var n := |recording| - 1;
      var prior := recording[..n];
      assert Ordered(prior) by { PrefixOrdered(recording, n); }
      var before := WindowIsRetainedSuffix(prior, retention);
      assert prior[before..] + [recording[n]] == recording[before..];
      d := DropLeftIsSuffix(recording, before, LatestEnd(recording) - retention);
      LatestEndIsLast(recording, n);
      forall j | 0 <= j < d
        ensures !Retained(recording[j], recording, retention)
      {
        if j < before {
          assert prior[j] == recording[j];
        }
      }
    }
  }

  lemma PrefixOrdered(recording: seq<Span>, n: nat)
    requires Ordered(recording) && n <= |recording|
    ensures Ordered(recording[..n])
  {
    hide End;
  }

  // ---------- extraction ----------

  datatype Extracted = Extracted(samples: seq<Vector>, row: Vector, changed: bool)

  /** When a range can be extracted from spans. */
  ghost predicate Extractable(spans: seq<Span>, a: int, b: int, rowIndex: int, channels: nat) {
    && a < b
    && CoveredBy(spans, |spans|, a, b)
    && forall j :: 0 <= j < |spans| && Overlaps(spans[j], a, b) ==> HasSomeRow(spans[j], rowIndex, channels)
  }

  ghost predicate FirstOverlap(spans: seq<Span>, a: int, b: int, first: nat) {
    && first < |spans| && Overlaps(spans[first], a, b)
    && forall j :: 0 <= j < first ==> !Overlaps(spans[j], a, b)
  }

  /** What an extract of a range then is: the samples of the spans, the first overlapping
      span's row, and whether any overlapping span has another row. */
  ghost predicate IsExtract(e: Extracted, spans: seq<Span>, a: int, b: int, rowIndex: int, channels: nat) {
    && a < b && |e.samples| == b - a
    && (forall j, p :: 0 <= j < |spans| && a <= p < b && Holds(spans[j], p) ==>
          e.samples[p - a] == SampleOf(spans[j], p))
    && (exists first: nat :: FirstOverlap(spans, a, b, first)
                     && HasRow(spans[first], rowIndex, channels, e.row))
    && (e.changed <==> exists j :: 0 <= j < |spans| && Overlaps(spans[j], a, b)
                                && !HasRow(spans[j], rowIndex, channels, e.row))
  }

  /** The rows of the overlapping ones among the first `n` spans; none if one has no row. */
  function CollectRows(spans: seq<Span>, n: nat, a: int, b: int, rowIndex: int, channels: nat): Option<seq<Vector>>
    requires n <= |spans|
  {
    if n == 0 then Some([])
    else
      var rows := CollectRows(spans, n - 1, a, b, rowIndex, channels);
      var selected := SelectRow(spans[n - 1], rowIndex, channels);
      if rows.None? || !Overlaps(spans[n - 1], a, b) then rows
      else if selected.None? then None
      else Some(rows.value + [selected.value])
  }

  lemma {:induction false} CollectedRows(spans: seq<Span>, n: nat, a: int, b: int, rowIndex: int, channels: nat)
    requires n <= |spans|
    ensures var rows := CollectRows(spans, n, a, b, rowIndex, channels);
            && (rows.Some? <==> forall j :: 0 <= j < n && Overlaps(spans[j], a, b) ==>
                                  SelectRow(spans[j], rowIndex, channels).Some?)
            && (rows.Some? ==>
                  && (|rows.value| == 0 <==> forall j :: 0 <= j < n ==> !Overlaps(spans[j], a, b))
                  && (forall j :: 0 <= j < n && Overlaps(spans[j], a, b) ==>
                        SelectRow(spans[j], rowIndex, channels).value in rows.value)
                  && (forall v :: v in rows.value ==>
                        exists j :: 0 <= j < n && Overlaps(spans[j], a, b) && SelectRow(spans[j], rowIndex, channels) == Some(v)))
  {
    hide Overlaps, SelectRow;
    if n != 0 {
      CollectedRows(spans, n - 1, a, b, rowIndex, channels);
    }
  }

  /** The first collected row belongs to the first overlapping span. */
  lemma {:induction false} FirstCollectedRow(spans: seq<Span>, n: nat, a: int, b: int, rowIndex: int, channels: nat)
    returns (first: nat)
    requires n <= |spans|
    requires CollectRows(spans, n, a, b, rowIndex, channels).Some?
    requires |CollectRows(spans, n, a, b, rowIndex, channels).value| > 0
    ensures first < n && FirstOverlap(spans, a, b, first)
    ensures SelectRow(spans[first], rowIndex, channels)
         == Some(CollectRows(spans, n, a, b, rowIndex, channels).value[0])
  {
    hide Overlaps, SelectRow;
    var rows := CollectRows(spans, n - 1, a, b, rowIndex, channels).value;
    if |rows| > 0 {
      first := FirstCollectedRow(spans, n - 1, a, b, rowIndex, channels);
    } else {
      CollectedRows(spans, n - 1, a, b, rowIndex, channels);
      first := n - 1;
    }
  }

  lemma CoveredOverlaps(spans: seq<Span>, a: int, b: int)
    requires a < b && CoveredBy(spans, |spans|, a, b)
    ensures exists j :: 0 <= j < |spans| && Overlaps(spans[j], a, b)
  {
    assert HasSample(spans, |spans|, a);
    var j :| 0 <= j < |spans| && Holds(spans[j], a);
    assert Overlaps(spans[j], a, b);
  }

  /** What the loop of `_extract` has gathered is an extract exactly when all is filled. */
  lemma GatheredIsExtract(spans: seq<Span>, a: int, b: int, rowIndex: int, channels: nat, e: Extracted)
    requires Ordered(spans) && a < b && |e.samples| == b - a
    requires forall j, p :: 0 <= j < |spans| && a <= p < b && Holds(spans[j], p) ==>
               e.samples[p - a] == SampleOf(spans[j], p)
    requires CollectRows(spans, |spans|, a, b, rowIndex, channels).Some?
    requires var rows := CollectRows(spans, |spans|, a, b, rowIndex, channels).value;
             |rows| > 0 && e.row == rows[0] && (e.changed <==> exists k :: 1 <= k < |rows| && rows[k] != rows[0])
    ensures IsExtract(e, spans, a, b, rowIndex, channels)
  {
    hide Overlaps, SelectRow, Holds, Ordered, HasRow;
    CollectedRows(spans, |spans|, a, b, rowIndex, channels);
    forall j | 0 <= j < |spans|
      ensures HasRow(spans[j], rowIndex, channels, e.row) <==> SelectRow(spans[j], rowIndex, channels) == Some(e.row)
    {
      SelectedRow(spans[j], rowIndex, channels);
    }
    var rows := CollectRows(spans, |spans|, a, b, rowIndex, channels).value;
    hide CollectRows;
    var first := FirstCollectedRow(spans, |spans|, a, b, rowIndex, channels);
    if e.changed {
      var k :| 1 <= k < |rows| && rows[k] != rows[0];
      assert rows[k] in rows;
    }
  }

  // ---------- the window against the recording ----------

  /** Some retained span of the recording holds the sample. */
  ghost predicate Available(recording: seq<Span>, retention: nat, p: int) {
    exists j :: 0 <= j < |recording| && Holds(recording[j], p) && Retained(recording[j], recording, retention)
  }

  /** Every retained span that overlaps the range has a row for the source. */
  ghost predicate RowsAvailable(recording: seq<Span>, retention: nat, a: int, b: int, rowIndex: int, channels: nat) {
    forall j :: 0 <= j < |recording| && Retained(recording[j], recording, retention) && Overlaps(recording[j], a, b) ==>
      HasSomeRow(recording[j], rowIndex, channels)
  }

  lemma SuffixSamples(recording: seq<Span>, retention: nat, d: nat, p: int)
    requires Ordered(recording) && d <= |recording|
    requires forall j :: 0 <= j < d ==> !Retained(recording[j], recording, retention)
    requires forall j :: d <= j < |recording| ==> Retained(recording[j], recording, retention)
    ensures HasSample(recording[d..], |recording[d..]|, p) <==> Available(recording, retention, p)
  {
    hide Holds, Retained;
    var spans := recording[d..];
    if HasSample(spans, |spans|, p) {
      var j :| 0 <= j < |spans| && Holds(spans[j], p);
      assert spans[j] == recording[d + j];
    }
    if Available(recording, retention, p) {
      var j :| 0 <= j < |recording| && Holds(recording[j], p) && Retained(recording[j], recording, retention);
      assert recording[j] == spans[j - d];
    }
  }

  /** A range can be extracted exactly when each of its samples was recorded and is not
      evicted, and the retained spans have rows; a gap or an evicted sample refuses it. */
  lemma ExtractableIffRecorded(recording: seq<Span>, retention: nat, a: int, b: int, rowIndex: int, channels: nat)
    requires Ordered(recording)
    ensures Ordered(WindowOf(recording, retention))
    ensures Extractable(WindowOf(recording, retention), a, b, rowIndex, channels)
       <==> && a < b
            && (forall p :: a <= p < b ==> Available(recording, retention, p))
            && RowsAvailable(recording, retention, a, b, rowIndex, channels)
  {
    hide WindowOf, Holds, Overlaps, HasSomeRow, Retained, HasSample, Available;
    var d := WindowIsRetainedSuffix(recording, retention);
    var spans := WindowOf(recording, retention);
    TailOrdered(recording, d);
    forall p: int | true
      ensures HasSample(spans, |spans|, p) <==> Available(recording, retention, p)
    {
      SuffixSamples(recording, retention, d, p);
    }
    forall j | 0 <= j < |spans|
      ensures spans[j] == recording[d + j]
    {
    }
    if RowsAvailable(recording, retention, a, b, rowIndex, channels) {
      forall j | 0 <= j < |spans| && Overlaps(spans[j], a, b)
        ensures HasSomeRow(spans[j], rowIndex, channels)
      {
        assert Overlaps(recording[d + j], a, b);
      }
    }
    if Extractable(spans, a, b, rowIndex, channels) {
      forall j | 0 <= j < |recording| && Retained(recording[j], recording, retention) && Overlaps(recording[j], a, b)
        ensures HasSomeRow(recording[j], rowIndex, channels)
      {
        assert recording[j] == spans[j - d];
      }
    }
  }

  lemma TailOrdered(recording: seq<Span>, d: nat)
    requires Ordered(recording) && d <= |recording|
    ensures Ordered(recording[d..])
  {
    hide End;
    forall j, k | 0 <= j < k < |recording[d..]|
      ensures End(recording[d..][j]) <= recording[d..][k].start
    {
      assert recording[d..][j] == recording[d + j] && recording[d..][k] == recording[d + k];
    }
  }

  /** A gap-free range within the last `retention` samples is always available. */
  lemma RecentRangeAvailable(recording: seq<Span>, retention: nat, a: int, b: int)
    requires Ordered(recording) && LatestEnd(recording) - retention <= a
    requires CoveredBy(recording, |recording|, a, b)
    ensures forall p :: a <= p < b ==> Available(recording, retention, p)
  {
    hide LatestEnd;
    forall p | a <= p < b
      ensures Available(recording, retention, p)
    {
      assert HasSample(recording, |recording|, p);
      var j :| 0 <= j < |recording| && Holds(recording[j], p);
      assert Retained(recording[j], recording, retention);
    }
  }

  lemma OrderedDisjoint(spans: seq<Span>, j: nat, i: nat, p: int)
    requires Ordered(spans) && j < i < |spans| && Holds(spans[j], p)
    ensures !Holds(spans[i], p)
  {
  }

  /** What an extract of the window returns is an extract of the whole recording: its samples, the
      row of its first overlapping span, and whether another overlapping span has another row. */
  lemma ExtractReturnsRecording(recording: seq<Span>, retention: nat, a: int, b: int, rowIndex: int, channels: nat,
                                e: Extracted)
    requires Ordered(recording)
    requires Extractable(WindowOf(recording, retention), a, b, rowIndex, channels)
    requires IsExtract(e, WindowOf(recording, retention), a, b, rowIndex, channels)
    ensures IsExtract(e, recording, a, b, rowIndex, channels)
  {
    hide WindowOf, Overlaps, HasRow, Retained, Holds, CoveredBy, Ordered;
    var d := WindowIsRetainedSuffix(recording, retention);
    var spans := WindowOf(recording, retention);
    forall j | 0 <= j < |spans|
      ensures spans[j] == recording[d + j]
    {
    }
    forall j, p | 0 <= j < |recording| && a <= p < b && Holds(recording[j], p)
      ensures j >= d && spans[j - d] == recording[j]
    {
      HolderIsRetained(recording, d, a, b, j, p);
    }
    forall j | 0 <= j < |recording| && Overlaps(recording[j], a, b)
      ensures j >= d && spans[j - d] == recording[j]
    {
      var p := OverlapHolds(recording[j], a, b);
      HolderIsRetained(recording, d, a, b, j, p);
    }
    var first: nat :| FirstOverlap(spans, a, b, first) && HasRow(spans[first], rowIndex, channels, e.row);
    assert FirstOverlap(recording, a, b, d + first);
    if e.changed {
      var j :| 0 <= j < |spans| && Overlaps(spans[j], a, b) && !HasRow(spans[j], rowIndex, channels, e.row);
      assert recording[d + j] == spans[j];
    }
  }

  lemma OverlapHolds(s: Span, a: int, b: int) returns (p: int)
    requires Overlaps(s, a, b)
    ensures a <= p < b && Holds(s, p)
  {
    p := Larger(a, s.start);
  }

  /** A span that holds a sample of a range the window covers is still in the window. */
  lemma HolderIsRetained(recording: seq<Span>, d: nat, a: int, b: int, j: nat, p: int)
    requires Ordered(recording) && d <= |recording| && CoveredBy(recording[d..], |recording[d..]|, a, b)
    requires a <= p < b && j < |recording| && Holds(recording[j], p)
    ensures j >= d
  {
    hide Holds, Ordered;
    var spans := recording[d..];
    assert HasSample(spans, |spans|, p);
    var i :| 0 <= i < |spans| && Holds(spans[i], p);
    assert spans[i] == recording[d + i];
    SameSpan(recording, d + i, j, p);
  }

  /** A sample belongs to one span only. */
  lemma SameSpan(spans: seq<Span>, i: nat, j: nat, p: int)
    requires Ordered(spans) && i < |spans| && j < |spans|
    requires Holds(spans[i], p) && Holds(spans[j], p)
    ensures i == j
  {
    hide Holds;
    if i < j {
      OrderedDisjoint(spans, i, j, p);
    } else if j < i {
      OrderedDisjoint(spans, j, i, p);
    }
  }

  class Window {
    const channels: nat
    const retention: nat
    var spans: seq<Span>
    var latestEnd: int
    /** Everything ever appended. */
    ghost var recording: seq<Span>

    ghost predicate Valid()
      reads this
    {
      && spans == WindowOf(recording, retention)
      && latestEnd == LatestEnd(recording)
      && forall j :: 0 <= j < |recording| ==> |recording[j].samples| > 0
    }

    constructor (channels: nat, retention: nat)
      ensures Valid() && recording == [] && this.channels == channels && this.retention == retention
    {
      this.channels, this.retention := channels, retention;
      spans, latestEnd, recording := [], 0, [];
    }

    /** `_append_span`: a block with the wrong channel count, or without samples, is ignored. */
    method AppendSpan(start: int, blockChannels: nat, samples: seq<Vector>, logical: Logical)
      requires Valid()
      modifies this
      ensures Valid()
      ensures recording == if blockChannels != channels || |samples| == 0 then old(recording)
                           else old(recording) + [Span(start, samples, logical)]
    {
      if blockChannels != channels || |samples| == 0 {
        return;
      }
      hide DropLeft, LatestEnd, WindowOf, End;
      var end := start + |samples|;
      ghost var span := Span(start, samples, logical);
      ghost var prior := recording;
      WindowNext(prior, span, retention);
      recording := recording + [span];
      spans := spans + [Span(start, samples, logical)];
      latestEnd := Larger(latestEnd, end);
      var keepFrom := latestEnd - retention;
      while |spans| > 0 && End(spans[0]) <= keepFrom
        invariant DropLeft(spans, keepFrom) == WindowOf(recording, retention)
        invariant latestEnd == LatestEnd(recording) && recording == prior + [span]
        decreases |spans|
      {
        DropLeftNext(spans, keepFrom);
        spans := spans[1..];
      }
      DropLeftNext(spans, keepFrom);
    }

    /** The slice assignment of one overlapping span. */
    method CopyOverlap(output: array<Vector>, span: Span, start: int, end: int)
      requires output.Length == end - start && Overlaps(span, start, end)
      modifies output
      ensures forall p :: start <= p < end ==>
                output[p - start] == if Holds(span, p) then SampleOf(span, p) else old(output[p - start])
    {
      var overlapStart, overlapEnd := Larger(start, span.start), Smaller(end, End(span));
      var sourceStart, targetStart := overlapStart - span.start, overlapStart - start;
      forall q | targetStart <= q < targetStart + (overlapEnd - overlapStart) {
        output[q] := span.samples[q - targetStart + sourceStart];
      }
    }

    /** `_extract`, as a statement about the spans in the window. */
    method Extract(start: int, end: int, rowIndex: int) returns (r: Option<Extracted>)
      ensures Ordered(spans) ==> (r.Some? <==> Extractable(spans, start, end, rowIndex, channels))
      ensures Ordered(spans) && r.Some? ==> IsExtract(r.value, spans, start, end, rowIndex, channels)
    {
      hide Overlaps, SelectRow, Holds, Ordered, CoveredBy, IsExtract, FilledBy, HasSomeRow;
      if end <= start || |spans| == 0 {
        assert end > start ==> !CoveredBy(spans, |spans|, start, end) by {
          if end > start && CoveredBy(spans, |spans|, start, end) {
            CoveredOverlaps(spans, start, end);
          }
        }
        return None;
      }
      var output := new Vector[end - start](_ => []);
      var filled := 0;
      var rows: seq<Vector> := [];
      assert FilledBy(spans, 0, start, end) == 0 by { FilledByNone(spans, start, end); }
      for i := 0 to |spans|
        invariant filled == FilledBy(spans, i, start, end)
        invariant CollectRows(spans, i, start, end, rowIndex, channels) == Some(rows)
        invariant Ordered(spans) ==> forall j, p :: 0 <= j < i && start <= p < end && Holds(spans[j], p) ==>
                    output[p - start] == SampleOf(spans[j], p)
      {
        var span := spans[i];
        FilledByNext(spans, i + 1, start, end);
        if !Overlaps(span, start, end) {
          NothingHeld(span, start, end);
          continue;
        }
        CopyOverlap(output, span, start, end);
        if Ordered(spans) {
          forall j, p | 0 <= j < i + 1 && start <= p < end && Holds(spans[j], p)
            ensures output[p - start] == SampleOf(spans[j], p)
          {
            if j < i {
              OrderedDisjoint(spans, j, i, p);
            }
          }
        }
        filled := filled + OverlapLength(span, start, end);
        var selected := SelectRow(span, rowIndex, channels);
        SelectedRow(span, rowIndex, channels);
        if selected.None? {
          return None;
        }
        rows := rows + [selected.value];
      }
      CollectedRows(spans, |spans|, start, end, rowIndex, channels);
      forall j | 0 <= j < |spans|
        ensures HasSomeRow(spans[j], rowIndex, channels) <==> SelectRow(spans[j], rowIndex, channels).Some?
      {
        SelectedRow(spans[j], rowIndex, channels);
      }
      if Ordered(spans) {
        FilledIffCovered(spans, |spans|, start, end);
        if CoveredBy(spans, |spans|, start, end) {
          CoveredOverlaps(spans, start, end);
        }
      }
      if filled != end - start || |rows| == 0 {
        return None;
      }
      var changed := exists k :: 1 <= k < |rows| && rows[k] != rows[0];
      r := Some(Extracted(output[..], rows[0], changed));
      if Ordered(spans) {
        GatheredIsExtract(spans, start, end, rowIndex, channels, r.value);
      }
    }

    lemma FilledByNone(spans: seq<Span>, a: int, b: int)
      ensures FilledBy(spans, 0, a, b) == 0
    {
    }

    lemma FilledByNext(spans: seq<Span>, n: nat, a: int, b: int)
      requires 0 < n <= |spans|
      ensures FilledBy(spans, n, a, b) == FilledBy(spans, n - 1, a, b) + OverlapLength(spans[n - 1], a, b)
    {
    }

    lemma NothingHeld(span: Span, a: int, b: int)
      requires !Overlaps(span, a, b)
      ensures OverlapLength(span, a, b) == 0
      ensures forall p :: a <= p < b ==> !Holds(span, p)
    {
    }
  }
}
