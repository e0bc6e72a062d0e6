/** `_bounded_lines` of `cogni_demo/server.py`: the chunked reader against the
    splitting of the whole stream. */
module LineReader {
  import opened Basics

  const NEWLINE: byte := 10

  datatype Line = Line(bytes: seq<byte>, truncated: bool)

  function Concat(pieces: seq<seq<byte>>): seq<byte> {
    if pieces == [] then [] else Concat(pieces[..|pieces| - 1]) + pieces[|pieces| - 1]
  }

  /** The pieces are the lines of the stream, each with its newline; only the last
      may lack one. */
  ghost predicate Splits(stream: seq<byte>, pieces: seq<seq<byte>>) {
    && Concat(pieces) == stream
    && (forall i :: 0 <= i < |pieces| ==> pieces[i] != [] && NEWLINE !in pieces[i][..|pieces[i]| - 1])
    && (forall i :: 0 <= i < |pieces| - 1 ==> pieces[i][|pieces[i]| - 1] == NEWLINE)
  }

  ghost predicate Closed(piece: seq<byte>) {
    piece != [] && piece[|piece| - 1] == NEWLINE
  }

  /** A line of at most `max` bytes, not counting its newline, stays whole. */
  function Cut(piece: seq<byte>, max: nat): Line {
    var content := if piece != [] && piece[|piece| - 1] == NEWLINE then |piece| - 1 else |piece|;
    if content <= max then Line(piece, false) else Line(piece[..max], true)
  }

  function CutAll(pieces: seq<seq<byte>>, max: nat): (lines: seq<Line>)
    ensures |lines| == |pieces|
  {
    if pieces == [] then [] else CutAll(pieces[..|pieces| - 1], max) + [Cut(pieces[|pieces| - 1], max)]
  }

  /** What the reads deliver: everything up to the first empty chunk. */
  function Delivered(chunks: seq<seq<byte>>): seq<byte> {
    if chunks == [] || chunks[0] == [] then [] else chunks[0] + Delivered(chunks[1..])
  }

  // ------------------------------------------------------------------
  // A stream has one splitting
  // ------------------------------------------------------------------

  lemma ConcatSnoc(pieces: seq<seq<byte>>, piece: seq<byte>)
    ensures Concat(pieces + [piece]) == Concat(pieces) + piece
  {
    assert (pieces + [piece])[..|pieces|] == pieces;
  }

  lemma {:induction false} ConcatEmpty(pieces: seq<seq<byte>>)
    requires forall i :: 0 <= i < |pieces| ==> pieces[i] != []
    ensures Concat(pieces) == [] <==> pieces == []
  {
    if pieces != [] { ConcatEmpty(pieces[..|pieces| - 1]); }
  }

  lemma SplitsFront(stream: seq<byte>, pieces: seq<seq<byte>>)
    requires Splits(stream, pieces) && pieces != []
    ensures Splits(stream[..|stream| - |pieces[|pieces| - 1]|], pieces[..|pieces| - 1])
    ensures stream == stream[..|stream| - |pieces[|pieces| - 1]|] + pieces[|pieces| - 1]
    ensures |pieces| > 1 ==> Closed(stream[..|stream| - |pieces[|pieces| - 1]|])
  {
    var n := |pieces| - 1;
    var front := Concat(pieces[..n]);
    assert front == stream[..|stream| - |pieces[n]|];
    if n > 0 {
      assert pieces[..n][n - 1] == pieces[n - 1];
      assert front == Concat(pieces[..n][..n - 1]) + pieces[n - 1];
    }
  }

  /** Two splittings agree on where the last line begins. */
  lemma SameLast(stream: seq<byte>, a: seq<seq<byte>>, b: seq<seq<byte>>)
    requires Splits(stream, a) && Splits(stream, b) && a != [] && b != []
    ensures |a[|a| - 1]| >= |b[|b| - 1]|
  {
    SplitsFront(stream, a);
    SplitsFront(stream, b);
  }

  /** No stream can be split in two ways. */
  lemma {:induction false} OneSplitting(stream: seq<byte>, a: seq<seq<byte>>, b: seq<seq<byte>>)
    requires Splits(stream, a) && Splits(stream, b)
    ensures a == b
    decreases |a|
  {
    ConcatEmpty(a);
    ConcatEmpty(b);
    if a != [] && b != [] {
      SameLast(stream, a, b);
      SameLast(stream, b, a);
      SplitsFront(stream, a);
      SplitsFront(stream, b);
      OneSplitting(stream[..|stream| - |a[|a| - 1]|], a[..|a| - 1], b[..|b| - 1]);
      assert a == a[..|a| - 1] + [a[|a| - 1]] && b == b[..|b| - 1] + [b[|b| - 1]];
    }
  }

  /** The lines of a stream: its pieces, each cut to the bound. */
  ghost predicate LinesOf(stream: seq<byte>, lines: seq<Line>, max: nat) {
    exists pieces :: Splits(stream, pieces) && lines == CutAll(pieces, max)
  }

  /** So the lines do not depend on how the stream was chunked. */
  lemma OneReading(stream: seq<byte>, a: seq<Line>, b: seq<Line>, max: nat)
    requires LinesOf(stream, a, max) && LinesOf(stream, b, max)
    ensures a == b
  {
    var p :| Splits(stream, p) && a == CutAll(p, max);
    var q :| Splits(stream, q) && b == CutAll(q, max);
    OneSplitting(stream, p, q);
  }

  // ------------------------------------------------------------------
  // The reader
  // ------------------------------------------------------------------

  /** The pieces so far, with one more byte. */
  function Grown(pieces: seq<seq<byte>>, b: byte): seq<seq<byte>> {
    if pieces == [] || pieces[|pieces| - 1] == [] || pieces[|pieces| - 1][|pieces[|pieces| - 1]| - 1] == NEWLINE
    then pieces + [[b]]
    else pieces[..|pieces| - 1] + [pieces[|pieces| - 1] + [b]]
  }

  lemma GrownSplits(stream: seq<byte>, pieces: seq<seq<byte>>, b: byte)
    requires Splits(stream, pieces)
    ensures Splits(stream + [b], Grown(pieces, b))
  {
    var more := Grown(pieces, b);
    if pieces == [] || Closed(pieces[|pieces| - 1]) {
      ConcatSnoc(pieces, [b]);
    } else {
      var n := |pieces| - 1;
      assert more[..n] == pieces[..n];
      assert Concat(more) == Concat(pieces[..n]) + (pieces[n] + [b]);
      assert NEWLINE !in pieces[n];
    }
  }

  /** The part of the stream that has not ended with a newline yet. */
  function Open(pieces: seq<seq<byte>>): seq<byte> {
    if pieces == [] || pieces[|pieces| - 1] == [] || pieces[|pieces| - 1][|pieces[|pieces| - 1]| - 1] == NEWLINE
    then []
    else pieces[|pieces| - 1]
  }

  /** The reader between two bytes: the open line is in the buffer, or it is too
      long, has been reported, and the rest of it is being dropped. */
  ghost predicate Reading(pieces: seq<seq<byte>>, buffer: seq<byte>, discarding: bool, lines: seq<Line>, max: nat) {
    if discarding then
      buffer == [] && |Open(pieces)| > max && lines == CutAll(pieces, max)
    else
      buffer == Open(pieces) && |buffer| <= max
      && lines == if buffer == [] then CutAll(pieces, max) else CutAll(pieces[..|pieces| - 1], max)
  }

  lemma CutAllFront(pieces: seq<seq<byte>>, max: nat)
    requires pieces != []
    ensures CutAll(pieces, max) == CutAll(pieces[..|pieces| - 1], max) + [Cut(pieces[|pieces| - 1], max)]
  {
  }

  lemma GrownOpen(pieces: seq<seq<byte>>, b: byte, max: nat)
    requires forall i :: 0 <= i < |pieces| ==> pieces[i] != []
    ensures Grown(pieces, b) != []
    ensures Grown(pieces, b)[|Grown(pieces, b)| - 1] == Open(pieces) + [b]
    ensures Open(Grown(pieces, b)) == if b == NEWLINE then [] else Open(pieces) + [b]
    ensures CutAll(Grown(pieces, b)[..|Grown(pieces, b)| - 1], max) ==
      if Open(pieces) == [] then CutAll(pieces, max) else CutAll(pieces[..|pieces| - 1], max)
  {
    if Open(pieces) == [] { assert (pieces + [[b]])[..|pieces|] == pieces; }
  }

  /** One byte. */
  method Feed(b: byte, buffer0: seq<byte>, discarding0: bool, lines0: seq<Line>, max: nat,
              ghost stream: seq<byte>, ghost pieces: seq<seq<byte>>)
    returns (buffer: seq<byte>, discarding: bool, lines: seq<Line>, ghost peak: nat)
    requires Reading(pieces, buffer0, discarding0, lines0, max) && Splits(stream, pieces)
    ensures Reading(Grown(pieces, b), buffer, discarding, lines, max)
    ensures peak <= max + 1 && |buffer| <= max
  {
    buffer, discarding, lines := buffer0, discarding0, lines0;
    peak := |buffer|;
    GrownOpen(pieces, b, max);
    CutAllFront(Grown(pieces, b), max);
    if discarding {
      CutAllFront(pieces, max);
      assert (Open(pieces) + [b])[..max] == Open(pieces)[..max];
      if b == NEWLINE { discarding := false; }
      return;
    }
    buffer := buffer + [b];
    peak := |buffer|;
    if b == NEWLINE {
      lines := lines + [Line(buffer, false)];
      buffer := [];
    } else if |buffer| > max {
      lines := lines + [Line(buffer[..max], true)];
      buffer, discarding := [], true;
    }
  }

  lemma OneMoreByte(stream: seq<byte>, chunk: seq<byte>, k: nat)
    requires k < |chunk|
    ensures stream + chunk[..k + 1] == stream + chunk[..k] + [chunk[k]]
  {
  }

  /** The loop over one chunk. */
  method FeedChunk(chunk: seq<byte>, buffer0: seq<byte>, discarding0: bool, lines0: seq<Line>, max: nat,
                   ghost stream0: seq<byte>, ghost pieces0: seq<seq<byte>>)
    returns (buffer: seq<byte>, discarding: bool, lines: seq<Line>, ghost pieces: seq<seq<byte>>, ghost peak: nat)
    requires Splits(stream0, pieces0) && Reading(pieces0, buffer0, discarding0, lines0, max)
    ensures Splits(stream0 + chunk, pieces) && Reading(pieces, buffer, discarding, lines, max)
    ensures peak <= max + 1
  {
    buffer, discarding, lines, pieces, peak := buffer0, discarding0, lines0, pieces0, 0;
    ghost var stream := stream0;
    assert stream == stream0 + chunk[..0];
    hide Reading;
    hide Grown;
    hide Splits;
    var k := 0;
    while k < |chunk|
      invariant 0 <= k <= |chunk| && stream == stream0 + chunk[..k] && Splits(stream, pieces)
      invariant Reading(pieces, buffer, discarding, lines, max)
      invariant peak <= max + 1
    {
      GrownSplits(stream, pieces, chunk[k]);
      OneMoreByte(stream0, chunk, k);
      ghost var high;
      buffer, discarding, lines, high := Feed(chunk[k], buffer, discarding, lines, max, stream, pieces);
      if high > peak { peak := high; }
      pieces, stream := Grown(pieces, chunk[k]), stream + [chunk[k]];
      k := k + 1;
    }
    assert chunk[..k] == chunk;
  }

  /** What is left in the buffer at the end is the unterminated last line. */
  lemma EndOfStream(pieces: seq<seq<byte>>, buffer: seq<byte>, discarding: bool, lines: seq<Line>, max: nat)
    requires Reading(pieces, buffer, discarding, lines, max)
    ensures CutAll(pieces, max) == if buffer != [] && !discarding then lines + [Line(buffer, false)] else lines
  {
    if pieces != [] { CutAllFront(pieces, max); }
  }

  lemma CutIsLines(stream: seq<byte>, pieces: seq<seq<byte>>, max: nat)
    requires Splits(stream, pieces)
    ensures LinesOf(stream, CutAll(pieces, max), max)
  {
  }

  /** `_bounded_lines`: for every chunking, the lines are those of the stream, cut to
      the bound; and the buffer never holds more than one byte beyond it. */
  method BoundedLines(chunks: seq<seq<byte>>, max: nat) returns (lines: seq<Line>, ghost peak: nat)
    ensures LinesOf(Delivered(chunks), lines, max)
    ensures peak <= max + 1
  {
    lines, peak := [], 0;
    var buffer, discarding := [], false;
    ghost var pieces: seq<seq<byte>> := [];
    ghost var stream := [];
    var c := 0;
    assert chunks[0..] == chunks;
    assert Splits(stream, pieces) && Reading(pieces, buffer, discarding, lines, max);
    hide Splits;
    hide LinesOf;
    hide CutAll;
    hide Reading;
    while c < |chunks|
      invariant 0 <= c <= |chunks| && Delivered(chunks) == stream + Delivered(chunks[c..])
      invariant Splits(stream, pieces) && Reading(pieces, buffer, discarding, lines, max)
      invariant peak <= max + 1
    {
      var chunk := chunks[c];
      if chunk == [] { break; }
      assert chunks[c..][1..] == chunks[c + 1..];
      assert stream + (chunk + Delivered(chunks[c + 1..])) == stream + chunk + Delivered(chunks[c + 1..]);
      ghost var high;
      buffer, discarding, lines, pieces, high := FeedChunk(chunk, buffer, discarding, lines, max, stream, pieces);
      if high > peak { peak := high; }
      stream := stream + chunk;
      c := c + 1;
    }
    assert Delivered(chunks[c..]) == [] && stream == Delivered(chunks);
    CutIsLines(stream, pieces, max);
    EndOfStream(pieces, buffer, discarding, lines, max);
    if buffer != [] && !discarding { lines := lines + [Line(buffer, false)]; }
  }
}
