/** Reading JSONL records block by block, and what a line of a file is. */
module CodexLines {
  import opened Base

  newtype byte = x: int | 0 <= x < 256

  const Newline: byte := 10
  const MaxRecordBytes := 16 * 1024 * 1024

  /** The bytes `start .. end` of a file. */
  datatype Line = Line(start: nat, end: nat)

  predicate NoNewline(bytes: seq<byte>, from: nat, to: nat)
    requires to <= |bytes|
  {
    forall k :: from <= k < to ==> bytes[k] != Newline
  }

  /** Where the line that begins at `at` ends: behind its newline, or at the end. */
  function LineEnd(bytes: seq<byte>, at: nat, end: nat): (stop: nat)
    requires at < end <= |bytes|
    ensures at < stop <= end && NoNewline(bytes, at, stop - 1)
    ensures bytes[stop - 1] == Newline || stop == end
    decreases end - at
  {
    if bytes[at] == Newline || at + 1 == end then at + 1 else LineEnd(bytes, at + 1, end)
  }

  function Lines(bytes: seq<byte>, at: nat, end: nat): seq<Line>
    requires at <= end <= |bytes|
    decreases end - at
  {
    if at == end then []
    else var stop := LineEnd(bytes, at, end); [Line(at, stop)] + Lines(bytes, stop, end)
  }

  // ---------------------------------------------------------------- lines tile the file

  /** One line: a newline at its end and nowhere else, or no newline and the end of the file. */
  predicate IsLine(bytes: seq<byte>, end: nat, l: Line) {
    && l.start < l.end <= end <= |bytes| && NoNewline(bytes, l.start, l.end - 1)
    && (bytes[l.end - 1] == Newline || l.end == end)
  }

  /** The lines cover `at .. end` without gap or overlap. */
  predicate Tile(bytes: seq<byte>, lines: seq<Line>, at: nat, end: nat)
    decreases |lines|
  {
    if lines == [] then at == end
    else lines[0].start == at && IsLine(bytes, end, lines[0]) && Tile(bytes, lines[1..], lines[0].end, end)
  }

  lemma {:induction false} LinesTile(bytes: seq<byte>, at: nat, end: nat)
    requires at <= end <= |bytes|
    ensures Tile(bytes, Lines(bytes, at, end), at, end)
    decreases end - at
  {
    if at < end {
      LinesTile(bytes, LineEnd(bytes, at, end), end);
    }
  }

  /** The tiling of a range is unique: there is one way to cut a file into lines. */
  lemma {:induction false} TileIsLines(bytes: seq<byte>, lines: seq<Line>, at: nat, end: nat)
    requires at <= end <= |bytes| && Tile(bytes, lines, at, end)
    ensures lines == Lines(bytes, at, end)
    decreases |lines|
  {
    if lines != [] {
      if bytes[lines[0].end - 1] == Newline {
        LineEndAt(bytes, at, end, lines[0].end - 1);
      } else {
        LineEndBeyond(bytes, at, end, end);
      }
      TileIsLines(bytes, lines[1..], lines[0].end, end);
    }
  }

  /** A newline decides where the line before it ends, whatever comes later. */
  lemma {:induction false} LineEndAt(bytes: seq<byte>, at: nat, end: nat, newline: nat)
    requires at <= newline < end <= |bytes| && bytes[newline] == Newline && NoNewline(bytes, at, newline)
    ensures LineEnd(bytes, at, end) == newline + 1
    decreases newline - at
  {
    if at < newline {
      LineEndAt(bytes, at + 1, end, newline);
    }
  }

  /** Without a newline before `stop` the line reaches at least there. */
  lemma {:induction false} LineEndBeyond(bytes: seq<byte>, at: nat, end: nat, stop: nat)
    requires at < stop <= end <= |bytes| && NoNewline(bytes, at, stop)
    ensures LineEnd(bytes, at, end) >= stop
    decreases stop - at
  {
    if at + 1 < stop {
      LineEndBeyond(bytes, at + 1, end, stop);
    }
  }

  // ---------------------------------------------------------------- the reading loop

  /** `indexOf(0x0a)` on the pending bytes `from .. to`. */
  method IndexOfNewline(bytes: seq<byte>, from: nat, to: nat) returns (index: Option<nat>)
    requires from <= to <= |bytes|
    ensures index.Some? ==>
              from <= index.value < to && bytes[index.value] == Newline && NoNewline(bytes, from, index.value)
    ensures index.None? ==> NoNewline(bytes, from, to)
  {
    var at := from;
    while at < to
      invariant from <= at <= to && NoNewline(bytes, from, at)
    {
      if bytes[at] == Newline {
        return Some(at);
      }
      at := at + 1;
    }
    index := None;
  }

  predicate AllShort(lines: seq<Line>) {
    forall k :: 0 <= k < |lines| ==> lines[k].end - lines[k].start <= MaxRecordBytes
  }

  lemma LongLineStays(bytes: seq<byte>, start: nat, lines: seq<Line>, at: nat, end: nat, stop: nat)
    requires start <= at <= end <= |bytes| && Lines(bytes, start, end) == lines + Lines(bytes, at, end)
    requires at < stop <= end && NoNewline(bytes, at, stop) && stop - at > MaxRecordBytes
    ensures !AllShort(Lines(bytes, start, end))
  {
    LineEndBeyond(bytes, at, end, stop);
    assert Lines(bytes, start, end)[|lines|] == Lines(bytes, at, end)[0];
  }

  lemma NextLine(bytes: seq<byte>, end: nat, at: nat, newline: nat, lines: seq<Line>)
    requires at <= newline < end <= |bytes| && bytes[newline] == Newline && NoNewline(bytes, at, newline)
    ensures lines + Lines(bytes, at, end) == (lines + [Line(at, newline + 1)]) + Lines(bytes, newline + 1, end)
  {
    LineEndAt(bytes, at, end, newline);
    Assoc(lines, [Line(at, newline + 1)], Lines(bytes, newline + 1, end));
  }

  /** Consumes the complete lines of the pending bytes `at .. position`. */
  method TakeLines(bytes: seq<byte>, end: nat, at: nat, position: nat) returns (lines: seq<Line>, rest: nat)
    requires at <= position <= end <= |bytes|
    ensures at <= rest <= position && NoNewline(bytes, rest, position)
    ensures Lines(bytes, at, end) == lines + Lines(bytes, rest, end)
  {
    lines, rest := [], at;
    var newline := IndexOfNewline(bytes, rest, position);
    while newline.Some?
      invariant at <= rest <= position
      invariant newline.Some? ==>
                  rest <= newline.value < position && bytes[newline.value] == Newline
                  && NoNewline(bytes, rest, newline.value)
      invariant newline.None? ==> NoNewline(bytes, rest, position)
      invariant Lines(bytes, at, end) == lines + Lines(bytes, rest, end)
      decreases position - rest, newline.Some?
    {
      NextLine(bytes, end, rest, newline.value, lines);
      lines := lines + [Line(rest, newline.value + 1)];
      rest := newline.value + 1;
      newline := IndexOfNewline(bytes, rest, position);
    }
  }

  /** `readLines`: yields the file's lines whatever the block size, unless one is too long. */
  method ReadLines(bytes: seq<byte>, start: nat, end: nat, block: nat) returns (r: Result<seq<Line>>)
    requires start <= end <= |bytes| && block > 0
    ensures r.Ok? ==> r.value == Lines(bytes, start, end)
    ensures r.Err? ==> !AllShort(Lines(bytes, start, end))
  {
    var lines, position, pendingStart := [], start, start;
    while position < end
      invariant start <= pendingStart <= position <= end
      invariant NoNewline(bytes, pendingStart, position)
      invariant Lines(bytes, start, end) == lines + Lines(bytes, pendingStart, end)
      decreases end - position
    {
      position := position + Min(block, end - position);
      var more, rest := TakeLines(bytes, end, pendingStart, position);
      Assoc(lines, more, Lines(bytes, rest, end));
      lines, pendingStart := lines + more, rest;
      if position - pendingStart > MaxRecordBytes {
        LongLineStays(bytes, start, lines, pendingStart, end, position);
        return Err(Limit);
      }
    }
    if pendingStart < position {
      LineEndBeyond(bytes, pendingStart, end, end);
      assert Lines(bytes, end, end) == [];
      lines := lines + [Line(pendingStart, position)];
    }
    assert lines + [] == lines;
    r := Ok(lines);
  }
}
