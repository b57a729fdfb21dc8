/** `readRecords`: the complete lines of a Claude file, read block by block. */
module ClaudeLines {
  import opened Base
  import opened CodexLines

  predicate Terminated(bytes: seq<byte>, l: Line) {
    0 < l.end <= |bytes| && bytes[l.end - 1] == Newline
  }

  /** The lines that end in a newline; what follows the last one is still being written. */
  function Complete(bytes: seq<byte>, lines: seq<Line>): seq<Line> {
    if lines != [] && !Terminated(bytes, lines[|lines| - 1]) then lines[..|lines| - 1] else lines
  }

  /** A record may be as long as the limit. An unfinished one must stay below it, unless the limit
    * is the adapter's largest. */
  predicate Short(bytes: seq<byte>, l: Line, limit: nat) {
    var size := l.end - l.start;
    if Terminated(bytes, l) then size <= limit else size < limit || (size == limit && limit == MaxRecordBytes)
  }

  predicate AllShort(bytes: seq<byte>, lines: seq<Line>, limit: nat) {
    forall k :: 0 <= k < |lines| ==> Short(bytes, lines[k], limit)
  }

  /** A line that is too long makes the whole file too long. */
  lemma LongLine(bytes: seq<byte>, start: nat, lines: seq<Line>, at: nat, end: nat, limit: nat)
    requires start <= at < end <= |bytes| && Lines(bytes, start, end) == lines + Lines(bytes, at, end)
    requires !Short(bytes, Line(at, LineEnd(bytes, at, end)), limit)
    ensures !AllShort(bytes, Lines(bytes, start, end), limit)
  {
    assert Lines(bytes, start, end)[|lines|] == Lines(bytes, at, end)[0];
  }

  /** An unfinished line that already fills the limit ends too late. */
  lemma PendingIsLong(bytes: seq<byte>, at: nat, stop: nat, end: nat, limit: nat)
    requires at < stop <= end <= |bytes| && NoNewline(bytes, at, stop)
    requires stop - at > limit || (limit != MaxRecordBytes && stop - at == limit)
    ensures !Short(bytes, Line(at, LineEnd(bytes, at, end)), limit)
  {
    LineEndBeyond(bytes, at, end, stop);
  }

  lemma RecordShort(bytes: seq<byte>, at: nat, newline: nat, limit: nat)
    requires at <= newline < |bytes| && bytes[newline] == Newline
    ensures Terminated(bytes, Line(at, newline + 1))
    ensures Short(bytes, Line(at, newline + 1), limit) <==> newline + 1 - at <= limit
  {
  }

  /** The complete lines in the pending bytes `at .. position`, each within the limit. */
  method TakeRecords(bytes: seq<byte>, end: nat, at: nat, position: nat, limit: nat, start: nat,
                     ghost before: seq<Line>)
    returns (r: Result<(seq<Line>, nat)>)
    requires start <= at <= position <= end <= |bytes| && Lines(bytes, start, end) == before + Lines(bytes, at, end)
    ensures r.Ok? ==>
              && at <= r.value.1 <= position && NoNewline(bytes, r.value.1, position)
              && AllShort(bytes, r.value.0, limit)
                 && (forall k :: 0 <= k < |r.value.0| ==> Terminated(bytes, r.value.0[k]))
              && Lines(bytes, start, end) == before + r.value.0 + Lines(bytes, r.value.1, end)
    ensures r.Err? ==> r == Err(Limit) && !AllShort(bytes, Lines(bytes, start, end), limit)
  {
    hide Lines, LineEnd, Short, Terminated;
    var lines: seq<Line>, rest := [], at;
    var newline := IndexOfNewline(bytes, rest, position);
    assert before + [] == before;
    while newline.Some?
      invariant at <= rest <= position
      invariant newline.Some? ==>
                  rest <= newline.value < position && bytes[newline.value] == Newline
                  && NoNewline(bytes, rest, newline.value)
      invariant newline.None? ==> NoNewline(bytes, rest, position)
      invariant AllShort(bytes, lines, limit) && forall k :: 0 <= k < |lines| ==> Terminated(bytes, lines[k])
      invariant Lines(bytes, start, end) == before + lines + Lines(bytes, rest, end)
      decreases position - rest, newline.Some?
    {
      LineEndAt(bytes, rest, end, newline.value);
      RecordShort(bytes, rest, newline.value, limit);
      if newline.value + 1 - rest > limit {
        LongLine(bytes, start, before + lines, rest, end, limit);
        return Err(Limit);
      }
      NextLine(bytes, end, rest, newline.value, before + lines);
      Assoc(before, lines, [Line(rest, newline.value + 1)]);
      lines := lines + [Line(rest, newline.value + 1)];
      rest := newline.value + 1;
      newline := IndexOfNewline(bytes, rest, position);
    }
    r := Ok((lines, rest));
  }

  lemma ShortAppend(bytes: seq<byte>, a: seq<Line>, b: seq<Line>, limit: nat)
    requires AllShort(bytes, a, limit) && AllShort(bytes, b, limit)
    ensures AllShort(bytes, a + b, limit)
  {
  }

  /** At the end of the file only an unfinished line can be left. */
  lemma EndOfFile(bytes: seq<byte>, start: nat, at: nat, end: nat, lines: seq<Line>, limit: nat)
    requires start <= at <= end <= |bytes| && NoNewline(bytes, at, end)
             && Lines(bytes, start, end) == lines + Lines(bytes, at, end)
    requires AllShort(bytes, lines, limit) && forall k :: 0 <= k < |lines| ==> Terminated(bytes, lines[k])
    requires end - at < limit || (end - at == limit && limit == MaxRecordBytes) || at == end
    ensures AllShort(bytes, Lines(bytes, start, end), limit) && lines == Complete(bytes, Lines(bytes, start, end))
  {
    hide Lines, Short, Terminated;
    if at < end {
      UnfinishedLine(bytes, at, end, limit);
      ShortAppend(bytes, lines, [Line(at, end)], limit);
      assert (lines + [Line(at, end)])[..|lines|] == lines;
    } else {
      NoLines(bytes, at);
      assert lines + [] == lines;
    }
  }

  lemma NoLines(bytes: seq<byte>, at: nat)
    requires at <= |bytes|
    ensures Lines(bytes, at, at) == []
  {
  }

  /** Bytes without a newline are one unfinished line. */
  lemma UnfinishedLine(bytes: seq<byte>, at: nat, end: nat, limit: nat)
    requires at < end <= |bytes| && NoNewline(bytes, at, end)
    requires end - at < limit || (end - at == limit && limit == MaxRecordBytes)
    ensures Lines(bytes, at, end) == [Line(at, end)] && !Terminated(bytes, Line(at, end))
    ensures AllShort(bytes, [Line(at, end)], limit)
  {
    LineEndBeyond(bytes, at, end, end);
    NoLines(bytes, end);
    assert [Line(at, end)] + [] == [Line(at, end)];
  }

  /** `readRecords`. Whatever the block size, it yields exactly the complete lines, and it fails
    * exactly when a line is too long for the limit. */
  method ReadRecords(bytes: seq<byte>, start: nat, end: nat, limit: nat, block: nat) returns (r: Result<seq<Line>>)
    requires start <= end <= |bytes| && block > 0 && limit > 0
    ensures r.Ok? <==> AllShort(bytes, Lines(bytes, start, end), limit)
    ensures r.Ok? ==> r.value == Complete(bytes, Lines(bytes, start, end))
    ensures r.Err? ==> r == Err(Limit)
  {
    hide Lines, Short, Terminated;
    var lines: seq<Line>, at, lineStart := [], start, start;
    while at < end
      invariant start <= lineStart <= at <= end && NoNewline(bytes, lineStart, at)
      invariant Lines(bytes, start, end) == lines + Lines(bytes, lineStart, end)
      invariant AllShort(bytes, lines, limit) && forall k :: 0 <= k < |lines| ==> Terminated(bytes, lines[k])
      invariant at - lineStart < limit || (at - lineStart == limit && limit == MaxRecordBytes)
      decreases end - at
    {
      at := at + Min(block, end - at);
      var taken := TakeRecords(bytes, end, lineStart, at, limit, start, lines);
      if taken.Err? {
        return Err(Limit);
      }
      ShortAppend(bytes, lines, taken.value.0, limit);
      lines, lineStart := lines + taken.value.0, taken.value.1;
      var pending := at - lineStart;
      if pending > limit || (limit != MaxRecordBytes && pending == limit) {
        PendingIsLong(bytes, lineStart, at, end, limit);
        LongLine(bytes, start, lines, lineStart, end, limit);
        return Err(Limit);
      }
    }
    EndOfFile(bytes, start, lineStart, end, lines, limit);
    r := Ok(lines);
  }
}
