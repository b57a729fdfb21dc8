/** What a Cursor capture holds, read off the file: one record for each line, one frame for each
  * record, one event for each part; and which files are captured at all. */
module CursorShows {
  import opened Base
  import opened CodexLines
  import opened CursorCapture

  // ---------------------------------------------------------------- records

  /** The line without its newline. */
  function Content(bytes: seq<byte>, l: Line): seq<byte>
    requires l.start < l.end <= |bytes|
  {
    bytes[l.start..l.end - 1]
  }

  predicate LinesIn(bytes: seq<byte>, lines: seq<Line>) {
    forall k :: 0 <= k < |lines| ==> lines[k].start < lines[k].end <= |bytes|
  }

  /** The line is closed, not too long and decodes to a supported row. */
  predicate LineReads(bytes: seq<byte>, l: Line, decode: Decoder, lim: Limits)
    requires l.start < l.end <= |bytes|
  {
    bytes[l.end - 1] == Newline && |Content(bytes, l)| <= lim.rowBytes && decode(Content(bytes, l)).Some?
  }

  lemma {:induction false} LinesFrom(bytes: seq<byte>, at: nat)
    requires at <= |bytes|
    ensures LinesIn(bytes, Lines(bytes, at, |bytes|))
    decreases |bytes| - at
  {
    if at < |bytes| {
      LinesFrom(bytes, LineEnd(bytes, at, |bytes|));
    }
  }

  lemma {:induction false} RecordsFromExactly(bytes: seq<byte>, at: nat, count: nat, decode: Decoder, lim: Limits)
    requires at <= |bytes| && count <= lim.records
    ensures var lines := Lines(bytes, at, |bytes|);
            && LinesIn(bytes, lines)
            && (RecordsFrom(bytes, at, count, decode, lim).Ok? <==>
                  count + |lines| <= lim.records
                  && forall k :: 0 <= k < |lines| ==> LineReads(bytes, lines[k], decode, lim))
            && (RecordsFrom(bytes, at, count, decode, lim).Ok? ==>
                  var records := RecordsFrom(bytes, at, count, decode, lim).value;
                  && |records| == |lines|
                  && forall k :: 0 <= k < |lines| ==>
                       LineReads(bytes, lines[k], decode, lim)
                       && records[k] == Record(count + k + 1, decode(Content(bytes, lines[k])).value))
    decreases |bytes| - at
  {
    hide LineReads, LineEnd;
    LinesFrom(bytes, at);
    if at < |bytes| {
      var stop := LineEnd(bytes, at, |bytes|);
      var lines, rest := Lines(bytes, at, |bytes|), Lines(bytes, stop, |bytes|);
      assert lines == [Line(at, stop)] + rest;
      assert forall k :: 0 <= k < |rest| ==> lines[k + 1] == rest[k];
      FirstLineReads(bytes, lines[0], decode, lim);
      if count < lim.records {
        RecordsFromExactly(bytes, stop, count + 1, decode, lim);
      }
    }
  }

  lemma FirstLineReads(bytes: seq<byte>, l: Line, decode: Decoder, lim: Limits)
    requires l.start < l.end <= |bytes|
    ensures LineReads(bytes, l, decode, lim) <==>
            bytes[l.end - 1] == Newline && l.end - 1 - l.start <= lim.rowBytes
            && decode(bytes[l.start..l.end - 1]).Some?
  {
  }

  /** A file is read exactly if each of its lines is closed, fits and decodes, and there are not too
    * many. Then record `k` is what line `k` decodes to, under its line number. */
  lemma RecordsExactly(bytes: seq<byte>, decode: Decoder, lim: Limits)
    ensures var lines := Lines(bytes, 0, |bytes|);
            && LinesIn(bytes, lines)
            && (RecordsFrom(bytes, 0, 0, decode, lim).Ok? <==>
                  |lines| <= lim.records && forall k :: 0 <= k < |lines| ==> LineReads(bytes, lines[k], decode, lim))
            && (RecordsFrom(bytes, 0, 0, decode, lim).Ok? ==>
                  var records := RecordsFrom(bytes, 0, 0, decode, lim).value;
                  && |records| == |lines|
                  && forall k :: 0 <= k < |lines| ==>
                       LineReads(bytes, lines[k], decode, lim)
                       && records[k] == Record(k + 1, decode(Content(bytes, lines[k])).value))
  {
    RecordsFromExactly(bytes, 0, 0, decode, lim);
    hide LineReads, RecordsFrom, Lines;
  }

  // ---------------------------------------------------------------- frames

  function PartCount(r: Record): nat {
    if r.row.MessageRow? then |r.row.parts| else 0
  }

  /** The parts of the first `n` records. */
  function PartsBefore(records: seq<Record>, n: nat): nat
    requires n <= |records|
  {
    if n == 0 then 0 else PartsBefore(records, n - 1) + PartCount(records[n - 1])
  }

  /** The frame of one record: its line, its parts numbered through, its row as Raw. */
  predicate Shows(f: Frame, r: Record, from: nat, raw: bool) {
    && f.line == r.line && f.raw == (if raw then Some(r.row.code) else None)
    && |f.events| == PartCount(r)
    && forall j :: 0 <= j < |f.events| ==> f.events[j] == Event(r.line, j, from + j, r.row.parts[j])
  }

  lemma {:induction false} PartsCons(records: seq<Record>, n: nat)
    requires 0 < n <= |records|
    ensures PartsBefore(records, n) == PartCount(records[0]) + PartsBefore(records[1..], n - 1)
    decreases n
  {
    if n > 1 {
      PartsCons(records, n - 1);
    }
  }

  predicate PartsFit(records: seq<Record>) {
    forall k :: 0 <= k < |records| ==> PartCount(records[k]) <= FrameEvents
  }

  lemma {:induction false} ProjectFits(records: seq<Record>, from: nat, raw: bool, lim: Limits)
    requires from <= lim.events
    ensures Project(records, from, raw, lim).Ok? <==>
            from + PartsBefore(records, |records|) <= lim.events && PartsFit(records)
    ensures Project(records, from, raw, lim).Ok? ==> |Project(records, from, raw, lim).value| == |records|
    decreases |records|
  {
    hide ProjectRow, PartCount, PartsFit, PartsBefore;
    if records != [] {
      var first := ProjectRow(records[0], from, raw);
      RowShows(records[0], from, raw);
      PartsCons(records, |records|);
      FitsCons(records);
      if from + |first.events| <= lim.events {
        ProjectFits(records[1..], from + |first.events|, raw, lim);
      }
    } else {
      NothingToFit();
    }
  }

  lemma NothingToFit()
    ensures PartsFit([]) && PartsBefore([], 0) == 0
  {
  }

  lemma {:induction false} FrameAt(records: seq<Record>, from: nat, raw: bool, lim: Limits, k: nat)
    requires from <= lim.events && Project(records, from, raw, lim).Ok? && k < |records|
    ensures |Project(records, from, raw, lim).value| == |records|
    ensures Shows(Project(records, from, raw, lim).value[k], records[k], from + PartsBefore(records, k), raw)
    decreases k
  {
    hide ProjectRow, PartCount, PartsFit, Shows;
    ProjectFits(records, from, raw, lim);
    var first, rest := ProjectRow(records[0], from, raw), records[1..];
    RowShows(records[0], from, raw);
    if k > 0 {
      PartsCons(records, k);
      FrameAt(rest, from + |first.events|, raw, lim, k - 1);
      assert Project(records, from, raw, lim).value
             == [first] + Project(rest, from + |first.events|, raw, lim).value;
      assert records[k] == rest[k - 1];
    }
  }

  lemma RowShows(r: Record, from: nat, raw: bool)
    ensures Shows(ProjectRow(r, from, raw), r, from, raw) && |ProjectRow(r, from, raw).events| == PartCount(r)
  {
  }

  lemma FitsCons(records: seq<Record>)
    requires records != []
    ensures PartsFit(records) <==> PartCount(records[0]) <= FrameEvents && PartsFit(records[1..])
  {
    hide PartCount;
    assert forall k :: 0 < k < |records| ==> records[k] == records[1..][k - 1];
  }

  /** A capture opens exactly if the file reads, its parts fit the event budgets, and it still starts
    * with the receipt's prefix and the checkpoint's. */
  lemma OpensExactly(bytes: seq<byte>, receipt: Prefix, prior: Option<Prefix>, raw: bool, decode: Decoder, lim: Limits)
    ensures Open(bytes, receipt, prior, raw, decode, lim).Ok? <==>
            && RecordsFrom(bytes, 0, 0, decode, lim).Ok?
            && Contains(bytes, receipt) && (prior.Some? ==> Contains(bytes, prior.value))
            && var records := RecordsFrom(bytes, 0, 0, decode, lim).value;
               PartsBefore(records, |records|) <= lim.events && PartsFit(records)
    ensures Open(bytes, receipt, prior, raw, decode, lim).Ok? ==>
              var c := Open(bytes, receipt, prior, raw, decode, lim).value;
              && c.snapshot.bytes == bytes && RecordsFrom(bytes, 0, 0, decode, lim) == Ok(c.snapshot.records)
              && c.snapshot.prefix == Prefix(|bytes|, |c.snapshot.records|, bytes)
              && |c.frames| == |c.snapshot.records|
              && forall k :: 0 <= k < |c.frames| ==>
                   Shows(c.frames[k], c.snapshot.records[k], PartsBefore(c.snapshot.records, k), raw)
  {
    hide RecordsFrom, Project, Contains, Shows, PartsFit, PartsBefore;
    var records := RecordsFrom(bytes, 0, 0, decode, lim);
    var required := [receipt] + if prior.Some? then [prior.value] else [];
    assert (forall k :: 0 <= k < |required| ==> Contains(bytes, required[k])) <==>
           Contains(bytes, required[0]) && (prior.Some? ==> Contains(bytes, required[1]));
    if records.Ok? {
      ProjectFits(records.value, 0, raw, lim);
      var frames := Project(records.value, 0, raw, lim);
      if frames.Ok? {
        forall k | 0 <= k < |records.value|
          ensures Shows(frames.value[k], records.value[k], PartsBefore(records.value, k), raw)
        {
          FrameAt(records.value, 0, raw, lim, k);
        }
      }
    }
  }
}
