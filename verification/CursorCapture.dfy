/** Cursor captures: reading a transcript, the required-prefix check, and why successive captures
  * only ever extend each other. */
module CursorCapture {
  import opened Base
  import opened CodexLines

  /** A transcript row: a message with its parts, or the end of a turn. `code` is the row's content. */
  datatype Part = TextPart(text: string) | ToolPart(name: string, input: string)

  datatype Row = MessageRow(user: bool, parts: seq<Part>, code: int) | TurnEnded(code: int)

  datatype Record = Record(line: nat, row: Row)

  datatype Limits = Limits(records: nat, rowBytes: nat, events: nat)

  /** `decode` stands for UTF-8, JSON and schema; None is a row the source does not support. */
  type Decoder = seq<byte> -> Option<Row>

  // ---------------------------------------------------------------- records

  /** The records of the bytes behind `at`; `count` were read before. */
  function RecordsFrom(bytes: seq<byte>, at: nat, count: nat, decode: Decoder, lim: Limits): Result<seq<Record>>
    requires at <= |bytes|
    decreases |bytes| - at
  {
    if at == |bytes| then Ok([])
    else if count >= lim.records then Err(Limit)
    else
      var stop := LineEnd(bytes, at, |bytes|);
      if bytes[stop - 1] != Newline then (if |bytes| - at > lim.rowBytes then Err(Limit) else Err(Changed))
      else if stop - 1 - at > lim.rowBytes then Err(Limit)
      else
        var row := decode(bytes[at..stop - 1]);
        if row.None? then Err(Unsupported)
        else
          var rest :- RecordsFrom(bytes, stop, count + 1, decode, lim);
          Ok([Record(count + 1, row.value)] + rest)
  }

  /** Complete: empty, or ending with a newline. */
  predicate Complete(bytes: seq<byte>) {
    bytes == [] || bytes[|bytes| - 1] == Newline
  }

  lemma {:induction false} ReadIsComplete(bytes: seq<byte>, at: nat, count: nat, decode: Decoder, lim: Limits)
    requires at <= |bytes| && RecordsFrom(bytes, at, count, decode, lim).Ok?
    ensures at < |bytes| ==> bytes[|bytes| - 1] == Newline
    decreases |bytes| - at
  {
    if at < |bytes| {
      ReadIsComplete(bytes, LineEnd(bytes, at, |bytes|), count + 1, decode, lim);
    }
  }

  /** Whether a line ends before `|a|` does not depend on what follows a newline-closed prefix. */
  lemma {:induction false} SameLineEnd(a: seq<byte>, b: seq<byte>, at: nat)
    requires a <= b && at < |a| && Complete(a)
    ensures LineEnd(a, at, |a|) == LineEnd(b, at, |b|) && b[LineEnd(b, at, |b|) - 1] == Newline
    decreases |a| - at
  {
    if a[at] != Newline {
      SameLineEnd(a, b, at + 1);
    }
  }

  lemma PrefixCons<T>(x: T, a: seq<T>, b: seq<T>)
    ensures a <= b ==> [x] + a <= [x] + b
  {
  }

  /** A complete prefix of a readable transcript is read to a prefix of its records, whatever the
    * limits of either reading. */
  lemma {:induction false} PrefixRecords(a: seq<byte>, b: seq<byte>, at: nat, count: nat, decode: Decoder, la: Limits,
                                         lb: Limits)
    requires a <= b && at <= |a| && Complete(a)
    requires RecordsFrom(a, at, count, decode, la).Ok? && RecordsFrom(b, at, count, decode, lb).Ok?
    ensures RecordsFrom(a, at, count, decode, la).value <= RecordsFrom(b, at, count, decode, lb).value
    decreases |a| - at
  {
    if at < |a| {
      SameLineEnd(a, b, at);
      var stop := LineEnd(a, at, |a|);
      assert a[at..stop - 1] == b[at..stop - 1];
      PrefixRecords(a, b, stop, count + 1, decode, la, lb);
      PrefixCons(Record(count + 1, decode(a[at..stop - 1]).value), RecordsFrom(a, stop, count + 1, decode, la).value,
                 RecordsFrom(b, stop, count + 1, decode, lb).value);
    }
  }

  // ---------------------------------------------------------------- required prefixes

  /** A checkpoint: length, row count and hash. The hash is taken to be injective, so `digest` is
    * the hashed content itself. */
  datatype Prefix = Prefix(bytes: nat, rows: nat, digest: seq<byte>)

  function Newlines(bytes: seq<byte>): nat {
    if bytes == [] then 0 else Newlines(bytes[..|bytes| - 1]) + if bytes[|bytes| - 1] == Newline then 1 else 0
  }

  /** The file still starts with the required prefix. */
  predicate Contains(bytes: seq<byte>, p: Prefix) {
    && 0 < p.bytes <= |bytes| && bytes[p.bytes - 1] == Newline
    && Newlines(bytes[..p.bytes]) == p.rows && bytes[..p.bytes] == p.digest
  }

  datatype Snapshot = Snapshot(bytes: seq<byte>, records: seq<Record>, prefix: Prefix)

  /** `readCursorSource` on one stable file. */
  function ReadSource(bytes: seq<byte>, required: seq<Prefix>, decode: Decoder, lim: Limits): Result<Snapshot> {
    var records :- RecordsFrom(bytes, 0, 0, decode, lim);
    if forall k :: 0 <= k < |required| ==> Contains(bytes, required[k])
    then Ok(Snapshot(bytes, records, Prefix(|bytes|, |records|, bytes)))
    else Err(Changed)
  }

  // ---------------------------------------------------------------- projection

  /** An event keeps its row, its part and its number. */
  datatype Event = Event(line: nat, part: nat, index: nat, content: Part)

  datatype Frame = Frame(line: nat, events: seq<Event>, raw: Option<int>)

  function EventsOf(line: nat, parts: seq<Part>, from: nat): (r: seq<Event>)
    ensures |r| == |parts|
  {
    seq(|parts|, k requires 0 <= k < |parts| => Event(line, k, from + k, parts[k]))
  }

  const FrameEvents := 500

  function ProjectRow(r: Record, from: nat, raw: bool): Frame {
    Frame(r.line,
          if r.row.MessageRow? then EventsOf(r.line, r.row.parts, from) else [], if raw then Some(r.row.code) else None)
  }

  /** The frames of the records, numbered from `from`. */
  function Project(records: seq<Record>, from: nat, raw: bool, lim: Limits): Result<seq<Frame>>
    decreases |records|
  {
    if records == [] then Ok([])
    else
      var f := ProjectRow(records[0], from, raw);
      if |f.events| > FrameEvents || from + |f.events| > lim.events then Err(Limit)
      else
        var rest :- Project(records[1..], from + |f.events|, raw, lim);
        Ok([f] + rest)
  }

  lemma {:induction false} PrefixFrames(a: seq<Record>, b: seq<Record>, from: nat, raw: bool, la: Limits, lb: Limits)
    requires a <= b && Project(a, from, raw, la).Ok? && Project(b, from, raw, lb).Ok?
    ensures Project(a, from, raw, la).value <= Project(b, from, raw, lb).value
    decreases |a|
  {
    hide ProjectRow;
    if a != [] {
      assert a[1..] <= b[1..] && a[0] == b[0];
      PrefixCons(ProjectRow(a[0], from, raw),
                 Project(a[1..], from + |ProjectRow(a[0], from, raw).events|, raw, la).value,
                 Project(b[1..], from + |ProjectRow(a[0], from, raw).events|, raw, lb).value);
      PrefixFrames(a[1..], b[1..], from + |ProjectRow(a[0], from, raw).events|, raw, la, lb);
    }
  }

  // ---------------------------------------------------------------- captures

  datatype Capture = Capture(snapshot: Snapshot, frames: seq<Frame>)

  /** `openCapture`: the creation receipt's prefix and the prior checkpoint must still be there. */
  function Open(bytes: seq<byte>, receipt: Prefix, prior: Option<Prefix>, raw: bool, decode: Decoder,
                lim: Limits): Result<Capture> {
    var snapshot :- ReadSource(bytes, [receipt] + (if prior.Some? then [prior.value] else []), decode, lim);
    var frames :- Project(snapshot.records, 0, raw, lim);
    Ok(Capture(snapshot, frames))
  }

  /** One observation of the file, with the limits it was asked for. */
  datatype Observation = Observation(bytes: seq<byte>, lim: Limits)

  /** Captures one after the other, each requiring the checkpoint of the one before. */
  function Chain(seen: seq<Observation>, receipt: Prefix, raw: bool, decode: Decoder, n: nat): Result<Capture>
    requires 0 < n <= |seen|
  {
    if n == 1 then Open(seen[0].bytes, receipt, None, raw, decode, seen[0].lim)
    else
      var before :- Chain(seen, receipt, raw, decode, n - 1);
      Open(seen[n - 1].bytes, receipt, Some(before.snapshot.prefix), raw, decode, seen[n - 1].lim)
  }

  lemma OpenFacts(bytes: seq<byte>, receipt: Prefix, prior: Option<Prefix>, raw: bool, decode: Decoder, lim: Limits)
    requires Open(bytes, receipt, prior, raw, decode, lim).Ok?
    ensures var c := Open(bytes, receipt, prior, raw, decode, lim).value;
            && c.snapshot.bytes == bytes && RecordsFrom(bytes, 0, 0, decode, lim) == Ok(c.snapshot.records)
            && Project(c.snapshot.records, 0, raw, lim) == Ok(c.frames) && Complete(bytes)
            && c.snapshot.prefix == Prefix(|bytes|, |c.snapshot.records|, bytes)
            && Contains(bytes, receipt) && (prior.Some? ==> Contains(bytes, prior.value))
  {
    hide RecordsFrom, Project, Contains;
    ReadIsComplete(bytes, 0, 0, decode, lim);
    var required := [receipt] + if prior.Some? then [prior.value] else [];
    assert Contains(bytes, required[0]);
    assert prior.Some? ==> Contains(bytes, required[1]);
  }

  /** A capture that an earlier one's checkpoint admitted extends it. */
  lemma ExtendsPrior(before: Capture, lb: Limits, bytes: seq<byte>, receipt: Prefix, raw: bool, decode: Decoder,
                     lim: Limits)
    requires RecordsFrom(before.snapshot.bytes, 0, 0, decode, lb) == Ok(before.snapshot.records)
             && Complete(before.snapshot.bytes)
    requires Project(before.snapshot.records, 0, raw, lb) == Ok(before.frames)
    requires before.snapshot.prefix.bytes == |before.snapshot.bytes|
             && before.snapshot.prefix.digest == before.snapshot.bytes
    requires Open(bytes, receipt, Some(before.snapshot.prefix), raw, decode, lim).Ok?
    ensures var after := Open(bytes, receipt, Some(before.snapshot.prefix), raw, decode, lim).value;
            && before.snapshot.bytes <= bytes && before.snapshot.records <= after.snapshot.records
               && before.frames <= after.frames
  {
    hide RecordsFrom, Project, Open;
    OpenFacts(bytes, receipt, Some(before.snapshot.prefix), raw, decode, lim);
    var after := Open(bytes, receipt, Some(before.snapshot.prefix), raw, decode, lim).value;
    assert before.snapshot.bytes <= bytes;
    PrefixRecords(before.snapshot.bytes, bytes, 0, 0, decode, lb, lim);
    PrefixFrames(before.snapshot.records, after.snapshot.records, 0, raw, lb, lim);
  }

  lemma {:induction false} ChainFacts(seen: seq<Observation>, receipt: Prefix, raw: bool, decode: Decoder, n: nat)
    requires 0 < n <= |seen| && Chain(seen, receipt, raw, decode, n).Ok?
    ensures var c, o := Chain(seen, receipt, raw, decode, n).value, seen[n - 1];
            && c.snapshot.bytes == o.bytes && RecordsFrom(o.bytes, 0, 0, decode, o.lim) == Ok(c.snapshot.records)
            && Project(c.snapshot.records, 0, raw, o.lim) == Ok(c.frames) && Complete(o.bytes)
            && c.snapshot.prefix == Prefix(|o.bytes|, |c.snapshot.records|, o.bytes)
  {
    hide Open, RecordsFrom, Project;
    if n == 1 {
      OpenFacts(seen[0].bytes, receipt, None, raw, decode, seen[0].lim);
    } else {
      OpenFacts(seen[n - 1].bytes, receipt, Some(Chain(seen, receipt, raw, decode, n - 1).value.snapshot.prefix), raw,
                decode, seen[n - 1].lim);
    }
  }

  /** Main result. Along any chain of accepted captures the file content, the records and the frames
    * of an earlier capture are a prefix of those of a later one: no event ever changes its id, its
    * number or its content. */
  lemma {:induction false} CapturesExtend(seen: seq<Observation>, receipt: Prefix, raw: bool, decode: Decoder,
                                          m: nat, n: nat)
    requires 0 < m <= n <= |seen| && Chain(seen, receipt, raw, decode, n).Ok?
    ensures Chain(seen, receipt, raw, decode, m).Ok?
    ensures var early, late := Chain(seen, receipt, raw, decode, m).value, Chain(seen, receipt, raw, decode, n).value;
            && early.snapshot.bytes <= late.snapshot.bytes && early.snapshot.records <= late.snapshot.records
            && early.frames <= late.frames
    decreases n - m
  {
    hide Open, RecordsFrom, Project;
    if m < n {
      var before := Chain(seen, receipt, raw, decode, n - 1).value;
      CapturesExtend(seen, receipt, raw, decode, m, n - 1);
      ChainFacts(seen, receipt, raw, decode, n - 1);
      ChainFacts(seen, receipt, raw, decode, n);
      ExtendsPrior(before, seen[n - 2].lim, seen[n - 1].bytes, receipt, raw, decode, seen[n - 1].lim);
    }
  }

  // ---------------------------------------------------------------- the checkpoint is exact

  function NewlinesIn(bytes: seq<byte>, at: nat): nat
    requires at <= |bytes|
    decreases |bytes| - at
  {
    if at == |bytes| then 0 else (if bytes[at] == Newline then 1 else 0) + NewlinesIn(bytes, at + 1)
  }

  lemma {:induction false} CountFromFront(bytes: seq<byte>, at: nat)
    requires at <= |bytes|
    ensures Newlines(bytes) == Newlines(bytes[..at]) + NewlinesIn(bytes, at)
    decreases |bytes| - at
  {
    if at == |bytes| {
      assert bytes[..at] == bytes;
    } else {
      CountFromFront(bytes, at + 1);
      assert bytes[..at + 1][..at] == bytes[..at];
    }
  }

  lemma {:induction false} OneNewlinePerLine(bytes: seq<byte>, at: nat)
    requires at < |bytes| && bytes[LineEnd(bytes, at, |bytes|) - 1] == Newline
    ensures NewlinesIn(bytes, at) == 1 + NewlinesIn(bytes, LineEnd(bytes, at, |bytes|))
    decreases |bytes| - at
  {
    if bytes[at] != Newline && at + 1 < |bytes| {
      OneNewlinePerLine(bytes, at + 1);
    }
  }

  lemma {:induction false} RowsAreNewlines(bytes: seq<byte>, at: nat, count: nat, decode: Decoder, lim: Limits)
    requires at <= |bytes| && RecordsFrom(bytes, at, count, decode, lim).Ok?
    ensures |RecordsFrom(bytes, at, count, decode, lim).value| == NewlinesIn(bytes, at)
    decreases |bytes| - at
  {
    if at < |bytes| {
      OneNewlinePerLine(bytes, at);
      RowsAreNewlines(bytes, LineEnd(bytes, at, |bytes|), count + 1, decode, lim);
    }
  }

  /** Main result. The checkpoint of a readable transcript is admitted by exactly those files that
    * start with that transcript: appending is always accepted, any other change never. */
  lemma CheckpointExact(a: seq<byte>, b: seq<byte>, decode: Decoder, lim: Limits)
    requires a != [] && RecordsFrom(a, 0, 0, decode, lim).Ok?
    ensures Contains(b, Prefix(|a|, |RecordsFrom(a, 0, 0, decode, lim).value|, a)) <==> a <= b
  {
    ReadIsComplete(a, 0, 0, decode, lim);
    RowsAreNewlines(a, 0, 0, decode, lim);
    CountFromFront(a, 0);
    assert a[..0] == [];
    if a <= b {
      assert b[..|a|] == a;
    }
  }

  // ---------------------------------------------------------------- the loops of the source

  /** `output` is done, and the rest of `whole` is still to come. */
  ghost predicate Continues<T>(whole: Result<seq<T>>, output: seq<T>, rest: Result<seq<T>>) {
    if rest.Err? then whole == rest else whole == Ok(output + rest.value)
  }

  lemma StartLoop<T>(whole: Result<seq<T>>)
    ensures Continues(whole, [], whole)
  {
    assert whole.Ok? ==> [] + whole.value == whole.value;
  }

  lemma EndLoop<T>(whole: Result<seq<T>>, output: seq<T>)
    requires Continues(whole, output, Ok([]))
    ensures whole == Ok(output)
  {
    assert output + [] == output;
  }

  lemma NextItem<T>(whole: Result<seq<T>>, output: seq<T>, item: T, rest: Result<seq<T>>)
    requires Continues(whole, output, if rest.Err? then rest else Ok([item] + rest.value))
    ensures Continues(whole, output + [item], rest)
  {
    if rest.Ok? {
      Assoc(output, [item], rest.value);
    }
  }

  lemma FailedLoop<T>(whole: Result<seq<T>>, output: seq<T>, reason: Reason)
    requires Continues(whole, output, Err(reason))
    ensures whole == Err(reason)
  {
  }

  /** How the records go on behind `at`. */
  lemma RecordStep(bytes: seq<byte>, at: nat, count: nat, decode: Decoder, lim: Limits, newline: Option<nat>)
    requires at < |bytes| && count < lim.records
    requires newline.Some? ==>
               at <= newline.value < |bytes| && bytes[newline.value] == Newline && NoNewline(bytes, at, newline.value)
    requires newline.None? ==> NoNewline(bytes, at, |bytes|)
    ensures var all := RecordsFrom(bytes, at, count, decode, lim);
            if newline.None? then all == Err(if |bytes| - at > lim.rowBytes then Limit else Changed)
            else if newline.value - at > lim.rowBytes then all == Err(Limit)
            else if decode(bytes[at..newline.value]).None? then all == Err(Unsupported)
            else
              var rest := RecordsFrom(bytes, newline.value + 1, count + 1, decode, lim);
              all == if rest.Err? then rest
                     else Ok([Record(count + 1, decode(bytes[at..newline.value]).value)] + rest.value)
  {
    if newline.None? {
      LineEndBeyond(bytes, at, |bytes|, |bytes|);
    } else {
      LineEndAt(bytes, at, |bytes|, newline.value);
    }
  }

  /** `records`. */
  method ReadRecords(bytes: seq<byte>, decode: Decoder, lim: Limits) returns (r: Result<seq<Record>>)
    ensures r == RecordsFrom(bytes, 0, 0, decode, lim)
  {
    hide Continues, NoNewline;
    var output: seq<Record>, offset := [], 0;
    ghost var whole := RecordsFrom(bytes, 0, 0, decode, lim);
    StartLoop(whole);
    while offset < |bytes|
      invariant 0 <= offset <= |bytes|
      invariant Continues(whole, output, RecordsFrom(bytes, offset, |output|, decode, lim))
    {
      if |output| >= lim.records {
        FailedLoop(whole, output, Limit);
        return Err(Limit);
      }
      var newline := IndexOfNewline(bytes, offset, |bytes|);
      RecordStep(bytes, offset, |output|, decode, lim, newline);
      if newline.None? {
        var reason := if |bytes| - offset > lim.rowBytes then Limit else Changed;
        FailedLoop(whole, output, reason);
        return Err(reason);
      }
      if newline.value - offset > lim.rowBytes {
        FailedLoop(whole, output, Limit);
        return Err(Limit);
      }
      var row := decode(bytes[offset..newline.value]);
      if row.None? {
        FailedLoop(whole, output, Unsupported);
        return Err(Unsupported);
      }
      var record := Record(|output| + 1, row.value);
      NextItem(whole, output, record, RecordsFrom(bytes, newline.value + 1, |output| + 1, decode, lim));
      output := output + [record];
      offset := newline.value + 1;
    }
    EndLoop(whole, output);
    r := Ok(output);
  }

  /** How the frames go on behind `k` records. */
  lemma FrameStep(records: seq<Record>, k: nat, from: nat, raw: bool, lim: Limits)
    requires k < |records|
    ensures var f, all := ProjectRow(records[k], from, raw), Project(records[k..], from, raw, lim);
            if |f.events| > FrameEvents || from + |f.events| > lim.events then all == Err(Limit)
            else
              var rest := Project(records[k + 1..], from + |f.events|, raw, lim);
              all == if rest.Err? then rest else Ok([f] + rest.value)
  {
    assert records[k..][0] == records[k] && records[k..][1..] == records[k + 1..];
  }

  /** `project`: numbers the events while it walks the records. */
  method ProjectRecords(records: seq<Record>, raw: bool, lim: Limits) returns (r: Result<seq<Frame>>)
    ensures r == Project(records, 0, raw, lim)
  {
    hide Continues, ProjectRow;
    var frames: seq<Frame>, eventIndex: nat, k := [], 0, 0;
    ghost var whole := Project(records, 0, raw, lim);
    StartLoop(whole);
    assert records[0..] == records;
    while k < |records|
      invariant 0 <= k <= |records|
      invariant Continues(whole, frames, Project(records[k..], eventIndex, raw, lim))
    {
      var f := ProjectRow(records[k], eventIndex, raw);
      FrameStep(records, k, eventIndex, raw, lim);
      if |f.events| > FrameEvents || eventIndex + |f.events| > lim.events {
        FailedLoop(whole, frames, Limit);
        return Err(Limit);
      }
      NextItem(whole, frames, f, Project(records[k + 1..], eventIndex + |f.events|, raw, lim));
      frames := frames + [f];
      eventIndex := eventIndex + |f.events|;
      k := k + 1;
    }
    EndLoop(whole, frames);
    r := Ok(frames);
  }
}
