/** `collectRaw`: cutting the bytes of a session's files into Raw segments, page by page. */
module CodexRaw {
  import opened Base
  import opened CodexLines

  /** A snapshot file. `bytes` is what its current generation holds; `live` says that this is
    * still the generation of the snapshot. */
  datatype File = File(objectId: string, generation: string, bytes: seq<byte>, size: nat, archived: bool, live: bool)

  datatype Saved = Saved(generation: string, offset: nat, finalized: bool)

  datatype Position = Position(offset: nat, finalized: bool)

  datatype Segment = Segment(objectId: string, offset: nat, content: seq<byte>, final: bool)

  datatype Limits = Limits(segments: nat, segmentBytes: nat, totalBytes: nat)

  /** Acknowledged progress counts for its own generation only. */
  function StartAt(f: File, progress: map<string, Saved>): Position {
    if f.objectId in progress && progress[f.objectId].generation == f.generation
    then Position(progress[f.objectId].offset, progress[f.objectId].finalized)
    else Position(0, false)
  }

  /** One more than the last newline in `from .. end`, or `from` without one. */
  function AfterNewline(bytes: seq<byte>, from: nat, end: nat): (r: nat)
    requires from <= end <= |bytes|
    ensures from <= r <= end && (from < r ==> bytes[r - 1] == Newline) && NoNewline(bytes, r, end)
    decreases end
  {
    if from == end then from else if bytes[end - 1] == Newline then end else AfterNewline(bytes, from, end - 1)
  }

  /** `readRawRecordChunk`: the end of the next chunk, if there is one. */
  function Chunk(f: File, start: nat, limit: nat, pageHasBytes: bool): (r: Result<Option<nat>>)
    ensures r.Ok? && r.value.Some? ==>
              && start < r.value.value <= f.size && r.value.value <= |f.bytes| && r.value.value - start <= limit
              && (r.value.value == f.size || f.bytes[r.value.value - 1] == Newline)
  {
    if limit == 0 || start >= f.size || start >= |f.bytes| then Ok(None)
    else
      var stop: nat := start + Min(Min(limit, f.size - start), |f.bytes| - start);
      var accepted := if stop < f.size then AfterNewline(f.bytes, start, stop) else stop;
      if accepted > start then Ok(Some(accepted)) else if pageHasBytes then Ok(None) else Err(Limit)
  }

  function SegmentTo(f: File, from: nat, end: nat): Segment
    requires from <= end <= |f.bytes|
  {
    Segment(f.objectId, from, f.bytes[from..end], f.archived && end == f.size)
  }

  /** The next chunk of a page that has used `used` bytes. */
  function NextChunk(f: File, at: Position, used: nat, lim: Limits): Result<Option<nat>>
    requires used < lim.totalBytes
  {
    Chunk(f, at.offset, Min(lim.segmentBytes, lim.totalBytes - used), used > 0)
  }

  predicate HasRoom(f: File, at: Position, count: nat, used: nat, lim: Limits) {
    at.offset < f.size && count < lim.segments && used < lim.totalBytes
  }

  /** The chunks of one file while the page has room; `count` and `used` are the page's so far. */
  function Cut(f: File, at: Position, count: nat, used: nat, lim: Limits): Result<(seq<Segment>, Position)>
    decreases f.size - at.offset
  {
    if HasRoom(f, at, count, used, lim) then
      var chunk :- NextChunk(f, at, used, lim);
      if chunk.None? then Ok(([], at))
      else
        var s := SegmentTo(f, at.offset, chunk.value);
        var rest :- Cut(f, Position(chunk.value, s.final), count + 1, used + chunk.value - at.offset, lim);
        Ok(([s] + rest.0, rest.1))
    else Ok(([], at))
  }

  function Visit(f: File, at: Position, count: nat, used: nat, lim: Limits): Result<(seq<Segment>, Position)> {
    if !f.live || at.finalized || at.offset > f.size then Ok(([], at))
    else if f.archived && at.offset == f.size && count < lim.segments then
      Ok(([Segment(f.objectId, at.offset, [], true)], at.(finalized := true)))
    else Cut(f, at, count, used, lim)
  }

  function Bytes(segments: seq<Segment>): nat {
    if segments == [] then 0 else Bytes(segments[..|segments| - 1]) + |segments[|segments| - 1].content|
  }

  /** `parts[k]` are the segments of file k. */
  datatype Page = Page(parts: seq<seq<Segment>>, positions: seq<Position>)

  function Collect(files: seq<File>, at: seq<Position>, n: nat, lim: Limits): (r: Result<Page>)
    requires n <= |files| == |at|
    ensures r.Ok? ==> |r.value.parts| == |r.value.positions| == n
  {
    if n == 0 then Ok(Page([], []))
    else
      var before :- Collect(files, at, n - 1, lim);
      var sent := Flatten(before.parts);
      var more :- Visit(files[n - 1], at[n - 1], |sent|, Bytes(sent), lim);
      Ok(Page(before.parts + [more.0], before.positions + [more.1]))
  }

  predicate Covered(f: File, at: Position) {
    f.live ==> at.offset >= f.size && (f.archived ==> at.finalized)
  }

  // ---------------------------------------------------------------- segments tile their file

  /** Where the file stands behind a segment. */
  function After(s: Segment): Position {
    Position(s.offset + |s.content|, s.final)
  }

  /** One segment: it continues at `from`, ends behind a newline or at the end of the file, and
    * is final exactly at the end of an archived file. */
  predicate Continuing(f: File, s: Segment, from: Position) {
    var end := s.offset + |s.content|;
    && !from.finalized && s.objectId == f.objectId && s.offset == from.offset && end <= f.size
    && (s.content == []
        || (end <= |f.bytes| && s.content == f.bytes[s.offset..end] && (end == f.size || f.bytes[end - 1] == Newline)))
    && (s.final <==> f.archived && end == f.size) && (s.content == [] ==> s.final)
  }

  /** `segments` are the bytes of `f` from one position to another without gap or overlap; nothing
    * comes after a final segment. */
  ghost predicate Tiled(f: File, segments: seq<Segment>, from: Position, last: Position)
    decreases |segments|
  {
    if segments == [] then from == last
    else Continuing(f, segments[0], from) && Tiled(f, segments[1..], After(segments[0]), last)
  }

  lemma ChunkBounds(f: File, at: Position, used: nat, lim: Limits)
    requires used < lim.totalBytes && NextChunk(f, at, used, lim).Ok? && NextChunk(f, at, used, lim).value.Some?
    ensures var end := NextChunk(f, at, used, lim).value.value;
            && at.offset < end <= f.size && end <= |f.bytes| && end - at.offset <= lim.segmentBytes
               && used + end - at.offset <= lim.totalBytes
            && (end == f.size || f.bytes[end - 1] == Newline)
  {
  }

  lemma TiledCons(f: File, s: Segment, rest: seq<Segment>, end: nat, from: Position, last: Position)
    requires !from.finalized && from.offset < end <= f.size && end <= |f.bytes| && s == SegmentTo(f, from.offset, end)
    requires end == f.size || f.bytes[end - 1] == Newline
    requires Tiled(f, rest, Position(end, s.final), last)
    ensures Tiled(f, [s] + rest, from, last)
  {
    assert ([s] + rest)[1..] == rest;
  }

  lemma {:induction false} CutTiles(f: File, at: Position, count: nat, used: nat, lim: Limits)
    requires Cut(f, at, count, used, lim).Ok? && at.offset <= f.size && (at.finalized ==> at.offset == f.size)
    ensures var r := Cut(f, at, count, used, lim).value; Tiled(f, r.0, at, r.1) && at.offset <= r.1.offset <= f.size
    decreases f.size - at.offset
  {
    hide NextChunk, Tiled;
    if HasRoom(f, at, count, used, lim) && NextChunk(f, at, used, lim).value.Some? {
      ChunkBounds(f, at, used, lim);
      var end := NextChunk(f, at, used, lim).value.value;
      var s := SegmentTo(f, at.offset, end);
      var next := Position(end, s.final);
      CutTiles(f, next, count + 1, used + end - at.offset, lim);
      var rest := Cut(f, next, count + 1, used + end - at.offset, lim).value;
      TiledCons(f, s, rest.0, end, at, rest.1);
    } else {
      TiledNothing(f, at);
    }
  }

  lemma TiledNothing(f: File, at: Position)
    ensures Tiled(f, [], at, at)
  {
  }

  lemma VisitTiles(f: File, at: Position, count: nat, used: nat, lim: Limits)
    requires Visit(f, at, count, used, lim).Ok?
    ensures Tiled(f, Visit(f, at, count, used, lim).value.0, at, Visit(f, at, count, used, lim).value.1)
  {
    hide Cut;
    if f.live && !at.finalized && at.offset <= f.size && !(f.archived && at.offset == f.size && count < lim.segments) {
      CutTiles(f, at, count, used, lim);
    }
  }

  lemma BytesSnoc(segments: seq<Segment>, s: Segment)
    ensures Bytes(segments + [s]) == Bytes(segments) + |s.content|
  {
    assert (segments + [s])[..|segments|] == segments;
  }

  lemma {:induction false} BytesAppend(a: seq<Segment>, b: seq<Segment>)
    ensures Bytes(a + b) == Bytes(a) + Bytes(b)
  {
    if b == [] {
      assert a + b == a;
    } else {
      BytesAppend(a, b[..|b| - 1]);
      assert a + b == (a + b[..|b| - 1]) + [b[|b| - 1]];
      BytesSnoc(a + b[..|b| - 1], b[|b| - 1]);
    }
  }

  predicate AllWithin(segments: seq<Segment>, limit: nat) {
    forall k :: 0 <= k < |segments| ==> |segments[k].content| <= limit
  }

  lemma {:induction false} CutFits(f: File, at: Position, count: nat, used: nat, lim: Limits)
    requires Cut(f, at, count, used, lim).Ok? && count <= lim.segments && used <= lim.totalBytes
    ensures var s := Cut(f, at, count, used, lim).value.0;
            count + |s| <= lim.segments && used + Bytes(s) <= lim.totalBytes && AllWithin(s, lim.segmentBytes)
    decreases f.size - at.offset
  {
    hide NextChunk, Bytes;
    if HasRoom(f, at, count, used, lim) && NextChunk(f, at, used, lim).value.Some? {
      ChunkBounds(f, at, used, lim);
      var end := NextChunk(f, at, used, lim).value.value;
      var s := SegmentTo(f, at.offset, end);
      CutFits(f, Position(end, s.final), count + 1, used + end - at.offset, lim);
      var rest := Cut(f, Position(end, s.final), count + 1, used + end - at.offset, lim).value.0;
      BytesAppend([s], rest);
      BytesOne(s);
    } else {
      NoBytes();
    }
  }

  lemma NoBytes()
    ensures Bytes([]) == 0
  {
  }

  lemma BytesOne(s: Segment)
    ensures Bytes([s]) == |s.content|
  {
    BytesSnoc([], s);
    assert [] + [s] == [s];
  }

  /** What a page keeps about its limits. */
  ghost predicate Fits(segments: seq<Segment>, lim: Limits) {
    |segments| <= lim.segments && Bytes(segments) <= lim.totalBytes && AllWithin(segments, lim.segmentBytes)
  }

  lemma {:induction false} PageFits(files: seq<File>, at: seq<Position>, n: nat, lim: Limits)
    requires n <= |files| == |at| && Collect(files, at, n, lim).Ok?
    ensures Fits(Flatten(Collect(files, at, n, lim).value.parts), lim)
  {
    hide Visit, Bytes;
    if n == 0 {
      NothingFits(lim);
    } else {
      PageFits(files, at, n - 1, lim);
      var before := Collect(files, at, n - 1, lim).value;
      var sent := Flatten(before.parts);
      var more := Visit(files[n - 1], at[n - 1], |sent|, Bytes(sent), lim).value;
      VisitFits(files[n - 1], at[n - 1], sent, lim);
      FlattenSnoc(before.parts, more.0);
    }
  }

  lemma NothingFits(lim: Limits)
    ensures Fits([], lim)
  {
  }

  lemma VisitFits(f: File, at: Position, sent: seq<Segment>, lim: Limits)
    requires Fits(sent, lim) && Visit(f, at, |sent|, Bytes(sent), lim).Ok?
    ensures Fits(sent + Visit(f, at, |sent|, Bytes(sent), lim).value.0, lim)
  {
    hide Bytes, Chunk, Cut;
    var more := Visit(f, at, |sent|, Bytes(sent), lim).value.0;
    BytesAppend(sent, more);
    NoBytes();
    if f.live && !at.finalized && at.offset <= f.size && !(f.archived && at.offset == f.size && |sent| < lim.segments) {
      CutFits(f, at, |sent|, Bytes(sent), lim);
    } else if more != [] {
      BytesOne(more[0]);
      assert [more[0]] == more;
    }
  }

  // ---------------------------------------------------------------- one page

  /** Main result of a page: every file's segments continue from its acknowledged position. */
  lemma {:induction false} PageTiles(files: seq<File>, at: seq<Position>, n: nat, lim: Limits, k: nat)
    requires k < n <= |files| == |at| && Collect(files, at, n, lim).Ok?
    ensures var p := Collect(files, at, n, lim).value; Tiled(files[k], p.parts[k], at[k], p.positions[k])
  {
    hide Visit, Tiled, Flatten, Bytes;
    if k < n - 1 {
      PageTiles(files, at, n - 1, lim, k);
    } else {
      var sent := Flatten(Collect(files, at, n - 1, lim).value.parts);
      VisitTiles(files[k], at[k], |sent|, Bytes(sent), lim);
    }
  }

  /** `complete`. */
  predicate Complete(files: seq<File>, at: seq<Position>)
    requires |files| == |at|
  {
    forall k :: 0 <= k < |files| ==> Covered(files[k], at[k])
  }

  /** A file that is not covered and yields nothing, whatever the limits: it was cut short below
    * its snapshot, or below what was acknowledged. */
  predicate Stalled(f: File, at: Position) {
    && f.live
    && if at.finalized then at.offset < f.size
       else (f.archived && at.offset > f.size) || |f.bytes| <= at.offset < f.size
  }

  lemma EmptyVisit(f: File, at: Position, lim: Limits)
    requires lim.segments > 0 && lim.segmentBytes > 0 && lim.totalBytes > 0
    requires Visit(f, at, 0, 0, lim).Ok? && Visit(f, at, 0, 0, lim).value.0 == []
    ensures Visit(f, at, 0, 0, lim).value.1 == at
    ensures Covered(f, at) <==> !Stalled(f, at)
  {
    if f.live && !at.finalized && at.offset < f.size {
      assert HasRoom(f, at, 0, 0, lim);
    }
  }

  /** A page without segments leaves every position where it was, and completes the snapshot
    * exactly when no file is stalled: pages with work left always send something. */
  lemma {:induction false} EmptyPageIsDone(files: seq<File>, at: seq<Position>, n: nat, lim: Limits)
    requires n <= |files| == |at| && Collect(files, at, n, lim).Ok?
             && Flatten(Collect(files, at, n, lim).value.parts) == []
    requires lim.segments > 0 && lim.segmentBytes > 0 && lim.totalBytes > 0
    ensures Collect(files, at, n, lim).value.positions == at[..n]
    ensures forall k :: 0 <= k < n ==> (Covered(files[k], at[k]) <==> !Stalled(files[k], at[k]))
  {
    hide Visit, Covered, Stalled;
    if n > 0 {
      var before := Collect(files, at, n - 1, lim).value;
      var more := Visit(files[n - 1], at[n - 1], |Flatten(before.parts)|, Bytes(Flatten(before.parts)), lim).value;
      FlattenSnoc(before.parts, more.0);
      assert Flatten(before.parts) == [] && more.0 == [];
      NoBytes();
      EmptyPageIsDone(files, at, n - 1, lim);
      EmptyVisit(files[n - 1], at[n - 1], lim);
      assert at[..n - 1] + [at[n - 1]] == at[..n];
    }
  }

  lemma StalledVisit(f: File, at: Position, count: nat, used: nat, lim: Limits)
    requires Stalled(f, at)
    ensures Visit(f, at, count, used, lim) == Ok(([], at)) && !Covered(f, at)
  {
  }

  /** A stalled file sends nothing and keeps its snapshot incomplete, whatever the limits. */
  lemma {:induction false} StalledSendsNothing(files: seq<File>, at: seq<Position>, n: nat, lim: Limits, k: nat)
    requires k < n <= |files| == |at| && Collect(files, at, n, lim).Ok? && Stalled(files[k], at[k])
    ensures var p := Collect(files, at, n, lim).value; p.parts[k] == [] && p.positions[k] == at[k]
    ensures !Covered(files[k], Collect(files, at, n, lim).value.positions[k])
  {
    hide Visit, Stalled, Covered, Bytes, Flatten;
    if k < n - 1 {
      StalledSendsNothing(files, at, n - 1, lim, k);
    } else {
      var sent := Flatten(Collect(files, at, n - 1, lim).value.parts);
      StalledVisit(files[k], at[k], |sent|, Bytes(sent), lim);
    }
  }

  // ---------------------------------------------------------------- runs of pages

  /** What a run of acknowledged pages has sent of every file, and where it stands. */
  datatype Sent = Sent(all: seq<seq<Segment>>, positions: seq<Position>)

  function Run(files: seq<File>, at: seq<Position>, lims: seq<Limits>, n: nat): (r: Result<Sent>)
    requires n <= |lims| && |files| == |at|
    ensures r.Ok? ==> |r.value.all| == |r.value.positions| == |files|
  {
    if n == 0 then Ok(Sent(seq(|files|, _ => []), at))
    else
      var before :- Run(files, at, lims, n - 1);
      var page :- Collect(files, before.positions, |files|, lims[n - 1]);
      Ok(Sent(seq(|files|, k requires 0 <= k < |files| => before.all[k] + page.parts[k]), page.positions))
  }

  lemma {:induction false} TiledJoin(f: File, a: seq<Segment>, b: seq<Segment>, from: Position, mid: Position,
                                     last: Position)
    requires Tiled(f, a, from, mid) && Tiled(f, b, mid, last)
    ensures Tiled(f, a + b, from, last)
    decreases |a|
  {
    hide Continuing, After;
    if a == [] {
      assert a + b == b;
    } else {
      TiledJoin(f, a[1..], b, After(a[0]), mid, last);
      assert (a + b)[1..] == a[1..] + b;
    }
  }

  function Contents(segments: seq<Segment>): seq<byte> {
    if segments == [] then [] else segments[0].content + Contents(segments[1..])
  }

  /** Tiled segments carry exactly the bytes between the two positions. */
  lemma {:induction false} TiledContents(f: File, segments: seq<Segment>, from: Position, last: Position)
    requires Tiled(f, segments, from, last) && f.size <= |f.bytes|
    ensures segments != [] ==>
              from.offset <= last.offset <= f.size && Contents(segments) == f.bytes[from.offset..last.offset]
    ensures forall k :: 0 <= k < |segments| ==> (segments[k].final <==> k == |segments| - 1 && last.finalized)
    decreases |segments|
  {
    if segments != [] {
      var s := segments[0];
      var end := s.offset + |s.content|;
      TiledContents(f, segments[1..], Position(end, s.final), last);
      if segments[1..] == [] {
        assert s.content + [] == s.content;
      } else {
        assert f.bytes[from.offset..end] + f.bytes[end..last.offset] == f.bytes[from.offset..last.offset];
      }
    }
  }

  lemma {:induction false} RunTiles(files: seq<File>, at: seq<Position>, lims: seq<Limits>, n: nat, k: nat)
    requires n <= |lims| && |files| == |at| && k < |files| && Run(files, at, lims, n).Ok?
    ensures var r := Run(files, at, lims, n).value; Tiled(files[k], r.all[k], at[k], r.positions[k])
  {
    hide Collect, Tiled;
    if n == 0 {
      TiledNothing(files[k], at[k]);
    } else {
      RunTiles(files, at, lims, n - 1, k);
      var before := Run(files, at, lims, n - 1).value;
      PageTiles(files, before.positions, |files|, lims[n - 1], k);
      TiledJoin(files[k], before.all[k], Collect(files, before.positions, |files|, lims[n - 1]).value.parts[k], at[k],
                before.positions[k], Run(files, at, lims, n).value.positions[k]);
    }
  }

  /** Main result. Whatever limits the pages have, a run that completes has sent, for every live
    * file it had to read, exactly the bytes from the acknowledged offset to the end of the
    * snapshot, once and in order, with one final mark iff the file is archived. */
  lemma CompleteRunSendsAll(files: seq<File>, at: seq<Position>, lims: seq<Limits>, k: nat)
    requires |files| == |at| && k < |files| && Run(files, at, lims, |lims|).Ok?
    requires Complete(files, Run(files, at, lims, |lims|).value.positions)
    requires files[k].live && files[k].size <= |files[k].bytes| && at[k].offset < files[k].size && !at[k].finalized
    ensures var sent := Run(files, at, lims, |lims|).value.all[k];
            && Contents(sent) == files[k].bytes[at[k].offset..files[k].size]
            && sent != [] && (sent[|sent| - 1].final <==> files[k].archived)
            && forall i :: 0 <= i < |sent| - 1 ==> !sent[i].final
  {
    var r := Run(files, at, lims, |lims|).value;
    RunTiles(files, at, lims, |lims|, k);
    TiledContents(files[k], r.all[k], at[k], r.positions[k]);
    assert Covered(files[k], r.positions[k]);
    FinalNeedsArchive(files[k], r.all[k], at[k], r.positions[k]);
    hide Run, Tiled, Contents;
  }

  lemma {:induction false} FinalNeedsArchive(f: File, segments: seq<Segment>, from: Position, last: Position)
    requires Tiled(f, segments, from, last) && !from.finalized
    ensures last.finalized ==> f.archived
    decreases |segments|
  {
    if |segments| > 1 {
      var s := segments[0];
      assert !segments[0].final;
      FinalNeedsArchive(f, segments[1..], Position(s.offset + |s.content|, s.final), last);
    } else if |segments| == 1 {
      assert segments[1..] == [];
    }
  }

  // ---------------------------------------------------------------- the loops of the source

  /** `readRawRecordChunk`, scanning back for the last newline. */
  method ReadChunk(f: File, start: nat, limit: nat, pageHasBytes: bool) returns (r: Result<Option<nat>>)
    ensures r == Chunk(f, start, limit, pageHasBytes)
  {
    if limit == 0 || start >= f.size || start >= |f.bytes| {
      return Ok(None);
    }
    var stop: nat := start + Min(Min(limit, f.size - start), |f.bytes| - start);
    var accepted := stop;
    if stop < f.size {
      while accepted > start && f.bytes[accepted - 1] != Newline
        invariant start <= accepted <= stop
                  && AfterNewline(f.bytes, start, stop) == AfterNewline(f.bytes, start, accepted)
      {
        accepted := accepted - 1;
      }
    }
    if accepted > start {
      r := Ok(Some(accepted));
    } else if pageHasBytes {
      r := Ok(None);
    } else {
      r := Err(Limit);
    }
  }

  /** `segments` are cut off already, and the rest of `whole` is still to come. */
  ghost predicate Continues(whole: Result<(seq<Segment>, Position)>, segments: seq<Segment>,
                            rest: Result<(seq<Segment>, Position)>) {
    if rest.Err? then whole == rest else whole == Ok((segments + rest.value.0, rest.value.1))
  }

  lemma StartCut(whole: Result<(seq<Segment>, Position)>)
    ensures Continues(whole, [], whole)
  {
    if whole.Ok? {
      assert [] + whole.value.0 == whole.value.0;
    }
  }

  lemma EndCut(whole: Result<(seq<Segment>, Position)>, segments: seq<Segment>, position: Position)
    requires Continues(whole, segments, Ok(([], position)))
    ensures whole == Ok((segments, position))
  {
    assert segments + [] == segments;
  }

  lemma NextCut(whole: Result<(seq<Segment>, Position)>, segments: seq<Segment>, f: File, at: Position, count: nat,
                used: nat, lim: Limits)
    requires Continues(whole, segments, Cut(f, at, count, used, lim)) && HasRoom(f, at, count, used, lim)
    ensures var chunk := NextChunk(f, at, used, lim);
            && (chunk.Err? ==> whole == Err(chunk.reason))
            && (chunk.Ok? && chunk.value.None? ==> whole == Ok((segments, at)))
            && (chunk.Ok? && chunk.value.Some? ==>
                  && at.offset < chunk.value.value <= f.size && chunk.value.value <= |f.bytes|
                  && var s := SegmentTo(f, at.offset, chunk.value.value);
                     Continues(whole, segments + [s],
                               Cut(f, Position(chunk.value.value, s.final), count + 1,
                                   used + chunk.value.value - at.offset, lim)))
  {
    hide NextChunk;
    var chunk := NextChunk(f, at, used, lim);
    if chunk.Ok? {
      if chunk.value.None? {
        EndCut(whole, segments, at);
      } else {
        ChunkBounds(f, at, used, lim);
        var s := SegmentTo(f, at.offset, chunk.value.value);
        var rest := Cut(f, Position(chunk.value.value, s.final), count + 1, used + chunk.value.value - at.offset, lim);
        if rest.Ok? {
          Assoc(segments, [s], rest.value.0);
        }
      }
    }
  }

  /** The inner loop of `collectRaw`: chunks of one file while the page has room. */
  method CutFile(f: File, at: Position, count: nat, used: nat, lim: Limits)
    returns (r: Result<(seq<Segment>, Position)>)
    ensures r == Cut(f, at, count, used, lim)
  {
    hide Chunk, Continues;
    ghost var whole := Cut(f, at, count, used, lim);
    StartCut(whole);
    var segments: seq<Segment>, position, usedBytes := [], at, used;
    while position.offset < f.size && count + |segments| < lim.segments && usedBytes < lim.totalBytes
      invariant usedBytes >= 0
      invariant Continues(whole, segments, Cut(f, position, count + |segments|, usedBytes, lim))
      decreases f.size - position.offset
    {
      var chunk := ReadChunk(f, position.offset, Min(lim.segmentBytes, lim.totalBytes - usedBytes), usedBytes > 0);
      assert chunk == NextChunk(f, position, usedBytes, lim);
      NextCut(whole, segments, f, position, count + |segments|, usedBytes, lim);
      if chunk.Err? {
        return Err(chunk.reason);
      }
      if chunk.value.None? {
        return Ok((segments, position));
      }
      var s := SegmentTo(f, position.offset, chunk.value.value);
      segments := segments + [s];
      usedBytes := usedBytes + chunk.value.value - position.offset;
      position := Position(chunk.value.value, s.final);
    }
    EndCut(whole, segments, position);
    r := Ok((segments, position));
  }

  lemma {:induction false} CollectFails(files: seq<File>, at: seq<Position>, m: nat, n: nat, lim: Limits)
    requires m <= n <= |files| == |at| && Collect(files, at, m, lim).Err?
    ensures Collect(files, at, n, lim) == Collect(files, at, m, lim)
    decreases n - m
  {
    hide Visit;
    if m < n {
      CollectFails(files, at, m, n - 1, lim);
    }
  }

  /** `collectRaw`. */
  method CollectRaw(files: seq<File>, progress: map<string, Saved>, lim: Limits)
    returns (r: Result<seq<Segment>>, positions: seq<Position>, complete: bool)
    ensures var at := seq(|files|, k requires 0 <= k < |files| => StartAt(files[k], progress));
            var page := Collect(files, at, |files|, lim);
            && (r.Ok? <==> page.Ok?)
            && (r.Ok? ==> r.value == Flatten(page.value.parts) && positions == page.value.positions
                          && complete == Complete(files, positions) && Fits(r.value, lim))
  {
    hide Cut, Flatten, Bytes, Covered;
    ghost var at := seq(|files|, k requires 0 <= k < |files| => StartAt(files[k], progress));
    ghost var parts: seq<seq<Segment>> := [];
    var segments: seq<Segment>, usedBytes, k := [], 0, 0;
    positions, complete := [], true;
    FlattenNothing();
    NoBytes();
    while k < |files|
      invariant 0 <= k <= |files|
      invariant Collect(files, at, k, lim) == Ok(Page(parts, positions))
      invariant segments == Flatten(parts) && usedBytes == Bytes(segments)
    {
      var f, position := files[k], StartAt(files[k], progress);
      var more: seq<Segment> := [];
      if f.live && !position.finalized && position.offset <= f.size {
        if f.archived && position.offset == f.size && |segments| < lim.segments {
          more := [Segment(f.objectId, position.offset, [], true)];
          position := position.(finalized := true);
        } else {
          var cut := CutFile(f, position, |segments|, usedBytes, lim);
          if cut.Err? {
            k := k + 1;
            CollectFails(files, at, k, |files|, lim);
            return Err(cut.reason), positions, false;
          }
          more, position := cut.value.0, cut.value.1;
        }
      }
      FlattenSnoc(parts, more);
      BytesAppend(segments, more);
      var added := CountBytes(more);
      usedBytes := usedBytes + added;
      parts := parts + [more];
      segments := segments + more;
      positions := positions + [position];
      k := k + 1;
    }
    PageFits(files, at, |files|, lim);
    complete := forall j :: 0 <= j < |files| ==> Covered(files[j], positions[j]);
    r := Ok(segments);
  }

  lemma FlattenNothing()
    ensures Flatten<Segment>([]) == []
  {
  }

  method CountBytes(segments: seq<Segment>) returns (n: nat)
    ensures n == Bytes(segments)
  {
    n := 0;
    var k := 0;
    while k < |segments|
      invariant 0 <= k <= |segments| && n == Bytes(segments[..k])
    {
      BytesSnoc(segments[..k], segments[k]);
      assert segments[..k] + [segments[k]] == segments[..k + 1];
      n := n + |segments[k].content|;
      k := k + 1;
    }
    assert segments[..k] == segments;
  }
}
