/** Raw chunks take the most whole lines that their limit allows. */
module CodexChunks {
  import opened Base
  import opened CodexLines
  import opened CodexRaw

  /** A chunk may end here: behind a newline or at the end of the snapshot, within the limit. */
  predicate MayEnd(f: File, start: nat, limit: nat, end: nat) {
    && start < end <= |f.bytes| && end <= f.size && end - start <= limit
    && (end == f.size || f.bytes[end - 1] == Newline)
  }

  /** The last place where it may end. */
  ghost predicate LastEnd(f: File, start: nat, limit: nat, end: nat) {
    MayEnd(f, start, limit, end) && forall e: nat :: MayEnd(f, start, limit, e) ==> e <= end
  }

  ghost predicate Endless(f: File, start: nat, limit: nat) {
    forall e: nat :: !MayEnd(f, start, limit, e)
  }

  /** The chunk reaches the last place where it may end. Without one a page that holds bytes waits
    * for the next page, and an empty page fails on a line that is too long. */
  lemma ChunkExactly(f: File, start: nat, limit: nat, pageHasBytes: bool)
    ensures var r := Chunk(f, start, limit, pageHasBytes);
            && (forall end: nat :: r == Ok(Some(end)) <==> LastEnd(f, start, limit, end))
            && (r == Err(Limit) <==>
                  Endless(f, start, limit) && !pageHasBytes && limit > 0 && start < f.size && start < |f.bytes|)
            && (r.Err? ==> r == Err(Limit))
  {
    if !(limit == 0 || start >= f.size || start >= |f.bytes|) {
      var stop: nat := start + Min(Min(limit, f.size - start), |f.bytes| - start);
      assert forall e: nat :: MayEnd(f, start, limit, e) ==> start < e <= stop;
      if stop < f.size {
        var accepted := AfterNewline(f.bytes, start, stop);
        forall e: nat | MayEnd(f, start, limit, e)
          ensures e <= accepted
        {
          var last := f.bytes[e - 1];
        }
        assert accepted > start ==> MayEnd(f, start, limit, accepted);
      } else {
        assert MayEnd(f, start, limit, stop);
      }
    }
  }

  /** Acknowledged progress counts exactly for the generation it was made in. */
  lemma StartsExactly(f: File, progress: map<string, Saved>)
    ensures f.objectId in progress && progress[f.objectId].generation == f.generation ==>
              StartAt(f, progress) == Position(progress[f.objectId].offset, progress[f.objectId].finalized)
    ensures !(f.objectId in progress && progress[f.objectId].generation == f.generation) ==>
              StartAt(f, progress) == Position(0, false)
  {
  }

  /** The cut of a file goes on until the page is full or no further line fits. */
  lemma {:induction false} CutIsFull(f: File, at: Position, count: nat, used: nat, lim: Limits)
    requires Cut(f, at, count, used, lim).Ok? && count <= lim.segments && used <= lim.totalBytes
    ensures var r := Cut(f, at, count, used, lim).value;
            var last, bytes := r.1, used + Bytes(r.0);
            || last.offset >= f.size || count + |r.0| >= lim.segments || bytes >= lim.totalBytes
            || Endless(f, last.offset, Min(lim.segmentBytes, lim.totalBytes - bytes))
    decreases f.size - at.offset
  {
    hide Bytes, Endless, Chunk;
    NoBytes();
    if HasRoom(f, at, count, used, lim) {
      var limit := Min(lim.segmentBytes, lim.totalBytes - used);
      var chunk := NextChunk(f, at, used, lim).value;
      if chunk.None? {
        NoChunk(f, at.offset, limit, used > 0);
      } else {
        ChunkBounds(f, at, used, lim);
        var s := SegmentTo(f, at.offset, chunk.value);
        var next := Position(chunk.value, s.final);
        CutIsFull(f, next, count + 1, used + chunk.value - at.offset, lim);
        var rest := Cut(f, next, count + 1, used + chunk.value - at.offset, lim).value;
        BytesAppend([s], rest.0);
        BytesOne(s);
      }
    }
  }

  lemma NoChunk(f: File, start: nat, limit: nat, pageHasBytes: bool)
    requires Chunk(f, start, limit, pageHasBytes) == Ok(None)
    ensures Endless(f, start, limit)
  {
    forall e: nat
      ensures !MayEnd(f, start, limit, e)
    {
      ChunkExactly(f, start, limit, pageHasBytes);
      if MayEnd(f, start, limit, e) {
        SomeLastEnd(f, start, limit, e);
      }
    }
  }

  lemma {:induction false} SomeLastEnd(f: File, start: nat, limit: nat, e: nat)
    requires MayEnd(f, start, limit, e)
    ensures exists end: nat :: LastEnd(f, start, limit, end)
    decreases |f.bytes| - e
  {
    if later: nat :| later > e && MayEnd(f, start, limit, later) {
      SomeLastEnd(f, start, limit, later);
    } else {
      assert LastEnd(f, start, limit, e);
    }
  }
}
