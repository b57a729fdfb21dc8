/** Pages of Codex events are full: a page stops only where something does not fit any more. */
module CodexFull {
  import opened Base
  import opened CodexPages

  // ---------------------------------------------------------------- pages of events

  /** There is no room for what comes next on the line. */
  predicate NoRoomFor(what: What, p: Page, lim: Limits) {
    match what
    case Nothing => false
    case Usage(sample) => |p.usage| >= lim.count || p.bytes + sample.size + 1 > lim.bytes
    case Item(event) => p.events != [] && !HasKey(p.events, event.key) && p.bytes + event.size + 1 > lim.bytes
  }

  lemma {:induction false} FileStops(lines: seq<Line>, k: nat, p: Page, lim: Limits)
    requires k <= |lines| && ReadFile(lines, k, p, lim).Ok?
    ensures var r := ReadFile(lines, k, p, lim).value;
            && k <= r.1 <= |lines| && (r.2 <==> r.1 == |lines|)
            && (!r.2 ==> |r.0.events| >= lim.count || NoRoomFor(lines[r.1].what, r.0, lim))
    decreases |lines| - k
  {
    if k < |lines| {
      match lines[k].what
      case Nothing => FileStops(lines, k + 1, p, lim);
      case Usage(sample) =>
        if !(|p.usage| >= lim.count || p.bytes + sample.size + 1 > lim.bytes) {
          FileStops(lines, k + 1, p.(usage := p.usage + [sample], bytes := p.bytes + sample.size + 1), lim);
        }
      case Item(event) =>
        if HasKey(p.events, event.key) {
          if |p.events| < lim.count {
            FileStops(lines, k + 1, p, lim);
          }
        } else {
          var next := Append(p, event, lim).value;
          if next.Some? && |next.value.events| < lim.count {
            FileStops(lines, k + 1, next.value, lim);
          }
        }
    }
  }

  /** The cursor stands before a line of a live file that has no room. */
  ghost predicate StandsAtBlocked(files: seq<File>, k: nat, offset: nat, p: Page, lim: Limits) {
    && k < |files| && files[k].live
    && var at := LineAt(files[k].lines, From(files[k], offset));
       at < |files[k].lines| && NoRoomFor(files[k].lines[at].what, p, lim)
  }

  lemma {:induction false} FilesStop(files: seq<File>, k: nat, offset: nat, p: Page, lim: Limits)
    requires FilesOk(files) && Placed(files, k, offset) && ReadFiles(files, k, offset, p, lim).Ok?
    ensures var r := ReadFiles(files, k, offset, p, lim).value;
            r.1 >= |files| || |r.0.events| >= lim.count || StandsAtBlocked(files, r.1, r.2, r.0, lim)
    decreases |files| - k
  {
    hide ReadFile, Boundary, Contiguous, NoRoomFor, LineAt, From;
    if k < |files| && |p.events| < lim.count {
      var f := files[k];
      assert Contiguous(f.lines) && Boundary(f.lines, f.startOffset);
      if k + 1 < |files| {
        assert Contiguous(files[k + 1].lines);
        StartPlaced(files[k + 1]);
      }
      if !f.live {
        FilesStop(files, k + 1, 0, p, lim);
      } else {
        FromPlaced(f, offset);
        var i := LineAt(f.lines, From(f, offset));
        LineAtBound(f.lines, From(f, offset));
        FileStops(f.lines, i, p, lim);
        var read := ReadFile(f.lines, i, p, lim).value;
        ResumeAt(f, read.1, offset);
        if read.2 {
          FilesStop(files, k + 1, 0, read.0, lim);
        }
      }
    }
  }

  lemma LineAtBound(lines: seq<Line>, offset: nat)
    ensures LineAt(lines, offset) <= |lines|
  {
  }

  /** A page ends only when everything was read, it holds as many events as it may, or the next
    * derived event, event or sample has no room in it. */
  lemma PageIsFull(children: seq<Event>, files: seq<File>, c: Cursor, lim: Limits)
    requires Ready(children, files, c) && Collect(children, files, c, lim).Ok?
    ensures var r := Collect(children, files, c, lim).value;
            var p, d := r.page, r.cursor;
            || Complete(children, files, d) || |p.events| >= lim.count
            || (d.spawn < |children| && p.events != [] && p.bytes + children[d.spawn].size + 1 > lim.bytes)
            || (d.spawn == |children| && StandsAtBlocked(files, d.file, d.offset, p, lim))
  {
    hide ReadFiles, StandsAtBlocked, FilesOk, Placed;
    SpawnStops(children, c.spawn, Page([], [], 0), lim);
    var spawned := Spawn(children, c.spawn, Page([], [], 0), lim).value;
    if spawned.1 == |children| {
      FilesStop(files, c.file, c.offset, spawned.0, lim);
    }
  }

  lemma {:induction false} SpawnStops(children: seq<Event>, at: nat, p: Page, lim: Limits)
    requires at <= |children| && Spawn(children, at, p, lim).Ok?
    ensures var r := Spawn(children, at, p, lim).value;
            && at <= r.1 <= |children|
            && (r.1 < |children| ==>
                  |r.0.events| >= lim.count
                  || (r.0.events != [] && r.0.bytes + children[r.1].size + 1 > lim.bytes))
    decreases |children| - at
  {
    if at < |children| && |p.events| < lim.count {
      var next := Append(p, children[at], lim).value;
      if next.Some? {
        SpawnStops(children, at + 1, next.value, lim);
      }
    }
  }
}
