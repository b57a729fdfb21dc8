/** `collectEvents`: paging the events and usage samples of a session under count and byte limits. */
module CodexPages {
  import opened Base

  /** An event's key stands for its thread and event id; sizes are of its JSON text. */
  datatype Event = Event(key: string, size: nat)

  datatype Sample = Sample(id: string, size: nat)

  /** A line of a rollout carries at most one of the two: usage records are no conversation items. */
  datatype What = Nothing | Usage(sample: Sample) | Item(event: Event)

  datatype Line = Line(start: nat, end: nat, what: What)

  /** `live` says that the snapshot's generation is still the current one. */
  datatype File = File(live: bool, startOffset: nat, lines: seq<Line>)

  datatype Cursor = Cursor(spawn: nat, file: nat, offset: nat)

  datatype Limits = Limits(count: nat, bytes: nat)

  /** What the page holds so far. */
  datatype Page = Page(events: seq<Event>, usage: seq<Sample>, bytes: nat)

  // ---------------------------------------------------------------- offsets and lines

  predicate Follows(lines: seq<Line>, k: nat)
    requires k < |lines|
  {
    lines[k].start == OffsetAt(lines, k) < lines[k].end
  }

  /** Lines follow each other without gap. */
  predicate Contiguous(lines: seq<Line>) {
    forall k {:trigger Follows(lines, k)} :: 0 <= k < |lines| ==> Follows(lines, k)
  }

  function OffsetAt(lines: seq<Line>, k: nat): nat
    requires k <= |lines|
  {
    if k == 0 then 0 else lines[k - 1].end
  }

  /** The first line that starts at or behind an offset. */
  function LineAt(lines: seq<Line>, offset: nat): (k: nat)
    ensures k <= |lines|
  {
    if lines == [] || lines[|lines| - 1].start < offset then |lines| else LineAt(lines[..|lines| - 1], offset)
  }

  lemma {:induction false} LineAtOffset(lines: seq<Line>, k: nat)
    requires Contiguous(lines) && k <= |lines|
    ensures LineAt(lines, OffsetAt(lines, k)) == k
  {
    if k < |lines| {
      var last := |lines| - 1;
      OffsetsRise(lines, k, last);
      assert Follows(lines, last);
      ContiguousPrefix(lines);
      LineAtOffset(lines[..last], k);
    } else if k > 0 {
      assert Follows(lines, k - 1);
    }
  }

  lemma ContiguousPrefix(lines: seq<Line>)
    requires Contiguous(lines) && lines != []
    ensures Contiguous(lines[..|lines| - 1])
    ensures forall j :: 0 <= j < |lines| ==> OffsetAt(lines[..|lines| - 1], j) == OffsetAt(lines, j)
  {
    var init := lines[..|lines| - 1];
    forall k | 0 <= k < |init|
      ensures Follows(init, k)
    {
      assert Follows(lines, k);
    }
  }

  lemma {:induction false} OffsetsRise(lines: seq<Line>, j: nat, k: nat)
    requires Contiguous(lines) && j <= k <= |lines|
    ensures OffsetAt(lines, j) <= OffsetAt(lines, k)
  {
    if j < k {
      OffsetsRise(lines, j, k - 1);
      assert Follows(lines, k - 1);
    }
  }

  predicate Boundary(lines: seq<Line>, offset: nat) {
    offset == OffsetAt(lines, LineAt(lines, offset))
  }

  ghost predicate FilesOk(files: seq<File>) {
    forall k :: 0 <= k < |files| ==> Contiguous(files[k].lines) && Boundary(files[k].lines, files[k].startOffset)
  }

  /** The offset from which a file is read. */
  function From(f: File, offset: nat): nat {
    if offset < f.startOffset then f.startOffset else offset
  }

  // ---------------------------------------------------------------- one page

  /** `appendEvent`: the event fits, or the page is full; an empty page that is too small fails. */
  function Append(p: Page, e: Event, lim: Limits): Result<Option<Page>> {
    var more := e.size + if p.events == [] then 0 else 1;
    if p.bytes + more > lim.bytes then (if p.events == [] then Err(Limit) else Ok(None))
    else Ok(Some(p.(events := p.events + [e], bytes := p.bytes + more)))
  }

  /** Derived spawn events first; stops at a full page. */
  function Spawn(children: seq<Event>, at: nat, p: Page, lim: Limits): Result<(Page, nat)>
    requires at <= |children|
    decreases |children| - at
  {
    if at < |children| && |p.events| < lim.count then
      var next :- Append(p, children[at], lim);
      if next.None? then Ok((p, at)) else Spawn(children, at + 1, next.value, lim)
    else Ok((p, at))
  }

  predicate HasKey(events: seq<Event>, key: string) {
    exists k :: 0 <= k < |events| && events[k].key == key
  }

  /** Lines `k ..` of a file; the flag says that the file was read to its end. */
  function ReadFile(lines: seq<Line>, k: nat, p: Page, lim: Limits): Result<(Page, nat, bool)>
    requires k <= |lines|
    decreases |lines| - k
  {
    if k == |lines| then Ok((p, k, true))
    else match lines[k].what
      case Nothing => ReadFile(lines, k + 1, p, lim)
      case Usage(sample) =>
        if |p.usage| >= lim.count || p.bytes + sample.size + 1 > lim.bytes then Ok((p, k, false))
        else ReadFile(lines, k + 1, p.(usage := p.usage + [sample], bytes := p.bytes + sample.size + 1), lim)
      case Item(event) =>
        if HasKey(p.events, event.key) then
          if |p.events| >= lim.count then Ok((p, k + 1, k + 1 == |lines|)) else ReadFile(lines, k + 1, p, lim)
        else
          var next :- Append(p, event, lim);
          if next.None? then Ok((p, k, false))
          else if |next.value.events| >= lim.count then Ok((next.value, k + 1, k + 1 == |lines|))
          else ReadFile(lines, k + 1, next.value, lim)
  }

  function ReadFiles(files: seq<File>, k: nat, offset: nat, p: Page, lim: Limits): Result<(Page, nat, nat)>
    decreases |files| - k
  {
    if k >= |files| || |p.events| >= lim.count then Ok((p, k, offset))
    else if !files[k].live then ReadFiles(files, k + 1, 0, p, lim)
    else
      var lines := files[k].lines;
      var read :- ReadFile(lines, LineAt(lines, From(files[k], offset)), p, lim);
      if !read.2 || read.1 > |lines| || (|read.0.events| >= lim.count && read.1 < |lines|)
      then Ok((read.0, k, if read.1 <= |lines| then OffsetAt(lines, read.1) else offset))
      else ReadFiles(files, k + 1, 0, read.0, lim)
  }

  datatype Paged = Paged(page: Page, cursor: Cursor)

  function Collect(children: seq<Event>, files: seq<File>, c: Cursor, lim: Limits): Result<Paged>
    requires c.spawn <= |children|
  {
    var spawned :- Spawn(children, c.spawn, Page([], [], 0), lim);
    if spawned.1 < |children| then Ok(Paged(spawned.0, Cursor(spawned.1, c.file, c.offset)))
    else
      var read :- ReadFiles(files, c.file, c.offset, spawned.0, lim);
      Ok(Paged(read.0, Cursor(spawned.1, read.1, read.2)))
  }

  /** `complete`. */
  predicate Complete(children: seq<Event>, files: seq<File>, c: Cursor) {
    c.spawn >= |children| && c.file >= |files|
  }

  // ---------------------------------------------------------------- the unlimited pass

  function EventsOf(lines: seq<Line>, k: nat): seq<Event>
    decreases |lines| - k
  {
    if k >= |lines| then [] else (if lines[k].what.Item? then [lines[k].what.event] else []) + EventsOf(lines, k + 1)
  }

  function SamplesOf(lines: seq<Line>, k: nat): seq<Sample>
    decreases |lines| - k
  {
    if k >= |lines| then [] else (if lines[k].what.Usage? then [lines[k].what.sample] else []) + SamplesOf(lines, k + 1)
  }

  function FilesEvents(files: seq<File>, k: nat, offset: nat): seq<Event>
    decreases |files| - k
  {
    if k >= |files| then []
    else (if files[k].live then EventsOf(files[k].lines, LineAt(files[k].lines, From(files[k], offset))) else [])
         + FilesEvents(files, k + 1, 0)
  }

  function FilesSamples(files: seq<File>, k: nat, offset: nat): seq<Sample>
    decreases |files| - k
  {
    if k >= |files| then []
    else (if files[k].live then SamplesOf(files[k].lines, LineAt(files[k].lines, From(files[k], offset))) else [])
         + FilesSamples(files, k + 1, 0)
  }

  /** Everything a cursor still has ahead of it, in order. */
  function EventsAhead(children: seq<Event>, files: seq<File>, c: Cursor): seq<Event>
    requires c.spawn <= |children|
  {
    children[c.spawn..] + FilesEvents(files, c.file, c.offset)
  }

  function SamplesAhead(files: seq<File>, c: Cursor): seq<Sample> {
    FilesSamples(files, c.file, c.offset)
  }

  ghost predicate KeysDistinct(events: seq<Event>) {
    forall i, j :: 0 <= i < j < |events| ==> events[i].key != events[j].key
  }

  /** No event ahead repeats one of the page: keys are distinct, or the page takes a single event. */
  ghost predicate Clean(taken: seq<Event>, ahead: seq<Event>, lim: Limits) {
    lim.count <= 1 || KeysDistinct(taken + ahead)
  }

  lemma CleanSame(p: seq<Event>, ahead: seq<Event>, q: seq<Event>, left: seq<Event>, lim: Limits)
    requires Clean(p, ahead, lim) && p + ahead == q + left
    ensures Clean(q, left, lim)
  {
  }

  lemma DistinctIsClean(ahead: seq<Event>, lim: Limits)
    requires KeysDistinct(ahead)
    ensures Clean([], ahead, lim)
  {
    assert [] + ahead == ahead;
  }

  lemma NextIsClean(taken: seq<Event>, e: Event, rest: seq<Event>, lim: Limits)
    requires Clean(taken, [e] + rest, lim) && |taken| < lim.count
    ensures !HasKey(taken, e.key) && Clean(taken + [e], rest, lim)
  {
    if lim.count > 1 {
      NextIsNew(taken, e, rest);
    }
  }

  lemma NextIsNew(taken: seq<Event>, e: Event, rest: seq<Event>)
    requires KeysDistinct(taken + ([e] + rest))
    ensures !HasKey(taken, e.key)
    ensures taken + ([e] + rest) == (taken + [e]) + rest
  {
    Assoc(taken, [e], rest);
    var all := taken + ([e] + rest);
    assert all[|taken|] == e;
    forall k | 0 <= k < |taken|
      ensures taken[k].key != e.key
    {
      assert all[k] == taken[k];
    }
  }

  predicate Within(p: Page, lim: Limits) {
    |p.events| <= lim.count && |p.usage| <= lim.count && p.bytes <= lim.bytes
  }

  /** Nothing is lost or repeated between what a page took and what is left. */
  ghost predicate Moves(p: Page, ahead: seq<Event>, samples: seq<Sample>, after: Page, left: seq<Event>,
                        samplesLeft: seq<Sample>) {
    p.events + ahead == after.events + left && p.usage + samples == after.usage + samplesLeft
  }

  // ---------------------------------------------------------------- spawn events

  lemma {:induction false} SpawnMoves(children: seq<Event>, at: nat, p: Page, lim: Limits, rest: seq<Event>)
    requires at <= |children| && Spawn(children, at, p, lim).Ok? && Within(p, lim)
    ensures var r := Spawn(children, at, p, lim).value;
            && at <= r.1 <= |children| && Within(r.0, lim) && r.0.usage == p.usage
            && p.events + (children[at..] + rest) == r.0.events + (children[r.1..] + rest)
    decreases |children| - at
  {
    if at < |children| && |p.events| < lim.count {
      var next := Append(p, children[at], lim).value;
      if next.Some? {
        SpawnMoves(children, at + 1, next.value, lim, rest);
        assert children[at..] == [children[at]] + children[at + 1..];
        Assoc([children[at]], children[at + 1..], rest);
        Assoc(p.events, [children[at]], children[at + 1..] + rest);
      }
    }
  }

  // ---------------------------------------------------------------- files

  lemma LineAhead(lines: seq<Line>, k: nat)
    requires k < |lines|
    ensures match lines[k].what
            case Nothing =>
              EventsOf(lines, k) == EventsOf(lines, k + 1) && SamplesOf(lines, k) == SamplesOf(lines, k + 1)
            case Usage(sample) =>
              EventsOf(lines, k) == EventsOf(lines, k + 1) && SamplesOf(lines, k) == [sample] + SamplesOf(lines, k + 1)
            case Item(event) =>
              EventsOf(lines, k) == [event] + EventsOf(lines, k + 1) && SamplesOf(lines, k) == SamplesOf(lines, k + 1)
  {
    assert [] + EventsOf(lines, k + 1) == EventsOf(lines, k + 1);
    assert [] + SamplesOf(lines, k + 1) == SamplesOf(lines, k + 1);
  }

  /** What `ReadFile` promises from line `k` on. */
  ghost predicate FileMoved(lines: seq<Line>, k: nat, p: Page, lim: Limits, r: (Page, nat, bool)) {
    && k <= r.1 <= |lines| && Within(r.0, lim) && (r.2 <==> r.1 == |lines|)
    && Moves(p, EventsOf(lines, k), SamplesOf(lines, k), r.0, EventsOf(lines, r.1), SamplesOf(lines, r.1))
  }

  /** Taking one line and moving on. */
  lemma MovedOn(lines: seq<Line>, k: nat, p: Page, next: Page, lim: Limits, r: (Page, nat, bool))
    requires k < |lines| && FileMoved(lines, k + 1, next, lim, r)
    requires Moves(p, EventsOf(lines, k), SamplesOf(lines, k), next, EventsOf(lines, k + 1), SamplesOf(lines, k + 1))
    ensures FileMoved(lines, k, p, lim, r)
  {
  }

  lemma MovedNowhere(lines: seq<Line>, k: nat, p: Page, lim: Limits)
    requires k <= |lines| && Within(p, lim)
    ensures FileMoved(lines, k, p, lim, (p, k, k == |lines|))
  {
  }

  lemma {:induction false} ReadFileMoves(lines: seq<Line>, k: nat, p: Page, lim: Limits, tail: seq<Event>)
    requires k <= |lines| && ReadFile(lines, k, p, lim).Ok? && Within(p, lim)
    requires |p.events| < lim.count && Clean(p.events, EventsOf(lines, k) + tail, lim)
    ensures FileMoved(lines, k, p, lim, ReadFile(lines, k, p, lim).value)
    decreases |lines| - k
  {
    hide Clean, HasKey, EventsOf, SamplesOf, FileMoved, Append;
    if k == |lines| {
      MovedNowhere(lines, k, p, lim);
    } else {
      LineAhead(lines, k);
      match lines[k].what
      case Nothing =>
        ReadFileMoves(lines, k + 1, p, lim, tail);
        MovedOn(lines, k, p, p, lim, ReadFile(lines, k, p, lim).value);
      case Usage(sample) =>
        if |p.usage| < lim.count && p.bytes + sample.size + 1 <= lim.bytes {
          var next := p.(usage := p.usage + [sample], bytes := p.bytes + sample.size + 1);
          Assoc(p.usage, [sample], SamplesOf(lines, k + 1));
          ReadFileMoves(lines, k + 1, next, lim, tail);
          MovedOn(lines, k, p, next, lim, ReadFile(lines, k, p, lim).value);
        } else {
          MovedNowhere(lines, k, p, lim);
        }
      case Item(event) =>
        ItemMoves(lines, k, p, lim, tail, event);
    }
  }

  lemma AppendFits(p: Page, e: Event, lim: Limits)
    requires Within(p, lim) && |p.events| < lim.count && Append(p, e, lim).Ok? && Append(p, e, lim).value.Some?
    ensures var next := Append(p, e, lim).value.value;
            Within(next, lim) && next.events == p.events + [e] && next.usage == p.usage
  {
  }

  lemma {:induction false} ItemMoves(lines: seq<Line>, k: nat, p: Page, lim: Limits, tail: seq<Event>, event: Event)
    requires k < |lines| && lines[k].what == Item(event) && ReadFile(lines, k, p, lim).Ok? && Within(p, lim)
    requires |p.events| < lim.count && Clean(p.events, EventsOf(lines, k) + tail, lim)
    ensures FileMoved(lines, k, p, lim, ReadFile(lines, k, p, lim).value)
    decreases |lines| - k, 0
  {
    hide Clean, HasKey, EventsOf, SamplesOf, FileMoved, Append;
    LineAhead(lines, k);
    var rest := EventsOf(lines, k + 1);
    Assoc([event], rest, tail);
    NextIsClean(p.events, event, rest + tail, lim);
    Assoc(p.events, [event], rest);
    var next := Append(p, event, lim).value;
    if next.None? {
      MovedNowhere(lines, k, p, lim);
    } else {
      AppendFits(p, event, lim);
      if |next.value.events| < lim.count {
        ReadFileMoves(lines, k + 1, next.value, lim, tail);
      } else {
        MovedNowhere(lines, k + 1, next.value, lim);
      }
      MovedOn(lines, k, p, next.value, lim, ReadFile(lines, k, p, lim).value);
    }
  }

  /** The cursor stands at a line boundary. */
  predicate Placed(files: seq<File>, k: nat, offset: nat) {
    k < |files| ==> Boundary(files[k].lines, offset)
  }

  lemma FromPlaced(f: File, offset: nat)
    requires Contiguous(f.lines) && Boundary(f.lines, f.startOffset) && Boundary(f.lines, offset)
    ensures Boundary(f.lines, From(f, offset)) && From(f, offset) >= offset
  {
  }

  lemma StartPlaced(f: File)
    requires Contiguous(f.lines)
    ensures Boundary(f.lines, 0)
  {
    LineAtOffset(f.lines, 0);
  }

  /** Reading on from the offset behind line `k` continues with line `k`. */
  lemma ResumeAt(f: File, k: nat, offset: nat)
    requires Contiguous(f.lines) && Boundary(f.lines, f.startOffset) && k <= |f.lines|
    requires LineAt(f.lines, From(f, offset)) <= k && Boundary(f.lines, From(f, offset))
    ensures LineAt(f.lines, From(f, OffsetAt(f.lines, k))) == k && Boundary(f.lines, OffsetAt(f.lines, k))
    ensures OffsetAt(f.lines, k) >= offset
  {
    LineAtOffset(f.lines, k);
    OffsetsRise(f.lines, LineAt(f.lines, From(f, offset)), k);
  }

  lemma ExtendAhead(p: seq<Event>, a: seq<Event>, q: seq<Event>, b: seq<Event>, tail: seq<Event>)
    requires p + a == q + b
    ensures p + (a + tail) == q + (b + tail)
  {
    Assoc(p, a, tail);
    Assoc(q, b, tail);
  }

  lemma ExtendSamples(p: seq<Sample>, a: seq<Sample>, q: seq<Sample>, b: seq<Sample>, tail: seq<Sample>)
    requires p + a == q + b
    ensures p + (a + tail) == q + (b + tail)
  {
    Assoc(p, a, tail);
    Assoc(q, b, tail);
  }

  /** What `ReadFiles` promises from a given place. */
  ghost predicate FilesMoved(files: seq<File>, k: nat, offset: nat, p: Page, lim: Limits, r: (Page, nat, nat)) {
    && k <= r.1 && (r.1 == k ==> r.2 >= offset) && Placed(files, r.1, r.2) && Within(r.0, lim)
    && Moves(p, FilesEvents(files, k, offset), FilesSamples(files, k, offset),
             r.0, FilesEvents(files, r.1, r.2), FilesSamples(files, r.1, r.2))
  }

  lemma {:induction false} ReadFilesMoves(files: seq<File>, k: nat, offset: nat, p: Page, lim: Limits)
    requires FilesOk(files) && Placed(files, k, offset) && ReadFiles(files, k, offset, p, lim).Ok? && Within(p, lim)
    requires Clean(p.events, FilesEvents(files, k, offset), lim)
    ensures FilesMoved(files, k, offset, p, lim, ReadFiles(files, k, offset, p, lim).value)
    decreases |files| - k
  {
    hide Clean, ReadFile, Boundary, Contiguous, From, LineAt;
    if k < |files| && |p.events| < lim.count {
      assert Contiguous(files[k].lines) && Boundary(files[k].lines, files[k].startOffset);
      if k + 1 < |files| {
        assert Contiguous(files[k + 1].lines);
        StartPlaced(files[k + 1]);
      }
      if !files[k].live {
        DeadFile(files, k, offset);
        ReadFilesMoves(files, k + 1, 0, p, lim);
      } else {
        LiveFileMoves(files, k, offset, p, lim);
      }
    }
  }

  lemma DeadFile(files: seq<File>, k: nat, offset: nat)
    requires k < |files| && !files[k].live
    ensures FilesEvents(files, k, offset) == FilesEvents(files, k + 1, 0)
    ensures FilesSamples(files, k, offset) == FilesSamples(files, k + 1, 0)
  {
    assert [] + FilesEvents(files, k + 1, 0) == FilesEvents(files, k + 1, 0);
    assert [] + FilesSamples(files, k + 1, 0) == FilesSamples(files, k + 1, 0);
  }

  lemma {:induction false} LiveFileMoves(files: seq<File>, k: nat, offset: nat, p: Page, lim: Limits)
    requires FilesOk(files) && Placed(files, k, offset) && ReadFiles(files, k, offset, p, lim).Ok? && Within(p, lim)
    requires Clean(p.events, FilesEvents(files, k, offset), lim) && k < |files| && |p.events| < lim.count
             && files[k].live
    requires Contiguous(files[k].lines) && Boundary(files[k].lines, files[k].startOffset)
    requires Placed(files, k + 1, 0)
    ensures FilesMoved(files, k, offset, p, lim, ReadFiles(files, k, offset, p, lim).value)
    decreases |files| - k, 0
  {
    hide Clean, ReadFile, Boundary, Contiguous, From, LineAt, FilesOk;
    var f, lines := files[k], files[k].lines;
    FromPlaced(f, offset);
    var i := LineAt(lines, From(f, offset));
    var tail, samples := FilesEvents(files, k + 1, 0), FilesSamples(files, k + 1, 0);
    ReadFileMoves(lines, i, p, lim, tail);
    var read := ReadFile(lines, i, p, lim).value;
    ExtendAhead(p.events, EventsOf(lines, i), read.0.events, EventsOf(lines, read.1), tail);
    ExtendSamples(p.usage, SamplesOf(lines, i), read.0.usage, SamplesOf(lines, read.1), samples);
    ResumeAt(f, read.1, offset);
    if read.1 == |lines| {
      assert [] + tail == tail && [] + samples == samples;
      CleanSame(p.events, EventsOf(lines, i) + tail, read.0.events, tail, lim);
      ReadFilesMoves(files, k + 1, 0, read.0, lim);
    }
  }

  // ---------------------------------------------------------------- pages and runs

  predicate NotBefore(c: Cursor, d: Cursor) {
    c.spawn <= d.spawn && (c.file < d.file || (c.file == d.file && c.offset <= d.offset))
  }

  ghost predicate Ready(children: seq<Event>, files: seq<File>, c: Cursor) {
    c.spawn <= |children| && FilesOk(files) && Placed(files, c.file, c.offset)
  }

  /** Main result of a page. Unless a key repeats within the page, it takes the next events and
    * samples, in order and once, stays within its limits, and moves the cursor forward only. */
  lemma PageMoves(children: seq<Event>, files: seq<File>, c: Cursor, lim: Limits)
    requires Ready(children, files, c) && Clean([], EventsAhead(children, files, c), lim)
    requires Collect(children, files, c, lim).Ok?
    ensures var r := Collect(children, files, c, lim).value;
            && Ready(children, files, r.cursor) && Within(r.page, lim) && NotBefore(c, r.cursor)
            && EventsAhead(children, files, c) == r.page.events + EventsAhead(children, files, r.cursor)
            && SamplesAhead(files, c) == r.page.usage + SamplesAhead(files, r.cursor)
  {
    hide FilesOk, KeysDistinct, FilesEvents, FilesSamples, ReadFiles, Spawn;
    var ahead, empty := FilesEvents(files, c.file, c.offset), Page([], [], 0);
    SpawnMoves(children, c.spawn, empty, lim, ahead);
    var spawned := Spawn(children, c.spawn, empty, lim).value;
    assert [] + (children[c.spawn..] + ahead) == children[c.spawn..] + ahead;
    assert [] + SamplesAhead(files, c) == SamplesAhead(files, c);
    if spawned.1 == |children| {
      assert children[|children|..] == [];
      assert [] + ahead == ahead;
      ReadFilesMoves(files, c.file, c.offset, spawned.0, lim);
      var read := ReadFiles(files, c.file, c.offset, spawned.0, lim).value;
      assert [] + FilesEvents(files, read.1, read.2) == FilesEvents(files, read.1, read.2);
    }
  }

  lemma CompleteIsEmpty(children: seq<Event>, files: seq<File>, c: Cursor)
    requires c.spawn <= |children| && Complete(children, files, c)
    ensures EventsAhead(children, files, c) == [] && SamplesAhead(files, c) == []
  {
  }

  datatype Output = Output(events: seq<Event>, usage: seq<Sample>, cursor: Cursor)

  /** Pages asked for one after the other, each with limits of its own. */
  function Run(children: seq<Event>, files: seq<File>, c: Cursor, lims: seq<Limits>, n: nat): (r: Result<Output>)
    requires c.spawn <= |children| && n <= |lims|
    ensures r.Ok? ==> r.value.cursor.spawn <= |children|
  {
    if n == 0 then Ok(Output([], [], c))
    else
      var before :- Run(children, files, c, lims, n - 1);
      var paged :- Collect(children, files, before.cursor, lims[n - 1]);
      if paged.cursor.spawn > |children| then Err(Format)
      else Ok(Output(before.events + paged.page.events, before.usage + paged.page.usage, paged.cursor))
  }

  lemma DistinctSuffix(a: seq<Event>, b: seq<Event>)
    requires KeysDistinct(a + b)
    ensures KeysDistinct(b)
  {
    forall i, j | 0 <= i < j < |b|
      ensures b[i].key != b[j].key
    {
      assert (a + b)[|a| + i] == b[i] && (a + b)[|a| + j] == b[j];
    }
  }

  lemma {:induction false} RunMoves(children: seq<Event>, files: seq<File>, c: Cursor, lims: seq<Limits>, n: nat)
    requires n <= |lims| && Ready(children, files, c) && KeysDistinct(EventsAhead(children, files, c))
    requires Run(children, files, c, lims, n).Ok?
    ensures var r := Run(children, files, c, lims, n).value;
            && Ready(children, files, r.cursor) && NotBefore(c, r.cursor)
            && EventsAhead(children, files, c) == r.events + EventsAhead(children, files, r.cursor)
            && SamplesAhead(files, c) == r.usage + SamplesAhead(files, r.cursor)
  {
    hide FilesOk, KeysDistinct, EventsAhead, SamplesAhead, Collect, Placed, Within;
    if n == 0 {
      assert [] + EventsAhead(children, files, c) == EventsAhead(children, files, c);
      assert [] + SamplesAhead(files, c) == SamplesAhead(files, c);
    } else {
      RunMoves(children, files, c, lims, n - 1);
      var before := Run(children, files, c, lims, n - 1).value;
      DistinctSuffix(before.events, EventsAhead(children, files, before.cursor));
      DistinctIsClean(EventsAhead(children, files, before.cursor), lims[n - 1]);
      PageMoves(children, files, before.cursor, lims[n - 1]);
      var paged := Collect(children, files, before.cursor, lims[n - 1]).value;
      Assoc(before.events, paged.page.events, EventsAhead(children, files, paged.cursor));
      Assoc(before.usage, paged.page.usage, SamplesAhead(files, paged.cursor));
    }
  }

  /** Main result. Whatever the limits, a run of pages that ends complete puts out exactly what
    * lay ahead of its first cursor: the spawn events, then the files' events, each once and in
    * order, and likewise the usage samples. */
  lemma CompleteRunIsOnePass(children: seq<Event>, files: seq<File>, c: Cursor, lims: seq<Limits>)
    requires Ready(children, files, c) && KeysDistinct(EventsAhead(children, files, c))
    requires Run(children, files, c, lims, |lims|).Ok?
             && Complete(children, files, Run(children, files, c, lims, |lims|).value.cursor)
    ensures var r := Run(children, files, c, lims, |lims|).value;
            r.events == EventsAhead(children, files, c) && r.usage == SamplesAhead(files, c)
  {
    var r := Run(children, files, c, lims, |lims|).value;
    RunMoves(children, files, c, lims, |lims|);
    CompleteIsEmpty(children, files, r.cursor);
    assert r.events + [] == r.events && r.usage + [] == r.usage;
    hide Run;
  }

  // ---------------------------------------------------------------- why keys must be distinct

  lemma AppendDistinct(events: seq<Event>, e: Event)
    requires KeysDistinct(events) && !HasKey(events, e.key)
    ensures KeysDistinct(events + [e])
  {
  }

  lemma {:induction false} ReadFileDistinct(lines: seq<Line>, k: nat, p: Page, lim: Limits)
    requires k <= |lines| && KeysDistinct(p.events) && ReadFile(lines, k, p, lim).Ok?
    ensures KeysDistinct(ReadFile(lines, k, p, lim).value.0.events)
    decreases |lines| - k
  {
    hide KeysDistinct, HasKey;
    if k < |lines| {
      match lines[k].what
      case Nothing => ReadFileDistinct(lines, k + 1, p, lim);
      case Usage(sample) =>
        if |p.usage| < lim.count && p.bytes + sample.size + 1 <= lim.bytes {
          ReadFileDistinct(lines, k + 1, p.(usage := p.usage + [sample], bytes := p.bytes + sample.size + 1), lim);
        }
      case Item(event) =>
        if HasKey(p.events, event.key) {
          if |p.events| < lim.count {
            ReadFileDistinct(lines, k + 1, p, lim);
          }
        } else if Append(p, event, lim).value.Some? {
          AppendDistinct(p.events, event);
          var next := Append(p, event, lim).value.value;
          if |next.events| < lim.count {
            ReadFileDistinct(lines, k + 1, next, lim);
          }
        }
    }
  }

  lemma {:induction false} ReadFilesDistinct(files: seq<File>, k: nat, offset: nat, p: Page, lim: Limits)
    requires KeysDistinct(p.events) && ReadFiles(files, k, offset, p, lim).Ok?
    ensures KeysDistinct(ReadFiles(files, k, offset, p, lim).value.0.events)
    decreases |files| - k
  {
    hide KeysDistinct, ReadFile;
    if k < |files| && |p.events| < lim.count {
      if !files[k].live {
        ReadFilesDistinct(files, k + 1, 0, p, lim);
      } else {
        var i := LineAt(files[k].lines, From(files[k], offset));
        ReadFileDistinct(files[k].lines, i, p, lim);
        var read := ReadFile(files[k].lines, i, p, lim).value;
        if read.2 && read.1 <= |files[k].lines| && !(|read.0.events| >= lim.count && read.1 < |files[k].lines|) {
          ReadFilesDistinct(files, k + 1, 0, read.0, lim);
        }
      }
    }
  }

  /** Main result. A single page that completes is the whole pass exactly when no key repeats: a
    * page drops repeats that two pages would both show. */
  lemma OnePageExact(children: seq<Event>, files: seq<File>, c: Cursor, lim: Limits)
    requires Ready(children, files, c) && KeysDistinct(children[c.spawn..])
    requires Collect(children, files, c, lim).Ok?
             && Complete(children, files, Collect(children, files, c, lim).value.cursor)
    ensures Collect(children, files, c, lim).value.page.events == EventsAhead(children, files, c)
            <==> KeysDistinct(EventsAhead(children, files, c))
  {
    hide FilesOk, KeysDistinct, ReadFiles, Spawn, FilesEvents;
    var r := Collect(children, files, c, lim).value;
    var spawned := Spawn(children, c.spawn, Page([], [], 0), lim).value;
    SpawnMoves(children, c.spawn, Page([], [], 0), lim, []);
    assert spawned.0.events == children[c.spawn..] by {
      assert children[spawned.1..] == [];
      assert [] + (children[c.spawn..] + []) == children[c.spawn..];
      assert spawned.0.events + ([] + []) == spawned.0.events;
    }
    ReadFilesDistinct(files, c.file, c.offset, spawned.0, lim);
    if KeysDistinct(EventsAhead(children, files, c)) {
      DistinctIsClean(EventsAhead(children, files, c), lim);
      PageMoves(children, files, c, lim);
      CompleteIsEmpty(children, files, r.cursor);
      assert r.page.events + [] == r.page.events;
    }
  }

  // ---------------------------------------------------------------- pages of one event

  /** No event and no sample is larger. */
  predicate LineFits(l: Line, size: nat) {
    match l.what
    case Nothing => true
    case Usage(sample) => sample.size <= size
    case Item(event) => event.size <= size
  }

  ghost predicate SizesWithin(children: seq<Event>, files: seq<File>, size: nat) {
    && (forall k :: 0 <= k < |children| ==> children[k].size <= size)
    && forall k, i {:trigger files[k].lines[i]} :: 0 <= k < |files| && 0 <= i < |files[k].lines| ==>
         LineFits(files[k].lines[i], size)
  }

  /** A page of one event, with room for that event and one sample. */
  function One(size: nat): Limits {
    Limits(1, 2 * size + 2)
  }

  /** The page holds no event yet, and its samples leave room for one. */
  predicate HasRoom(p: Page, size: nat) {
    p.events == [] && p.bytes <= |p.usage| * (size + 1) && |p.usage| <= 1
  }

  /** A single-event page never fails on a file, and moves past its first line. */
  lemma {:induction false} OneReadsOn(lines: seq<Line>, k: nat, p: Page, size: nat)
    requires k <= |lines| && HasRoom(p, size) && forall i :: 0 <= i < |lines| ==> LineFits(lines[i], size)
    ensures var r := ReadFile(lines, k, p, One(size));
            && r.Ok? && k <= r.value.1 <= |lines| && (r.value.2 <==> r.value.1 == |lines|)
            && (k < |lines| && p.usage == [] ==> r.value.1 > k)
            && (r.value.0.events == [] ==> HasRoom(r.value.0, size)) && |r.value.0.events| <= 1
    decreases |lines| - k
  {
    if k < |lines| {
      assert LineFits(lines[k], size);
      match lines[k].what
      case Nothing => OneReadsOn(lines, k + 1, p, size);
      case Usage(sample) =>
        if p.usage == [] {
          OneReadsOn(lines, k + 1, p.(usage := p.usage + [sample], bytes := p.bytes + sample.size + 1), size);
        }
      case Item(event) =>
        assert !HasKey(p.events, event.key);
        assert p.bytes <= size + 1;
    }
  }

  /** How many pages of one event a cursor needs at most. */
  function FileSteps(files: seq<File>, k: nat, offset: nat): nat
    decreases |files| - k
  {
    if k >= |files| then 0
    else 1 + |files[k].lines| - LineAt(files[k].lines, From(files[k], offset)) + FileSteps(files, k + 1, 0)
  }

  function Steps(children: seq<Event>, files: seq<File>, c: Cursor): nat
    requires c.spawn <= |children|
  {
    |children| - c.spawn + FileSteps(files, c.file, c.offset)
  }

  /** A single-event page over files never fails, and gets nearer to the end. */
  lemma {:induction false} OneFilesOn(files: seq<File>, k: nat, offset: nat, p: Page, size: nat)
    requires FilesOk(files) && Placed(files, k, offset) && HasRoom(p, size) && SizesWithin([], files, size)
    ensures var r := ReadFiles(files, k, offset, p, One(size));
            && r.Ok? && FileSteps(files, r.value.1, r.value.2) <= FileSteps(files, k, offset)
            && (k < |files| && p.usage == [] ==> FileSteps(files, r.value.1, r.value.2) < FileSteps(files, k, offset))
    decreases |files| - k
  {
    hide Contiguous, Boundary, From, LineAt, ReadFile, HasRoom;
    assert One(size).count == 1 && (HasRoom(p, size) ==> p.events == []) by {
      RoomIsEmpty(p, size);
    }
    if k < |files| {
      if k + 1 < |files| {
        assert Contiguous(files[k + 1].lines);
        StartPlaced(files[k + 1]);
      }
      if !files[k].live {
        OneFilesOn(files, k + 1, 0, p, size);
      } else {
        OneFileOn(files, k, offset, p, size);
      }
    }
  }

  lemma RoomIsEmpty(p: Page, size: nat)
    requires HasRoom(p, size)
    ensures p.events == []
  {
  }

  lemma {:induction false} OneFileOn(files: seq<File>, k: nat, offset: nat, p: Page, size: nat)
    requires FilesOk(files) && Placed(files, k, offset) && HasRoom(p, size) && SizesWithin([], files, size)
    requires k < |files| && files[k].live && Placed(files, k + 1, 0) && p.events == []
    ensures var r := ReadFiles(files, k, offset, p, One(size));
            && r.Ok? && FileSteps(files, r.value.1, r.value.2) <= FileSteps(files, k, offset)
            && (p.usage == [] ==> FileSteps(files, r.value.1, r.value.2) < FileSteps(files, k, offset))
    decreases |files| - k, 0
  {
    hide Contiguous, Boundary, From, LineAt, ReadFile, HasRoom, FilesOk;
    var f, lines := files[k], files[k].lines;
    FileIsOk(files, k);
    FromPlaced(f, offset);
    var i := LineAt(lines, From(f, offset));
    OneReadsOn(lines, i, p, size);
    var read := ReadFile(lines, i, p, One(size)).value;
    ResumeAt(f, read.1, offset);
    if read.2 {
      if read.0.events == [] {
        OneFilesOn(files, k + 1, 0, read.0, size);
      } else {
        assert ReadFiles(files, k + 1, 0, read.0, One(size)) == Ok((read.0, k + 1, 0));
      }
    }
  }

  lemma FileIsOk(files: seq<File>, k: nat)
    requires FilesOk(files) && k < |files|
    ensures Contiguous(files[k].lines) && Boundary(files[k].lines, files[k].startOffset)
  {
  }

  /** A page of one event succeeds, and gets nearer to the end unless it is there. */
  lemma OnePageOn(children: seq<Event>, files: seq<File>, c: Cursor, size: nat)
    requires Ready(children, files, c) && SizesWithin(children, files, size)
    ensures var r := Collect(children, files, c, One(size));
            && r.Ok? && r.value.cursor.spawn <= |children|
            && (!Complete(children, files, c) ==> Steps(children, files, r.value.cursor) < Steps(children, files, c))
  {
    hide FilesOk, Placed, FileSteps;
    var empty := Page([], [], 0);
    if c.spawn < |children| {
      assert children[c.spawn].size <= size;
      var first := Page([children[c.spawn]], [], children[c.spawn].size);
      assert [] + [children[c.spawn]] == [children[c.spawn]];
      assert Append(empty, children[c.spawn], One(size)) == Ok(Some(first));
      assert Spawn(children, c.spawn + 1, first, One(size)) == Ok((first, c.spawn + 1));
      assert Spawn(children, c.spawn, empty, One(size)) == Ok((first, c.spawn + 1));
      assert ReadFiles(files, c.file, c.offset, first, One(size)) == Ok((first, c.file, c.offset));
    } else {
      assert Spawn(children, c.spawn, empty, One(size)) == Ok((empty, c.spawn));
      OneFilesOn(files, c.file, c.offset, empty, size);
    }
  }

  /** A size that no event and no sample exceeds. */
  function LineSize(l: Line): nat {
    match l.what case Nothing => 0 case Usage(sample) => sample.size case Item(event) => event.size
  }

  lemma {:induction false} LinesHaveSize(lines: seq<Line>) returns (size: nat)
    ensures forall i :: 0 <= i < |lines| ==> LineFits(lines[i], size)
  {
    size := 0;
    if lines != [] {
      var rest := LinesHaveSize(lines[..|lines| - 1]);
      size := Max(rest, LineSize(lines[|lines| - 1]));
      forall i | 0 <= i < |lines|
        ensures LineFits(lines[i], size)
      {
        if i < |lines| - 1 {
          assert LineFits(lines[..|lines| - 1][i], rest);
        }
      }
    }
  }

  lemma {:induction false} FilesHaveSize(files: seq<File>) returns (size: nat)
    ensures SizesWithin([], files, size)
  {
    size := 0;
    if files != [] {
      var last := |files| - 1;
      var rest := FilesHaveSize(files[..last]);
      var own := LinesHaveSize(files[last].lines);
      size := Max(rest, own);
      forall k, i | 0 <= k < |files| && 0 <= i < |files[k].lines|
        ensures LineFits(files[k].lines[i], size)
      {
        if k < last {
          assert LineFits(files[..last][k].lines[i], rest);
        } else {
          assert LineFits(files[last].lines[i], own);
        }
      }
    }
  }

  lemma {:induction false} EverythingHasSize(children: seq<Event>, files: seq<File>) returns (size: nat)
    ensures SizesWithin(children, files, size)
  {
    if children == [] {
      size := FilesHaveSize(files);
    } else {
      var rest := EverythingHasSize(children[1..], files);
      size := Max(rest, children[0].size);
      forall k | 0 <= k < |children|
        ensures children[k].size <= size
      {
        assert k > 0 ==> children[1..][k - 1] == children[k];
      }
      forall k, i | 0 <= k < |files| && 0 <= i < |files[k].lines|
        ensures LineFits(files[k].lines[i], size)
      {
        assert LineFits(files[k].lines[i], rest);
      }
    }
  }

  /** The run has put out everything between its first cursor and where it stands. */
  ghost predicate Accounts(children: seq<Event>, files: seq<File>, c: Cursor, lims: seq<Limits>)
    requires c.spawn <= |children|
  {
    var r := Run(children, files, c, lims, |lims|);
    && r.Ok? && Ready(children, files, r.value.cursor)
    && EventsAhead(children, files, c) == r.value.events + EventsAhead(children, files, r.value.cursor)
  }

  lemma {:induction false} RunPrefix(children: seq<Event>, files: seq<File>, c: Cursor, a: seq<Limits>,
                                     b: seq<Limits>, n: nat)
    requires c.spawn <= |children| && n <= |a|
    ensures Run(children, files, c, a + b, n) == Run(children, files, c, a, n)
  {
    hide Collect;
    if n > 0 {
      RunPrefix(children, files, c, a, b, n - 1);
    }
  }

  /** Single-event pages lead to the end, and put out everything, repeats included. */
  lemma {:induction false} OnesLeadOn(children: seq<Event>, files: seq<File>, c: Cursor, lims: seq<Limits>, size: nat)
    returns (all: seq<Limits>)
    requires Ready(children, files, c) && SizesWithin(children, files, size) && Accounts(children, files, c, lims)
    ensures Accounts(children, files, c, all)
    ensures Complete(children, files, Run(children, files, c, all, |all|).value.cursor)
    decreases Steps(children, files, Run(children, files, c, lims, |lims|).value.cursor)
  {
    hide FilesOk, Placed, SizesWithin, EventsAhead, SamplesAhead, Collect, Complete, Clean, Steps;
    var now := Run(children, files, c, lims, |lims|).value;
    if Complete(children, files, now.cursor) {
      all := lims;
    } else {
      var more := lims + [One(size)];
      OnePageOn(children, files, now.cursor, size);
      OneIsClean(EventsAhead(children, files, now.cursor), size);
      PageMoves(children, files, now.cursor, One(size));
      RunPrefix(children, files, c, lims, [One(size)], |lims|);
      assert more[|more| - 1] == One(size) && |more| - 1 == |lims|;
      var paged := Collect(children, files, now.cursor, One(size)).value;
      Assoc(now.events, paged.page.events, EventsAhead(children, files, paged.cursor));
      all := OnesLeadOn(children, files, c, more, size);
    }
  }

  lemma OneIsClean(ahead: seq<Event>, size: nat)
    ensures Clean([], ahead, One(size))
  {
  }

  lemma NothingAccounted(children: seq<Event>, files: seq<File>, c: Cursor)
    requires Ready(children, files, c)
    ensures Accounts(children, files, c, [])
  {
    assert [] + EventsAhead(children, files, c) == EventsAhead(children, files, c);
  }

  /** Some run of pages completes and puts out everything that lay ahead, repeats included. */
  lemma SomeRunShowsAll(children: seq<Event>, files: seq<File>, c: Cursor) returns (lims: seq<Limits>)
    requires Ready(children, files, c)
    ensures Completes(children, files, c, lims)
    ensures Run(children, files, c, lims, |lims|).value.events == EventsAhead(children, files, c)
  {
    hide FilesOk, Placed, SizesWithin, EventsAhead, Run;
    var size := EverythingHasSize(children, files);
    NothingAccounted(children, files, c);
    lims := OnesLeadOn(children, files, c, [], size);
    var r := Run(children, files, c, lims, |lims|).value;
    CompleteIsEmpty(children, files, r.cursor);
    assert r.events + [] == r.events;
  }

  ghost predicate Completes(children: seq<Event>, files: seq<File>, c: Cursor, lims: seq<Limits>)
    requires c.spawn <= |children|
  {
    var r := Run(children, files, c, lims, |lims|);
    r.Ok? && Complete(children, files, r.value.cursor)
  }

  /** Main result. All completing runs of pages put out the events of a completing single page
    * exactly when no key repeats ahead of the cursor. Spawn events are named after their threads and
    * never repeat among themselves. */
  lemma PagingMatchesOnePage(children: seq<Event>, files: seq<File>, c: Cursor, lim: Limits)
    requires Ready(children, files, c) && KeysDistinct(children[c.spawn..])
    requires Collect(children, files, c, lim).Ok?
    requires Complete(children, files, Collect(children, files, c, lim).value.cursor)
    ensures (forall lims: seq<Limits> {:trigger Completes(children, files, c, lims)} ::
               Completes(children, files, c, lims) ==>
               Run(children, files, c, lims, |lims|).value.events == Collect(children, files, c, lim).value.page.events)
            <==> KeysDistinct(EventsAhead(children, files, c))
  {
    hide FilesOk, Placed, EventsAhead, Run, Collect, KeysDistinct, Complete;
    OnePageExact(children, files, c, lim);
    var one := Collect(children, files, c, lim).value.page.events;
    if KeysDistinct(EventsAhead(children, files, c)) {
      forall lims: seq<Limits> | Completes(children, files, c, lims)
        ensures Run(children, files, c, lims, |lims|).value.events == one
      {
        CompleteRunIsOnePass(children, files, c, lims);
      }
    } else {
      var lims := SomeRunShowsAll(children, files, c);
    }
  }

  /** One file with two lines of one key: a page of two events shows the key once, two pages of one
    * event show it twice. */
  lemma RepeatShownTwice()
    ensures var files := [File(true, 0, [Line(0, 1, Item(Event("k", 1))), Line(1, 2, Item(Event("k", 1)))])];
            var c := Cursor(0, 0, 0);
            && Ready([], files, c)
            && Collect([], files, c, Limits(2, 9)) == Ok(Paged(Page([Event("k", 1)], [], 1), Cursor(0, 1, 0)))
            && Run([], files, c, [Limits(1, 9), Limits(1, 9)], 2)
               == Ok(Output([Event("k", 1), Event("k", 1)], [], Cursor(0, 1, 0)))
  {
    hide ReadFiles, ReadFile, FilesOk;
    var e := Event("k", 1);
    var files, c := [File(true, 0, [Line(0, 1, Item(e)), Line(1, 2, Item(e))])], Cursor(0, 0, 0);
    RepeatReady();
    RepeatPages();
    assert [e] + [e] == [e, e] && [] + [e] == [e];
    var one := Page([e], [], 1);
    assert Collect([], files, c, Limits(1, 9)) == Ok(Paged(one, Cursor(0, 0, 1)));
    assert Collect([], files, Cursor(0, 0, 1), Limits(1, 9)) == Ok(Paged(one, Cursor(0, 1, 0)));
    var lims, nothing: seq<Sample> := [Limits(1, 9), Limits(1, 9)], [];
    assert nothing + nothing == nothing;
    assert Run([], files, c, lims, 0) == Ok(Output([], [], c));
    assert Run([], files, c, lims, 1) == Ok(Output([e], [], Cursor(0, 0, 1)));
  }

  lemma RepeatReady()
    ensures Ready([], [File(true, 0, [Line(0, 1, Item(Event("k", 1))), Line(1, 2, Item(Event("k", 1)))])],
                  Cursor(0, 0, 0))
  {
    var lines := [Line(0, 1, Item(Event("k", 1))), Line(1, 2, Item(Event("k", 1)))];
    assert Follows(lines, 0) && Follows(lines, 1);
    assert Contiguous(lines);
    LineAtOffset(lines, 0);
  }

  lemma RepeatPages()
    ensures var e := Event("k", 1);
            var files := [File(true, 0, [Line(0, 1, Item(e)), Line(1, 2, Item(e))])];
            && ReadFiles(files, 0, 0, Page([], [], 0), Limits(2, 9)) == Ok((Page([e], [], 1), 1, 0))
            && ReadFiles(files, 0, 0, Page([], [], 0), Limits(1, 9)) == Ok((Page([e], [], 1), 0, 1))
            && ReadFiles(files, 0, 1, Page([], [], 0), Limits(1, 9)) == Ok((Page([e], [], 1), 1, 0))
  {
    var e := Event("k", 1);
    var lines := [Line(0, 1, Item(e)), Line(1, 2, Item(e))];
    var files := [File(true, 0, lines)];
    var none, one := Page([], [], 0), Page([e], [], 1);
    assert Follows(lines, 0) && Follows(lines, 1);
    assert Contiguous(lines);
    LineAtOffset(lines, 0);
    LineAtOffset(lines, 1);
    assert [] + [e] == [e];
    assert ReadFile(lines, 1, one, Limits(2, 9)) == Ok((one, 2, true)) by {
      assert one.events[0].key == e.key;
    }
    assert ReadFile(lines, 0, none, Limits(2, 9)) == Ok((one, 2, true));
    assert ReadFile(lines, 0, none, Limits(1, 9)) == Ok((one, 1, false));
    assert ReadFile(lines, 1, none, Limits(1, 9)) == Ok((one, 2, true));
    hide ReadFile, LineAt;
    assert ReadFiles(files, 1, 0, one, Limits(2, 9)) == Ok((one, 1, 0));
    assert ReadFiles(files, 1, 0, one, Limits(1, 9)) == Ok((one, 1, 0));
  }

  // ---------------------------------------------------------------- the loops of the source

  /** The key set of the page, as the source keeps it. */
  ghost predicate KeysOf(keys: set<string>, events: seq<Event>) {
    forall key :: key in keys <==> HasKey(events, key)
  }

  lemma KeysSnoc(keys: set<string>, events: seq<Event>, e: Event)
    requires KeysOf(keys, events)
    ensures KeysOf(keys + {e.key}, events + [e])
  {
    forall key
      ensures key in keys + {e.key} <==> HasKey(events + [e], key)
    {
      if HasKey(events, key) {
        var k :| 0 <= k < |events| && events[k].key == key;
        assert (events + [e])[k].key == key;
      }
      assert (events + [e])[|events|].key == e.key;
    }
  }

  /** The `for await` loop over one file. */
  method ReadLines(lines: seq<Line>, from: nat, start: Page, keys: set<string>, lim: Limits)
    returns (r: Result<(Page, nat, bool)>, known: set<string>)
    requires from <= |lines| && KeysOf(keys, start.events)
    ensures r == ReadFile(lines, from, start, lim)
    ensures r.Ok? ==> KeysOf(known, r.value.0.events)
  {
    hide HasKey, KeysOf, Append;
    var p, k := start, from;
    known := keys;
    while k < |lines|
      invariant from <= k <= |lines| && KeysOf(known, p.events)
      invariant ReadFile(lines, from, start, lim) == ReadFile(lines, k, p, lim)
    {
      match lines[k].what {
      case Nothing =>
      case Usage(sample) =>
        if |p.usage| >= lim.count || p.bytes + sample.size + 1 > lim.bytes {
          return Ok((p, k, false)), known;
        }
        p := p.(usage := p.usage + [sample], bytes := p.bytes + sample.size + 1);
      case Item(event) =>
        KeyKnown(known, p.events, event.key);
        if event.key !in known {
          var next := Append(p, event, lim);
          if next.Err? {
            return Err(next.reason), known;
          }
          if next.value.None? {
            return Ok((p, k, false)), known;
          }
          AppendAdds(p, event, lim);
          KeysSnoc(known, p.events, event);
          p := next.value.value;
          known := known + {event.key};
        }
        if |p.events| >= lim.count {
          return Ok((p, k + 1, k + 1 == |lines|)), known;
        }
      }
      k := k + 1;
    }
    r := Ok((p, k, true));
  }

  lemma KeyKnown(keys: set<string>, events: seq<Event>, key: string)
    requires KeysOf(keys, events)
    ensures key in keys <==> HasKey(events, key)
  {
  }

  lemma AppendAdds(p: Page, e: Event, lim: Limits)
    requires Append(p, e, lim).Ok? && Append(p, e, lim).value.Some?
    ensures Append(p, e, lim).value.value.events == p.events + [e]
  {
  }

  /** `collectEvents`. */
  method CollectEvents(children: seq<Event>, files: seq<File>, c: Cursor, lim: Limits)
    returns (r: Result<Paged>, complete: bool)
    requires c.spawn <= |children|
    ensures r == Collect(children, files, c, lim)
    ensures r.Ok? ==> complete == Complete(children, files, r.value.cursor)
  {
    hide HasKey, KeysOf, Append, ReadFile, LineAt, From;
    complete := false;
    var p, spawn := Page([], [], 0), c.spawn;
    ghost var start := p;
    var keys := {};
    NoKeys();
    while spawn < |children| && |p.events| < lim.count
      invariant c.spawn <= spawn <= |children| && KeysOf(keys, p.events)
      invariant Spawn(children, c.spawn, start, lim) == Spawn(children, spawn, p, lim)
    {
      var next := Append(p, children[spawn], lim);
      if next.Err? {
        return Err(next.reason), false;
      }
      if next.value.None? {
        break;
      }
      AppendAdds(p, children[spawn], lim);
      KeysSnoc(keys, p.events, children[spawn]);
      keys := keys + {children[spawn].key};
      p := next.value.value;
      spawn := spawn + 1;
    }
    ghost var spawned := p;
    assert Spawn(children, c.spawn, start, lim) == Ok((p, spawn));
    var fileIndex, offset := c.file, c.offset;
    while spawn >= |children| && fileIndex < |files| && |p.events| < lim.count
      invariant KeysOf(keys, p.events) && fileIndex >= c.file
      invariant spawn >= |children| ==>
                  ReadFiles(files, c.file, c.offset, spawned, lim) == ReadFiles(files, fileIndex, offset, p, lim)
      invariant spawn < |children| ==> p == spawned && fileIndex == c.file && offset == c.offset
      decreases |files| - fileIndex
    {
      var f := files[fileIndex];
      if !f.live {
        fileIndex, offset := fileIndex + 1, 0;
      } else {
        var read, known := ReadLines(f.lines, LineAt(f.lines, From(f, offset)), p, keys, lim);
        if read.Err? {
          return Err(read.reason), false;
        }
        p, keys := read.value.0, known;
        var at := read.value.1;
        if !read.value.2 || at > |f.lines| || (|p.events| >= lim.count && at < |f.lines|) {
          if at <= |f.lines| {
            offset := OffsetAt(f.lines, at);
          }
          complete := spawn >= |children| && fileIndex >= |files|;
          return Ok(Paged(p, Cursor(spawn, fileIndex, offset))), complete;
        }
        fileIndex, offset := fileIndex + 1, 0;
      }
    }
    complete := spawn >= |children| && fileIndex >= |files|;
    r := Ok(Paged(p, Cursor(spawn, fileIndex, offset)));
  }

  lemma NoKeys()
    ensures KeysOf({}, [])
  {
  }
}
