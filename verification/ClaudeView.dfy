/** The paged Claude view: one or more frames for each physical line, delivered in pages.
  * Whatever the page limits, the pages spell out one fixed list of frames, and the
  * "projection passes disagree" check at the end cannot fire. */
module ClaudeView {
  import opened Base
  import opened ClaudeRecords
  import opened ClaudeHistory
  import opened ClaudePlan

  datatype Raw = NoRaw | WholeRecord | Reference

  /** `part` 0 carries the physical record; later parts refer to it. */
  datatype Frame = Frame(stream: nat, at: Position, part: nat, events: seq<Event>, usage: seq<string>, raw: Raw)

  datatype Limits = Limits(pageItems: nat, pageBytes: nat, envelope: nat, frames: nat, rawEnabled: bool)

  /** Abstract encoded sizes and the admission limits of one request. */
  datatype Setting = Setting(size: Frame -> nat, limits: Limits)

  datatype Stream = Stream(file: seq<Line>, nodes: map<string, Node>, plan: Plan, events: nat, usage: nat)

  const MaxItems := 500

  predicate Fits(s: Setting, f: Frame) {
    s.size(f) + s.limits.envelope <= s.limits.pageBytes
  }

  function OpenFrame(s: Setting, stream: nat, at: Position, part: nat): Frame {
    Frame(stream, at, part, [], [],
          if !s.limits.rawEnabled then NoRaw else if part == 0 then WholeRecord else Reference)
  }

  /** Moves events into the frame while they fit. */
  function TakeEvents(s: Setting, f: Frame, events: seq<Event>): Frame
    decreases |events|
  {
    if events == [] || |f.events| >= MaxItems || !Fits(s, f.(events := f.events + [events[0]])) then f
    else TakeEvents(s, f.(events := f.events + [events[0]]), events[1..])
  }

  function TakeUsage(s: Setting, f: Frame, usage: seq<string>): Frame
    decreases |usage|
  {
    if usage == [] || |f.usage| >= MaxItems || !Fits(s, f.(usage := f.usage + [usage[0]])) then f
    else TakeUsage(s, f.(usage := f.usage + [usage[0]]), usage[1..])
  }

  lemma {:induction false} TakeEventsPrefix(s: Setting, f: Frame, events: seq<Event>)
    requires Fits(s, f)
    ensures var g := TakeEvents(s, f, events);
            && Fits(s, g) && |f.events| <= |g.events| <= |f.events| + |events| && g == f.(events := g.events)
            && g.events == f.events + events[..|g.events| - |f.events|]
    decreases |events|
  {
    if !(events == [] || |f.events| >= MaxItems || !Fits(s, f.(events := f.events + [events[0]]))) {
      TakeEventsPrefix(s, f.(events := f.events + [events[0]]), events[1..]);
    }
  }

  lemma {:induction false} TakeUsagePrefix(s: Setting, f: Frame, usage: seq<string>)
    requires Fits(s, f)
    ensures var g := TakeUsage(s, f, usage);
            && Fits(s, g) && |f.usage| <= |g.usage| <= |f.usage| + |usage| && g == f.(usage := g.usage)
            && g.usage == f.usage + usage[..|g.usage| - |f.usage|]
    decreases |usage|
  {
    if !(usage == [] || |f.usage| >= MaxItems || !Fits(s, f.(usage := f.usage + [usage[0]]))) {
      TakeUsagePrefix(s, f.(usage := f.usage + [usage[0]]), usage[1..]);
    }
  }

  /** The next frame of a record, filled greedily. */
  function NextFrame(s: Setting, stream: nat, at: Position, part: nat, events: seq<Event>,
                     usage: seq<string>): (f: Frame)
    requires Fits(s, OpenFrame(s, stream, at, part))
    ensures Fits(s, f) && f.stream == stream && f.at == at && f.part == part
    ensures f.raw == OpenFrame(s, stream, at, part).raw
    ensures |f.events| <= |events| && f.events == events[..|f.events|]
    ensures |f.usage| <= |usage| && f.usage == usage[..|f.usage|]
  {
    var open := OpenFrame(s, stream, at, part);
    TakeEventsPrefix(s, open, events);
    var filled := TakeEvents(s, open, events);
    TakeUsagePrefix(s, filled, usage);
    TakeUsage(s, filled, usage)
  }

  /** All frames of one physical record. */
  function MakeFrames(s: Setting, stream: nat, at: Position, part: nat, events: seq<Event>,
                      usage: seq<string>): Result<seq<Frame>>
    decreases |events| + |usage|, if part == 0 then 1 else 0
  {
    if !Fits(s, OpenFrame(s, stream, at, part)) then Err(Limit)
    else
      var f := NextFrame(s, stream, at, part, events, usage);
      var events', usage' := events[|f.events|..], usage[|f.usage|..];
      if events' == [] && usage' == [] then Ok([f])
      else if part > 0 && f.events == [] && f.usage == [] then Err(Limit)
      else var rest :- MakeFrames(s, stream, at, part + 1, events', usage');
           Ok([f] + rest)
  }

  function FrameEvents(frames: seq<Frame>): seq<Event> {
    if frames == [] then [] else frames[0].events + FrameEvents(frames[1..])
  }

  function FrameUsage(frames: seq<Frame>): seq<string> {
    if frames == [] then [] else frames[0].usage + FrameUsage(frames[1..])
  }

  function Head(f: Frame): seq<(nat, Position)> {
    if f.part == 0 then [(f.stream, f.at)] else []
  }

  /** The physical records that appear in full, in order of appearance. */
  function Heads(frames: seq<Frame>): seq<(nat, Position)> {
    if frames == [] then []
    else Head(frames[0]) + Heads(frames[1..])
  }

  lemma {:induction false} FrameEventsAppend(a: seq<Frame>, b: seq<Frame>)
    ensures FrameEvents(a + b) == FrameEvents(a) + FrameEvents(b)
  {
    if a == [] {
      assert a + b == b;
    } else {
      FrameEventsAppend(a[1..], b);
      Assoc(a[0].events, FrameEvents(a[1..]), FrameEvents(b));
      assert (a + b)[1..] == a[1..] + b;
    }
  }

  lemma {:induction false} HeadsAppend(a: seq<Frame>, b: seq<Frame>)
    ensures Heads(a + b) == Heads(a) + Heads(b)
  {
    if a == [] {
      assert a + b == b;
    } else {
      HeadsAppend(a[1..], b);
      Assoc(Head(a[0]), Heads(a[1..]), Heads(b));
      assert (a + b)[1..] == a[1..] + b;
    }
  }

  lemma FramesCons(f: Frame, rest: seq<Frame>)
    ensures FrameEvents([f] + rest) == f.events + FrameEvents(rest)
    ensures FrameUsage([f] + rest) == f.usage + FrameUsage(rest)
    ensures Heads([f] + rest) == Head(f) + Heads(rest)
  {
    assert ([f] + rest)[1..] == rest;
  }

  /** Every frame of a record fits a page and belongs to that record. */
  lemma {:induction false} FramesFit(s: Setting, stream: nat, at: Position, part: nat, events: seq<Event>,
                                     usage: seq<string>)
    requires MakeFrames(s, stream, at, part, events, usage).Ok?
    ensures forall f :: f in MakeFrames(s, stream, at, part, events, usage).value ==>
              Fits(s, f) && f.stream == stream && f.at == at
    decreases |events| + |usage|, if part == 0 then 1 else 0
  {
    var f := NextFrame(s, stream, at, part, events, usage);
    var events', usage' := events[|f.events|..], usage[|f.usage|..];
    if events' != [] || usage' != [] {
      FramesFit(s, stream, at, part + 1, events', usage');
    }
  }

  /** Splitting a record over frames loses and reorders nothing, and shows the record once. */
  lemma {:induction false} FramesConserve(s: Setting, stream: nat, at: Position, part: nat, events: seq<Event>,
                                          usage: seq<string>)
    requires MakeFrames(s, stream, at, part, events, usage).Ok?
    ensures var frames := MakeFrames(s, stream, at, part, events, usage).value;
            && FrameEvents(frames) == events && FrameUsage(frames) == usage
            && Heads(frames) == (if part == 0 then [(stream, at)] else [])
    decreases |events| + |usage|, if part == 0 then 1 else 0
  {
    hide FrameEvents, FrameUsage, Heads, NextFrame, Fits;
    var f := NextFrame(s, stream, at, part, events, usage);
    var events', usage' := events[|f.events|..], usage[|f.usage|..];
    TakeDrop(events, |f.events|);
    TakeDrop(usage, |f.usage|);
    if events' == [] && usage' == [] {
      FramesCons(f, []);
      NoFrames();
      assert [f] + [] == [f];
    } else {
      FramesConserve(s, stream, at, part + 1, events', usage');
      FramesCons(f, MakeFrames(s, stream, at, part + 1, events', usage').value);
    }
  }

  lemma NoFrames()
    ensures FrameEvents([]) == [] && FrameUsage([]) == [] && Heads([]) == []
  {
  }

  // ---------------------------------------------------------------- the list the pages spell out

  /** Frames of the first `n` lines of one stream. */
  function StreamFrames(s: Setting, index: nat, stream: Stream, n: nat, e: Emission): Result<(seq<Frame>, Emission)>
    requires n <= |stream.file|
  {
    if n == 0 then Ok(([], e))
    else
      var before :- StreamFrames(s, index, stream, n - 1, e);
      var line :- EmitLine(stream.file, stream.nodes, stream.plan, n - 1, before.1);
      var frames :- MakeFrames(s, index, n - 1, 0, line.0.events, line.0.usage);
      Ok((before.0 + frames, line.1))
  }

  /** Frames of the first `k` streams; each stream starts with an empty call table. */
  function ViewFrames(s: Setting, streams: seq<Stream>, k: nat): Result<(seq<Frame>, Emission)>
    requires k <= |streams|
  {
    if k == 0 then Ok(([], NoEmission))
    else
      var before :- ViewFrames(s, streams, k - 1);
      var last :- StreamFrames(s, k - 1, streams[k - 1], |streams[k - 1].file|, before.1.(calls := map[]));
      Ok((before.0 + last.0, last.1))
  }

  /** Everything up to line `n` of stream `k`. */
  function Produced(s: Setting, streams: seq<Stream>, k: nat, n: nat): Result<(seq<Frame>, Emission)>
    requires k <= |streams| && (if k < |streams| then n <= |streams[k].file| else n == 0)
  {
    var before :- ViewFrames(s, streams, k);
    if k == |streams| then Ok((before.0, before.1.(calls := map[])))
    else
      var current :- StreamFrames(s, k, streams[k], n, before.1.(calls := map[]));
      Ok((before.0 + current.0, current.1))
  }

  /** One more line: its frames carry its events, and show it once. */
  lemma LineFrames(s: Setting, index: nat, at: Position, line: LineOut, before: seq<Frame>)
    requires MakeFrames(s, index, at, 0, line.events, line.usage).Ok?
    ensures var frames := MakeFrames(s, index, at, 0, line.events, line.usage).value;
            && FrameEvents(before + frames) == FrameEvents(before) + line.events
            && Heads(before + frames) == Heads(before) + [(index, at)]
  {
    var frames := MakeFrames(s, index, at, 0, line.events, line.usage).value;
    FramesConserve(s, index, at, 0, line.events, line.usage);
    FrameEventsAppend(before, frames);
    HeadsAppend(before, frames);
    hide MakeFrames, FrameEvents, Heads;
  }

  function LineOrder(index: nat, n: nat): seq<(nat, Position)> {
    seq(n, i => (index, i))
  }

  lemma {:induction false} StreamFramesEmit(s: Setting, index: nat, stream: Stream, n: nat, e: Emission)
    requires n <= |stream.file| && StreamFrames(s, index, stream, n, e).Ok?
    ensures var out := StreamFrames(s, index, stream, n, e).value;
            var lines := EmitUpTo(stream.file, stream.nodes, stream.plan, n, e);
            && lines.Ok? && out.1 == lines.value.1 && FrameEvents(out.0) == AllEvents(lines.value.0)
            && Heads(out.0) == LineOrder(index, n)
  {
    hide EmitLine, MakeFrames, FrameEvents, Heads, AllEvents;
    if n > 0 {
      StreamFramesEmit(s, index, stream, n - 1, e);
      var before := StreamFrames(s, index, stream, n - 1, e).value;
      var line := EmitLine(stream.file, stream.nodes, stream.plan, n - 1, before.1).value;
      LineFrames(s, index, n - 1, line.0, before.0);
      AllEventsSnoc(EmitUpTo(stream.file, stream.nodes, stream.plan, n - 1, e).value.0, line.0);
      assert LineOrder(index, n) == LineOrder(index, n - 1) + [(index, n - 1)];
    } else {
      NothingFramed(index);
    }
  }

  lemma AllEventsSnoc(lines: seq<LineOut>, line: LineOut)
    ensures AllEvents(lines + [line]) == AllEvents(lines) + line.events
  {
    assert (lines + [line])[..|lines|] == lines;
  }

  lemma NothingFramed(index: nat)
    ensures FrameEvents([]) == AllEvents([]) == [] && Heads([]) == LineOrder(index, 0) == []
  {
  }

  /** What planning promised about a stream. */
  ghost predicate Agrees(stream: Stream) {
    forall order: nat, usage: nat ::
      var out := EmitUpTo(stream.file, stream.nodes, stream.plan, |stream.file|, Emission(map[], order, usage));
      out.Ok? ==> out.value.1.order == order + stream.events && out.value.1.usage == usage + stream.usage
  }

  /** A stream that was indexed and planned keeps its promise. */
  lemma PlannedStreamAgrees(file: seq<Line>, root: Root, stream: Stream)
    requires Run(file, root, |file|).Ok?
    requires var ix := Run(file, root, |file|).value;
             stream.file == file && stream.nodes == ix.nodes
             && PlanLeaf(file, ix.nodes, ix.context.leaf) == Ok(stream.plan)
    requires stream.events == stream.plan.events && stream.usage == |stream.plan.latestUsage|
    ensures Agrees(stream)
  {
    forall order: nat, usage: nat
      ensures var out := EmitUpTo(file, stream.nodes, stream.plan, |file|, Emission(map[], order, usage));
              out.Ok? && out.value.1.order == order + stream.events && out.value.1.usage == usage + stream.usage
    {
      PassesAgree(file, root, order, usage);
    }
    hide Run, EmitUpTo;
  }

  lemma {:induction false} NothingSelected(file: seq<Line>, nodes: map<string, Node>, n: nat, e: Emission)
    requires n <= |file|
    ensures EmitUpTo(file, nodes, NoPlan, n, e).Ok? && EmitUpTo(file, nodes, NoPlan, n, e).value.1 == e
  {
    if n > 0 {
      NothingSelected(file, nodes, n - 1, e);
    }
  }

  /** A formerly linked child is replayed for its records only; it adds no event. */
  lemma AbandonedStreamAgrees(stream: Stream)
    requires stream.plan == NoPlan && stream.events == 0 && stream.usage == 0
    ensures Agrees(stream)
  {
    forall order: nat, usage: nat
      ensures var e := Emission(map[], order, usage);
              var out := EmitUpTo(stream.file, stream.nodes, NoPlan, |stream.file|, e); out.Ok? && out.value.1 == e
    {
      NothingSelected(stream.file, stream.nodes, |stream.file|, Emission(map[], order, usage));
    }
    hide EmitUpTo;
  }

  function EventCount(streams: seq<Stream>): nat {
    if streams == [] then 0 else EventCount(streams[..|streams| - 1]) + streams[|streams| - 1].events
  }

  function UsageCount(streams: seq<Stream>): nat {
    if streams == [] then 0 else UsageCount(streams[..|streams| - 1]) + streams[|streams| - 1].usage
  }

  lemma {:induction false} CountersAgree(s: Setting, streams: seq<Stream>, k: nat)
    requires k <= |streams| && ViewFrames(s, streams, k).Ok?
    requires forall stream :: stream in streams ==> Agrees(stream)
    ensures ViewFrames(s, streams, k).value.1.order == EventCount(streams[..k])
    ensures ViewFrames(s, streams, k).value.1.usage == UsageCount(streams[..k])
  {
    if k == 0 {
      assert streams[..k] == [];
    } else {
      CountersAgree(s, streams, k - 1);
      var before := ViewFrames(s, streams, k - 1).value;
      assert streams[..k][..k - 1] == streams[..k - 1];
      StreamFramesEmit(s, k - 1, streams[k - 1], |streams[k - 1].file|, before.1.(calls := map[]));
      assert Agrees(streams[k - 1]);
      hide StreamFrames, EmitUpTo;
    }
  }

  /** The order in which physical records are shown: stream by stream, line by line. */
  function PhysicalOrder(streams: seq<Stream>): seq<(nat, Position)> {
    if streams == [] then []
    else PhysicalOrder(streams[..|streams| - 1]) + LineOrder(|streams| - 1, |streams[|streams| - 1].file|)
  }

  /** The complete view shows every physical record once, in order, and numbers the events
    * 0, 1, 2, ... across all streams. */
  lemma {:induction false} CompleteView(s: Setting, streams: seq<Stream>, k: nat)
    requires k <= |streams| && ViewFrames(s, streams, k).Ok?
    ensures var out := ViewFrames(s, streams, k).value;
            && Heads(out.0) == PhysicalOrder(streams[..k])
            && |FrameEvents(out.0)| == out.1.order && Numbered(0, FrameEvents(out.0))
  {
    if k == 0 {
      assert streams[..k] == [];
    } else {
      hide StreamFrames, EmitUpTo, FrameEvents, AllEvents, Heads, LineOrder, Numbered;
      CompleteView(s, streams, k - 1);
      var before := ViewFrames(s, streams, k - 1).value;
      var stream, e := streams[k - 1], before.1.(calls := map[]);
      var last := StreamFrames(s, k - 1, stream, |stream.file|, e).value;
      assert streams[..k][..k - 1] == streams[..k - 1];
      StreamFramesEmit(s, k - 1, stream, |stream.file|, e);
      EventsNumbered(stream.file, stream.nodes, stream.plan, |stream.file|, e);
      FrameEventsAppend(before.0, last.0);
      HeadsAppend(before.0, last.0);
      NumberedAppend(0, FrameEvents(before.0), FrameEvents(last.0));
    }
  }

  // ---------------------------------------------------------------- moving the cursor

  lemma CloseStream(s: Setting, streams: seq<Stream>, k: nat)
    requires k < |streams| && Produced(s, streams, k, |streams[k].file|).Ok?
    ensures var out := Produced(s, streams, k, |streams[k].file|).value;
            Produced(s, streams, k + 1, 0) == Ok((out.0, out.1.(calls := map[])))
  {
    var out := Produced(s, streams, k, |streams[k].file|).value;
    assert ViewFrames(s, streams, k + 1) == Ok(out);
    hide StreamFrames;
    assert out.0 + [] == out.0;
    NoLines(s, streams, k + 1);
  }

  lemma NoLines(s: Setting, streams: seq<Stream>, k: nat)
    requires k <= |streams| && ViewFrames(s, streams, k).Ok?
    ensures Produced(s, streams, k, 0)
            == Ok((ViewFrames(s, streams, k).value.0, ViewFrames(s, streams, k).value.1.(calls := map[])))
  {
    hide ViewFrames;
    assert ViewFrames(s, streams, k).value.0 + [] == ViewFrames(s, streams, k).value.0;
  }

  lemma AllProduced(s: Setting, streams: seq<Stream>)
    requires Produced(s, streams, |streams|, 0).Ok?
    ensures ViewFrames(s, streams, |streams|).Ok?
    ensures var all := ViewFrames(s, streams, |streams|).value;
            Produced(s, streams, |streams|, 0) == Ok((all.0, all.1.(calls := map[])))
  {
    hide ViewFrames;
  }

  lemma {:induction false} StreamFailsLater(s: Setting, index: nat, stream: Stream, n: nat, e: Emission)
    requires n <= |stream.file| && StreamFrames(s, index, stream, n, e).Err?
    ensures StreamFrames(s, index, stream, |stream.file|, e).Err?
    decreases |stream.file| - n
  {
    if n < |stream.file| {
      StreamFailsLater(s, index, stream, n + 1, e);
    }
  }

  lemma {:induction false} ViewFailsLater(s: Setting, streams: seq<Stream>, k: nat)
    requires k <= |streams| && ViewFrames(s, streams, k).Err?
    ensures ViewFrames(s, streams, |streams|).Err?
    decreases |streams| - k
  {
    hide StreamFrames;
    if k < |streams| {
      ViewFailsLater(s, streams, k + 1);
    }
  }

  /** A line that cannot be made into frames keeps every later page from completing. */
  lemma StreamFails(s: Setting, streams: seq<Stream>, k: nat, n: nat)
    requires k < |streams| && n <= |streams[k].file| && ViewFrames(s, streams, k).Ok?
    requires StreamFrames(s, k, streams[k], n, ViewFrames(s, streams, k).value.1.(calls := map[])).Err?
    ensures ViewFrames(s, streams, |streams|).Err?
  {
    StreamFailsLater(s, k, streams[k], n, ViewFrames(s, streams, k).value.1.(calls := map[]));
    hide StreamFrames;
    ViewFailsLater(s, streams, k + 1);
  }
}
