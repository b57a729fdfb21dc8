/** The reader of a Claude view, with the source's cursor state, and the planning loop. */
module ClaudeReader {
  import opened Base
  import opened ClaudeRecords
  import opened ClaudeProjection
  import opened ClaudeHistory
  import opened ClaudePlan
  import opened ClaudeIndexer
  import opened ClaudeView

  /** Plans the selected path: the chain, then its records oldest first. */
  method PlanSelection(file: seq<Line>, nodes: map<string, Node>, leaf: Option<string>) returns (planned: Result<Plan>)
    ensures planned.Ok? <==> PlanLeaf(file, nodes, leaf).Ok?
    ensures planned.Ok? ==> planned == PlanLeaf(file, nodes, leaf)
  {
    hide Project;
    var chain := WalkChain(nodes, leaf);
    if chain.Err? {
      return Err(chain.reason);
    }
    var path := chain.value;
    var calls: map<string, Call>, plan, i := map[], NoPlan, 0;
    while i < |path|
      invariant 0 <= i <= |path|
      invariant PlanPath(file, nodes, path[..i]) == Ok((calls, plan))
    {
      assert path[..i + 1][..i] == path[..i];
      var next := PlanNode(file, nodes, path[i], calls, plan);
      if next.Err? {
        if PlanPath(file, nodes, path).Ok? {
          PlanPrefix(file, nodes, path, i + 1);
        }
        return Err(next.reason);
      }
      calls, plan := next.value.0, next.value.1;
      i := i + 1;
    }
    assert path[..i] == path;
    planned := Ok(plan);
  }

  /** Fills one frame the way the source does: push, measure, take back. */
  method FillFrame(s: Setting, stream: nat, at: Position, part: nat, events: seq<Event>, usage: seq<string>)
    returns (f: Frame)
    requires Fits(s, OpenFrame(s, stream, at, part))
    ensures f == NextFrame(s, stream, at, part, events, usage)
  {
    f := OpenFrame(s, stream, at, part);
    var i := 0;
    while i < |events| && |f.events| < MaxItems
      invariant 0 <= i <= |events|
      invariant TakeEvents(s, OpenFrame(s, stream, at, part), events) == TakeEvents(s, f, events[i..])
    {
      var more := f.(events := f.events + [events[i]]);
      if !Fits(s, more) {
        break;
      }
      assert events[i..][1..] == events[i + 1..];
      f, i := more, i + 1;
    }
    ghost var filled := TakeEvents(s, OpenFrame(s, stream, at, part), events);
    assert f == filled;
    i := 0;
    while i < |usage| && |f.usage| < MaxItems
      invariant 0 <= i <= |usage|
      invariant TakeUsage(s, filled, usage) == TakeUsage(s, f, usage[i..])
    {
      var more := f.(usage := f.usage + [usage[i]]);
      if !Fits(s, more) {
        break;
      }
      assert usage[i..][1..] == usage[i + 1..];
      f, i := more, i + 1;
    }
  }

  /** `makeFrames`: at least one frame, then one more while anything is left. */
  method FillFrames(s: Setting, stream: nat, at: Position, events: seq<Event>, usage: seq<string>)
    returns (r: Result<seq<Frame>>)
    ensures r == MakeFrames(s, stream, at, 0, events, usage)
  {
    hide NextFrame;
    var frames: seq<Frame>, events', usage', part, more := [], events, usage, 0, true;
    ghost var whole := MakeFrames(s, stream, at, 0, events, usage);
    if whole.Ok? {
      assert frames + whole.value == whole.value;
    }
    while more
      invariant more ==> part == 0 || events' != [] || usage' != []
      invariant var rest := MakeFrames(s, stream, at, part, events', usage');
                MakeFrames(s, stream, at, 0, events, usage)
                == if !more then Ok(frames) else if rest.Err? then rest else Ok(frames + rest.value)
      decreases more, |events'| + |usage'|, if part == 0 then 1 else 0
    {
      if !Fits(s, OpenFrame(s, stream, at, part)) {
        return Err(Limit);
      }
      var f := FillFrame(s, stream, at, part, events', usage');
      ghost var rest := MakeFrames(s, stream, at, part + 1, events'[|f.events|..], usage'[|f.usage|..]);
      if rest.Ok? {
        Assoc(frames, [f], rest.value);
      }
      var done := |f.events| == |events'| && |f.usage| == |usage'|;
      if !done && part > 0 && f.events == [] && f.usage == [] {
        return Err(Limit);
      }
      frames, part, more := frames + [f], part + 1, !done;
      events', usage' := events'[|f.events|..], usage'[|f.usage|..];
    }
    r := Ok(frames);
  }

  datatype Page = Page(frames: seq<Frame>, done: bool)

  function PageBytes(s: Setting, frames: seq<Frame>): nat {
    if frames == [] then s.limits.envelope
    else PageBytes(s, frames[..|frames| - 1]) + s.size(frames[|frames| - 1]) + (if |frames| > 1 then 1 else 0)
  }

  lemma NoPage(s: Setting)
    ensures PageBytes(s, []) == s.limits.envelope
  {
  }

  lemma PageGrows(s: Setting, frames: seq<Frame>, f: Frame)
    ensures PageBytes(s, frames + [f]) == PageBytes(s, frames) + s.size(f) + if frames != [] then 1 else 0
  {
    assert (frames + [f])[..|frames|] == frames;
  }

  class View {
    const setting: Setting
    const streams: seq<Stream>
    var streamIndex: nat
    var refIndex: nat
    var order: nat
    var emittedUsage: nat
    var frameCount: nat
    var calls: map<string, Call>
    var pending: seq<Frame>
    ghost var delivered: seq<Frame>

    /** What was delivered, plus the frames waiting for room, is what the lines read so
      * far make; the counters are the emission's. */
    ghost predicate Valid()
      reads this
    {
      && streamIndex <= |streams|
      && (if streamIndex < |streams| then refIndex <= |streams[streamIndex].file| else refIndex == 0)
      && Produced(setting, streams, streamIndex, refIndex)
         == Ok((delivered + pending, Emission(calls, order, emittedUsage)))
      && (forall f :: f in pending ==> Fits(setting, f))
      && (forall stream :: stream in streams ==> Agrees(stream))
    }

    constructor (setting: Setting, streams: seq<Stream>)
      requires forall stream :: stream in streams ==> Agrees(stream)
      ensures Valid() && delivered == [] && this.setting == setting && this.streams == streams
    {
      this.setting, this.streams := setting, streams;
      streamIndex, refIndex, order, emittedUsage, frameCount, calls := 0, 0, 0, 0, 0, map[];
      pending, delivered := [], [];
      new;
      NoLines(setting, streams, 0);
      assert delivered + pending == [];
    }

    /** Moves to the next stream, or makes the frames of the next line. */
    method Advance() returns (r: Result<()>)
      requires Valid() && pending == [] && streamIndex < |streams|
      modifies this`streamIndex, this`refIndex, this`order, this`emittedUsage, this`calls, this`pending
      ensures r.Ok? ==> Valid()
      ensures r.Err? ==> ViewFrames(setting, streams, |streams|).Err?
      ensures r.Ok? ==> var next := old(streamIndex);
                        (streamIndex == next && refIndex == old(refIndex) + 1)
                        || (streamIndex == next + 1 && refIndex == 0)
    {
      hide EmitLine, MakeFrames, Agrees;
      var stream := streams[streamIndex];
      ghost var start := ViewFrames(setting, streams, streamIndex).value.1.(calls := map[]);
      assert delivered + pending == delivered;
      if refIndex == |stream.file| {
        streamIndex, refIndex, calls := streamIndex + 1, 0, map[];
        assert delivered + pending == delivered;
        CloseStream(setting, streams, streamIndex - 1);
        return Ok(());
      }
      ghost var before := StreamFrames(setting, streamIndex, stream, refIndex, start).value.0;
      ghost var earlier := ViewFrames(setting, streams, streamIndex).value.0;
      var line := EmitLine(stream.file, stream.nodes, stream.plan, refIndex, Emission(calls, order, emittedUsage));
      if line.Err? {
        StreamFails(setting, streams, streamIndex, refIndex + 1);
        return Err(line.reason);
      }
      var frames := FillFrames(setting, streamIndex, refIndex, line.value.0.events, line.value.0.usage);
      if frames.Err? {
        StreamFails(setting, streams, streamIndex, refIndex + 1);
        return Err(frames.reason);
      }
      FramesFit(setting, streamIndex, refIndex, 0, line.value.0.events, line.value.0.usage);
      Assoc(earlier, before, frames.value);
      calls, order, emittedUsage := line.value.1.calls, line.value.1.order, line.value.1.usage;
      refIndex, pending := refIndex + 1, frames.value;
      r := Ok(());
    }

    /** Hands out the frame that waited for room. */
    method Deliver() returns (frame: Frame)
      requires Valid() && pending != []
      modifies this`pending, this`delivered
      ensures Valid() && frame == old(pending)[0] && pending == old(pending)[1..]
              && delivered == old(delivered) + [frame]
    {
      hide Produced, Agrees;
      frame := pending[0];
      Assoc(delivered, [frame], pending[1..]);
      assert [frame] + pending[1..] == pending;
      delivered, pending := delivered + [frame], pending[1..];
    }

    /** One page. Pages extend the delivered frames by the next frames of one fixed list,
      * respect both limits, make progress, and never fail because the passes disagree. */
    method Read() returns (r: Result<Page>)
      requires Valid()
      modifies this`streamIndex, this`refIndex, this`order, this`emittedUsage, this`frameCount, this`calls,
               this`pending, this`delivered
      ensures r.Ok? ==> Valid() && delivered == old(delivered) + r.value.frames
      ensures r.Ok? ==> |r.value.frames| <= setting.limits.pageItems
                        && PageBytes(setting, r.value.frames) <= Max(setting.limits.pageBytes, setting.limits.envelope)
      ensures r.Ok? && r.value.done ==> ViewFrames(setting, streams, |streams|).Ok?
                                        && delivered == ViewFrames(setting, streams, |streams|).value.0
      ensures r.Ok? && !r.value.done && setting.limits.pageItems > 0 ==> r.value.frames != []
      ensures r.Err? ==> frameCount > setting.limits.frames || ViewFrames(setting, streams, |streams|).Err?
    {
      hide Agrees, EmitLine, MakeFrames, Produced, PageBytes;
      assert PageBytes(setting, []) == setting.limits.envelope by { NoPage(setting); }
      var frames: seq<Frame>, bytes, stop := [], setting.limits.envelope, false;
      while |frames| < setting.limits.pageItems && !stop
        invariant Valid()
        invariant delivered == old(delivered) + frames && |frames| <= setting.limits.pageItems
        invariant bytes == PageBytes(setting, frames) <= Max(setting.limits.pageBytes, setting.limits.envelope)
        invariant stop ==> if pending == [] then streamIndex == |streams| else frames != []
        decreases !stop, |streams| - streamIndex,
                  if streamIndex < |streams| then |streams[streamIndex].file| - refIndex else 0, |pending|
      {
        if pending == [] && streamIndex == |streams| {
          stop := true;
        } else if pending == [] {
          var advanced := Advance();
          if advanced.Err? {
            return Err(advanced.reason);
          }
        } else {
          var frame := pending[0];
          assert Fits(setting, frame);
          var size := setting.size(frame) + if frames != [] then 1 else 0;
          if bytes + size > setting.limits.pageBytes {
            stop := true;
          } else {
            frameCount := frameCount + 1;
            if frameCount > setting.limits.frames {
              return Err(Limit);
            }
            Assoc(old(delivered), frames, [frame]);
            PageGrows(setting, frames, frame);
            frame := Deliver();
            frames, bytes := frames + [frame], bytes + size;
          }
        }
      }
      var done := streamIndex == |streams| && pending == [];
      if done {
        assert delivered + pending == delivered;
        AllProduced(setting, streams);
        CountersAgree(setting, streams, |streams|);
        assert streams[..|streams|] == streams;
        if order != EventCount(streams) || emittedUsage != UsageCount(streams) {
          return Err(Format);
        }
      }
      r := Ok(Page(frames, done));
    }
  }
}
