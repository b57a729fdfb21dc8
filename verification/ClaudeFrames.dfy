/** How the frames of one physical Claude record are filled: in order, each as full as a page
  * allows, and when a record has no frames at all. */
module ClaudeFrames {
  import opened Base
  import opened ClaudeRecords
  import opened ClaudePlan
  import opened ClaudeView

  /** The frame is too large for a page, envelope included. */
  predicate Overflows(s: Setting, f: Frame) {
    s.size(f) + s.limits.envelope > s.limits.pageBytes
  }

  /** No further event goes into the frame before its samples, and no further sample behind. */
  predicate Full(s: Setting, f: Frame, events: seq<Event>, usage: seq<string>) {
    && (events != [] ==> |f.events| >= MaxItems || Overflows(s, f.(events := f.events + [events[0]], usage := [])))
    && (usage != [] ==> |f.usage| >= MaxItems || Overflows(s, f.(usage := f.usage + [usage[0]])))
  }

  /** A frame whose samples, and whose events, are the ones in front of what follows. */
  ghost predicate Filled(s: Setting, stream: nat, at: Position, part: nat, events: seq<Event>, usage: seq<string>,
                         frames: seq<Frame>)
    decreases |frames|
  {
    if frames == [] then events == [] && usage == []
    else
      var f := frames[0];
      && f.stream == stream && f.at == at && f.part == part
      && (f.raw.NoRaw? <==> !s.limits.rawEnabled) && (f.raw.WholeRecord? <==> s.limits.rawEnabled && part == 0)
      && f.events <= events && f.usage <= usage && |f.events| <= MaxItems && |f.usage| <= MaxItems
      && !Overflows(s, f)
      && var events', usage' := events[|f.events|..], usage[|f.usage|..];
         && Full(s, f, events', usage')
         && (|frames| > 1 ==> events' != [] || usage' != [])
         && (part > 0 ==> f.events != [] || f.usage != [] || |frames| == 1)
         && Filled(s, stream, at, part + 1, events', usage', frames[1..])
  }

  lemma {:induction false} EventsFull(s: Setting, f: Frame, events: seq<Event>)
    requires Fits(s, f) && |f.events| <= MaxItems && f.usage == []
    ensures var g := TakeEvents(s, f, events);
            && |g.events| <= MaxItems && |f.events| <= |g.events| <= |f.events| + |events|
            && var left := events[|g.events| - |f.events|..];
               left != [] ==> |g.events| >= MaxItems || Overflows(s, g.(events := g.events + [left[0]]))
    decreases |events|
  {
    if !(events == [] || |f.events| >= MaxItems || !Fits(s, f.(events := f.events + [events[0]]))) {
      var more := f.(events := f.events + [events[0]]);
      EventsFull(s, more, events[1..]);
      var g := TakeEvents(s, f, events);
      assert events[1..][|g.events| - |more.events|..] == events[|g.events| - |f.events|..];
    }
  }

  lemma {:induction false} UsageFull(s: Setting, f: Frame, usage: seq<string>)
    requires Fits(s, f) && |f.usage| <= MaxItems
    ensures var g := TakeUsage(s, f, usage);
            && |g.usage| <= MaxItems && |f.usage| <= |g.usage| <= |f.usage| + |usage| && g == f.(usage := g.usage)
            && var left := usage[|g.usage| - |f.usage|..];
               left != [] ==> |g.usage| >= MaxItems || Overflows(s, g.(usage := g.usage + [left[0]]))
    decreases |usage|
  {
    if !(usage == [] || |f.usage| >= MaxItems || !Fits(s, f.(usage := f.usage + [usage[0]]))) {
      var more := f.(usage := f.usage + [usage[0]]);
      UsageFull(s, more, usage[1..]);
      var g := TakeUsage(s, f, usage);
      assert usage[1..][|g.usage| - |more.usage|..] == usage[|g.usage| - |f.usage|..];
    }
  }

  lemma NextIsFull(s: Setting, stream: nat, at: Position, part: nat, events: seq<Event>, usage: seq<string>)
    requires Fits(s, OpenFrame(s, stream, at, part))
    ensures var f := NextFrame(s, stream, at, part, events, usage);
            && |f.events| <= MaxItems && |f.usage| <= MaxItems && !Overflows(s, f)
            && Full(s, f, events[|f.events|..], usage[|f.usage|..])
  {
    var open := OpenFrame(s, stream, at, part);
    TakeEventsPrefix(s, open, events);
    EventsFull(s, open, events);
    var filled := TakeEvents(s, open, events);
    UsageFull(s, filled, usage);
    var f := NextFrame(s, stream, at, part, events, usage);
    assert f == TakeUsage(s, filled, usage);
    assert f.(usage := []) == filled;
    hide TakeEvents, TakeUsage, Fits;
  }

  /** The frames of a record are numbered, the first carries it and the others refer to it, and
    * each takes as many events, and then as many samples, as the page and the item limit allow. */
  lemma {:induction false} FramesFilled(s: Setting, stream: nat, at: Position, part: nat, events: seq<Event>,
                                        usage: seq<string>)
    requires MakeFrames(s, stream, at, part, events, usage).Ok?
    ensures MakeFrames(s, stream, at, part, events, usage).value != []
    ensures Filled(s, stream, at, part, events, usage, MakeFrames(s, stream, at, part, events, usage).value)
    decreases |events| + |usage|, if part == 0 then 1 else 0
  {
    hide Fits, NextFrame, Full, Overflows;
    NextIsFull(s, stream, at, part, events, usage);
    var f := NextFrame(s, stream, at, part, events, usage);
    var events', usage' := events[|f.events|..], usage[|f.usage|..];
    if events' != [] || usage' != [] {
      FramesFilled(s, stream, at, part + 1, events', usage');
      var frames := MakeFrames(s, stream, at, part, events, usage).value;
      assert frames[1..] == MakeFrames(s, stream, at, part + 1, events', usage').value;
    }
  }

  /** Something of the record has no place: an empty frame, or the next event and the next sample
    * alone in a frame that only refers to the record. */
  ghost predicate Misfit(s: Setting, stream: nat, at: Position, part: nat, events: seq<Event>, usage: seq<string>,
                         p: nat, i: nat, j: nat)
  {
    var open := OpenFrame(s, stream, at, p);
    && part <= p && i <= |events| && j <= |usage|
    && (Overflows(s, open)
        || (p > 0 && (i < |events| || j < |usage|)
            && (i < |events| ==> Overflows(s, open.(events := [events[i]])))
            && (j < |usage| ==> Overflows(s, open.(usage := [usage[j]])))))
  }

  ghost predicate NoPlace(s: Setting, stream: nat, at: Position, part: nat, events: seq<Event>, usage: seq<string>) {
    exists p: nat, i: nat, j: nat :: Misfit(s, stream, at, part, events, usage, p, i, j)
  }

  /** A record is refused only when some part of it does not fit a page even alone. */
  lemma {:induction false} RefusedIsMisfit(s: Setting, stream: nat, at: Position, part: nat, events: seq<Event>,
                                           usage: seq<string>)
    requires MakeFrames(s, stream, at, part, events, usage).Err?
    ensures MakeFrames(s, stream, at, part, events, usage) == Err(Limit)
    ensures NoPlace(s, stream, at, part, events, usage)
    decreases |events| + |usage|, if part == 0 then 1 else 0
  {
    if !Fits(s, OpenFrame(s, stream, at, part)) {
      assert Misfit(s, stream, at, part, events, usage, part, 0, 0);
    } else {
      NextIsFull(s, stream, at, part, events, usage);
      var f := NextFrame(s, stream, at, part, events, usage);
      var events', usage' := events[|f.events|..], usage[|f.usage|..];
      if part > 0 && f.events == [] && f.usage == [] {
        assert f == OpenFrame(s, stream, at, part) && events' == events && usage' == usage;
        assert forall e: Event :: [] + [e] == [e];
        assert forall u: string :: [] + [u] == [u];
        assert Misfit(s, stream, at, part, events, usage, part, 0, 0);
      } else {
        hide NextFrame, Fits, Misfit, Full;
        RefusedIsMisfit(s, stream, at, part + 1, events', usage');
        MisfitShifts(s, stream, at, part, events, usage, |f.events|, |f.usage|);
      }
    }
  }

  lemma MisfitShifts(s: Setting, stream: nat, at: Position, part: nat, events: seq<Event>, usage: seq<string>,
                     m: nat, k: nat)
    requires m <= |events| && k <= |usage|
    requires NoPlace(s, stream, at, part + 1, events[m..], usage[k..])
    ensures NoPlace(s, stream, at, part, events, usage)
  {
    var p: nat, i: nat, j: nat :| Misfit(s, stream, at, part + 1, events[m..], usage[k..], p, i, j);
    assert Misfit(s, stream, at, part, events, usage, p, m + i, k + j);
  }
}
