/** Undo and compaction in one Kimi thread: the frame list with cleared frames, turn marks
  * and visible-frame marks refines a plain stack of turns. */
module KimiTurns {
  import opened Base
  import opened KimiRows
  import opened KimiThread

  /** The events a list of frames still shows. */
  function Shown(frames: seq<Frame>): seq<Event> {
    if frames == [] then [] else Shown(frames[..|frames| - 1]) + frames[|frames| - 1].events
  }

  /** Shown events cut at the turn marks: what came before the first turn, then each turn. */
  function Segments(frames: seq<Frame>, turns: seq<nat>): seq<seq<Event>>
    decreases |turns|
  {
    if turns == [] || turns[|turns| - 1] > |frames| then [Shown(frames)]
    else
      var start := turns[|turns| - 1];
      Segments(frames[..start], turns[..|turns| - 1]) + [Shown(frames[start..])]
  }

  function VisibleOf(frames: seq<Frame>): seq<nat> {
    if frames == [] then []
    else
      var before := VisibleOf(frames[..|frames| - 1]);
      if frames[|frames| - 1].events == [] then before else before + [|frames| - 1]
  }

  predicate Numbered(from: nat, events: seq<Event>) {
    forall k :: 0 <= k < |events| ==> events[k].index == from + k
  }

  predicate MarksOk(turns: seq<nat>, bound: nat) {
    Increasing(turns) && forall k :: 0 <= k < |turns| ==> turns[k] < bound
  }

  ghost predicate Inv(t: Thread) {
    && |t.turnsForCalls| > 0
    && MarksOk(t.turns, |t.frames|) && t.undoFloor <= |t.turns|
    && t.events == |Shown(t.frames)| && Numbered(0, Shown(t.frames))
    && t.visible == VisibleOf(t.frames)
  }

  // ---------------------------------------------------------------- facts about the frame list

  lemma ShownSnoc(frames: seq<Frame>, f: Frame)
    ensures Shown(frames + [f]) == Shown(frames) + f.events
  {
    assert (frames + [f])[..|frames|] == frames;
  }

  lemma {:induction false} ShownAppend(a: seq<Frame>, b: seq<Frame>)
    ensures Shown(a + b) == Shown(a) + Shown(b)
  {
    if b == [] {
      assert a + b == a;
      assert Shown(a) + [] == Shown(a);
    } else {
      var last := b[|b| - 1];
      ShownAppend(a, b[..|b| - 1]);
      assert (a + b)[..|a + b| - 1] == a + b[..|b| - 1];
      Assoc(Shown(a), Shown(b[..|b| - 1]), last.events);
    }
  }

  lemma {:induction false} HiddenShowNothing(frames: seq<Frame>)
    requires forall k :: 0 <= k < |frames| ==> frames[k].events == []
    ensures Shown(frames) == []
  {
    if frames != [] {
      HiddenShowNothing(frames[..|frames| - 1]);
    }
  }

  /** Clearing shows exactly what the frames before the mark showed. */
  lemma ClearShows(frames: seq<Frame>, start: nat)
    requires start <= |frames|
    ensures Shown(ClearFrom(frames, start)) == Shown(frames[..start])
    ensures ClearFrom(frames, start)[..start] == frames[..start]
  {
    var cleared := ClearFrom(frames, start);
    assert cleared[..start] == frames[..start];
    assert cleared == cleared[..start] + cleared[start..];
    ShownAppend(cleared[..start], cleared[start..]);
    HiddenShowNothing(cleared[start..]);
    assert Shown(frames[..start]) + [] == Shown(frames[..start]);
  }

  lemma {:induction false} EventsFromCounts(frames: seq<Frame>, start: nat)
    requires start <= |frames|
    ensures EventsFrom(frames, start) == |Shown(frames[start..])|
    decreases |frames| - start
  {
    if start < |frames| {
      EventsFromCounts(frames, start + 1);
      assert frames[start..] == [frames[start]] + frames[start + 1..];
      ShownAppend([frames[start]], frames[start + 1..]);
      ShownSnoc([], frames[start]);
      assert [] + [frames[start]] == [frames[start]];
    }
  }

  lemma SplitShown(frames: seq<Frame>, start: nat)
    requires start <= |frames|
    ensures Shown(frames) == Shown(frames[..start]) + Shown(frames[start..])
    ensures |Shown(frames[..start])| == |Shown(frames)| - EventsFrom(frames, start)
  {
    TakeDrop(frames, start);
    ShownAppend(frames[..start], frames[start..]);
    EventsFromCounts(frames, start);
  }

  lemma {:induction false} VisibleBounds(frames: seq<Frame>)
    ensures forall k :: 0 <= k < |VisibleOf(frames)| ==>
              VisibleOf(frames)[k] < |frames| && frames[VisibleOf(frames)[k]].events != []
  {
    if frames != [] {
      VisibleBounds(frames[..|frames| - 1]);
    }
  }

  /** Popping visible marks down to `start` leaves those of the cleared list. */
  lemma {:induction false} VisibleAfterClear(frames: seq<Frame>, start: nat)
    requires start <= |frames|
    ensures VisibleBefore(VisibleOf(frames), start) == VisibleOf(ClearFrom(frames, start))
    decreases |frames|
  {
    if frames != [] {
      var init := frames[..|frames| - 1];
      var cleared := ClearFrom(frames, start);
      if start == |frames| {
        assert cleared == frames;
        VisibleBounds(frames);
      } else {
        VisibleAfterClear(init, start);
        assert cleared[..|frames| - 1] == ClearFrom(init, start);
        var before := VisibleOf(init);
        if frames[|frames| - 1].events != [] {
          assert (before + [|frames| - 1])[..|before|] == before;
        }
      }
    }
  }

  // ---------------------------------------------------------------- segments

  lemma MarksPrefix(turns: seq<nat>, bound: nat, k: nat)
    requires MarksOk(turns, bound) && k < |turns|
    ensures MarksOk(turns[..k], turns[k])
  {
  }

  /** The stack with `more` appended to its newest turn. */
  function JoinTop(stack: seq<seq<Event>>, more: seq<Event>): seq<seq<Event>>
    requires stack != []
  {
    stack[..|stack| - 1] + [stack[|stack| - 1] + more]
  }

  lemma JoinTopSnoc(older: seq<seq<Event>>, top: seq<Event>, more: seq<Event>)
    ensures JoinTop(older + [top], more) == older + [top + more]
  {
    assert (older + [top])[..|older|] == older;
  }

  /** A frame without a turn of its own joins the newest turn. */
  lemma SegmentsJoin(frames: seq<Frame>, turns: seq<nat>, f: Frame)
    requires Increasing(turns) && (turns != [] ==> turns[|turns| - 1] <= |frames|)
    ensures |Segments(frames, turns)| == |turns| + 1
    ensures Segments(frames + [f], turns) == JoinTop(Segments(frames, turns), f.events)
  {
    SegmentsLength(frames, turns);
    if turns == [] {
      ShownSnoc(frames, f);
      JoinTopSnoc([], Shown(frames), f.events);
      assert [] + [Shown(frames)] == Segments(frames, turns);
      assert [] + [Shown(frames) + f.events] == [Shown(frames) + f.events];
    } else {
      hide Increasing, JoinTop, Segments, Shown;
      var start := turns[|turns| - 1];
      assert (frames + [f])[..start] == frames[..start];
      assert (frames + [f])[start..] == frames[start..] + [f];
      ShownSnoc(frames[start..], f);
      SegmentsUnfold(frames, turns);
      SegmentsUnfold(frames + [f], turns);
      JoinTopSnoc(Segments(frames[..start], turns[..|turns| - 1]), Shown(frames[start..]), f.events);
    }
  }

  lemma SegmentsUnfold(frames: seq<Frame>, turns: seq<nat>)
    requires turns != [] && turns[|turns| - 1] <= |frames|
    ensures var start := turns[|turns| - 1];
            Segments(frames, turns) == Segments(frames[..start], turns[..|turns| - 1]) + [Shown(frames[start..])]
  {
  }

  lemma {:induction false} SegmentsLength(frames: seq<Frame>, turns: seq<nat>)
    requires Increasing(turns) && (turns != [] ==> turns[|turns| - 1] <= |frames|)
    ensures |Segments(frames, turns)| == |turns| + 1
    decreases |turns|
  {
    if turns != [] {
      var start := turns[|turns| - 1];
      SegmentsLength(frames[..start], turns[..|turns| - 1]);
    }
  }

  /** Together the segments are all the shown events. */
  lemma {:induction false} SegmentsFlatten(frames: seq<Frame>, turns: seq<nat>)
    requires Increasing(turns) && (turns != [] ==> turns[|turns| - 1] <= |frames|)
    ensures Flatten(Segments(frames, turns)) == Shown(frames)
    decreases |turns|
  {
    if turns == [] {
      FlattenSnoc([], Shown(frames));
      assert [] + [Shown(frames)] == [Shown(frames)];
    } else {
      var start := turns[|turns| - 1];
      SegmentsFlatten(frames[..start], turns[..|turns| - 1]);
      FlattenSnoc(Segments(frames[..start], turns[..|turns| - 1]), Shown(frames[start..]));
      SplitShown(frames, start);
    }
  }

  /** The first segments depend on the frames before their end only. */
  lemma {:induction false} SegmentsPrefix(frames: seq<Frame>, turns: seq<nat>, keep: nat)
    requires MarksOk(turns, |frames| + 1) && keep < |turns|
    ensures |Segments(frames, turns)| == |turns| + 1
    ensures Segments(frames, turns)[..keep + 1] == Segments(frames[..turns[keep]], turns[..keep])
    decreases |turns|
  {
    SegmentsLength(frames, turns);
    var last := |turns| - 1;
    var start := turns[last];
    var older := Segments(frames[..start], turns[..last]);
    SegmentsLength(frames[..start], turns[..last]);
    if keep == last {
      assert (older + [Shown(frames[start..])])[..|older|] == older;
    } else {
      SegmentsPrefix(frames[..start], turns[..last], keep);
      assert frames[..start][..turns[keep]] == frames[..turns[keep]];
      assert turns[..last][..keep] == turns[..keep];
      assert (older + [Shown(frames[start..])])[..keep + 1] == older[..keep + 1];
    }
  }

  /** Frames that show nothing at the end of the list do not matter. */
  lemma SegmentsTrailing(frames: seq<Frame>, turns: seq<nat>, k: nat)
    requires k <= |frames| && MarksOk(turns, k) && forall j :: k <= j < |frames| ==> frames[j].events == []
    ensures Segments(frames, turns) == Segments(frames[..k], turns)
  {
    if turns == [] {
      TakeDrop(frames, k);
      ShownAppend(frames[..k], frames[k..]);
      HiddenShowNothing(frames[k..]);
      assert Shown(frames[..k]) + [] == Shown(frames[..k]);
    } else {
      var start := turns[|turns| - 1];
      assert frames[..k][..start] == frames[..start];
      assert frames[start..] == frames[..k][start..] + frames[k..];
      ShownAppend(frames[..k][start..], frames[k..]);
      HiddenShowNothing(frames[k..]);
      assert Shown(frames[..k][start..]) + [] == Shown(frames[..k][start..]);
    }
  }

  /** Undo pops turns: the surviving segments are the first ones, untouched. */
  lemma UndoPops(frames: seq<Frame>, turns: seq<nat>, keep: nat)
    requires MarksOk(turns, |frames|) && keep < |turns|
    ensures |Segments(frames, turns)| == |turns| + 1
    ensures Segments(ClearFrom(frames, turns[keep]), turns[..keep]) == Segments(frames, turns)[..keep + 1]
  {
    var start := turns[keep];
    ClearShows(frames, start);
    MarksPrefix(turns, |frames|, keep);
    SegmentsTrailing(ClearFrom(frames, start), turns[..keep], start);
    SegmentsPrefix(frames, turns, keep);
  }

  // ---------------------------------------------------------------- the stack of turns

  /** What one accepted row does to the plain stack of turns. */
  function StackStep(stack: seq<seq<Event>>, r: Row, opens: bool, out: seq<Event>): (after: seq<seq<Event>>)
    requires stack != []
    ensures after != []
  {
    if opens then stack + [out]
    else if r.Undo? then (if r.count < |stack| then stack[..|stack| - r.count] else stack)
    else JoinTop(stack, out)
  }

  /** The row starts a new user turn. */
  predicate Opens(ctx: Context, i: nat, r: Row) {
    && r.Message? && !(r.origin.kind.FromTask? && i in ctx.taskRows)
    && (if ctx.isChild then r.origin.kind == FromSubagentTrigger else r.origin.kind == FromUser)
  }

  predicate SameHistory(t: Thread, u: Thread) {
    && u.frames == t.frames && u.keys == t.keys && u.turns == t.turns && u.visible == t.visible
    && u.events == t.events && u.usageCount == t.usageCount && u.turnsForCalls == t.turnsForCalls
  }

  ghost predicate KeepsFloor(t: Thread, u: Thread) {
    u.undoFloor == t.undoFloor && u.compactedThrough == t.compactedThrough
  }

  lemma PlainLoopDecision(t: Thread, ctx: Context, i: nat, e: Entry)
    requires e.row.StepBegin? || e.row.StepEnd? || e.row.Content? || e.row.ToolCall? || e.row.ToolResult?
    requires Decide(t, ctx, i, e).Ok?
    ensures SameHistory(t, Decide(t, ctx, i, e).value.t) && KeepsFloor(t, Decide(t, ctx, i, e).value.t)
  {
    hide OnPrompt, OnMessage, OnRequest, OnUsage, OnCompaction, OnUndo;
  }

  lemma PlainCompaction(t: Thread, ctx: Context, i: nat, e: Entry)
    requires (IsCompactionRow(e.row) || e.row.ApplyCompaction?) && Decide(t, ctx, i, e).Ok?
    ensures SameHistory(t, Decide(t, ctx, i, e).value.t)
    ensures e.row.ApplyCompaction? || KeepsFloor(t, Decide(t, ctx, i, e).value.t)
  {
  }

  lemma PlainMessage(t: Thread, ctx: Context, i: nat, r: Row)
    requires r.Message? && OnMessage(t, ctx, i, r).Ok? && !Opens(ctx, i, r)
    ensures SameHistory(t, OnMessage(t, ctx, i, r).value.t) && KeepsFloor(t, OnMessage(t, ctx, i, r).value.t)
  {
    hide OnUserMessage;
  }

  /** Rows other than a user message and an undo leave frames and marks alone. */
  lemma PlainDecision(t: Thread, ctx: Context, i: nat, e: Entry)
    requires Decide(t, ctx, i, e).Ok? && !Opens(ctx, i, e.row) && !e.row.Undo?
    ensures SameHistory(t, Decide(t, ctx, i, e).value.t)
    ensures e.row.ApplyCompaction? || KeepsFloor(t, Decide(t, ctx, i, e).value.t)
  {
    hide OnUndo, OnMessage, OnStepBegin, OnStepEnd, OnContent, OnToolCall, OnToolResult, OnCompaction;
    if e.row.StepBegin? || e.row.StepEnd? || e.row.Content? || e.row.ToolCall? || e.row.ToolResult? {
      PlainLoopDecision(t, ctx, i, e);
    } else if IsCompactionRow(e.row) || e.row.ApplyCompaction? {
      PlainCompaction(t, ctx, i, e);
    } else if e.row.Message? {
      PlainMessage(t, ctx, i, e.row);
    }
  }

  lemma AddKeepsInv(t: Thread, ctx: Context, line: nat, key: Key, output: seq<Option<string>>, usage: nat)
    requires |t.turnsForCalls| > 0 && Add(t, ctx, line, key, output, usage).Ok?
    requires MarksOk(t.turns, |t.frames| + 1) && t.undoFloor <= |t.turns|
    requires t.events == |Shown(t.frames)| && Numbered(0, Shown(t.frames)) && t.visible == VisibleOf(t.frames)
    ensures var next := Add(t, ctx, line, key, output, usage).value;
            Inv(next) && next.frames == t.frames + [Frame(key, Emitted(line, t.events, output), usage)]
            && next.turns == t.turns
  {
    var next := Add(t, ctx, line, key, output, usage).value;
    var f := Frame(key, Emitted(line, t.events, output), usage);
    assert next.frames == t.frames + [f];
    ShownSnoc(t.frames, f);
    assert (t.frames + [f])[..|t.frames|] == t.frames;
    NumberedAppend(Shown(t.frames), f.events);
    hide Shown, VisibleOf, Segments, Numbered;
    VisibleSnoc(t.frames, f);
  }

  lemma VisibleSnoc(frames: seq<Frame>, f: Frame)
    ensures VisibleOf(frames + [f]) == if f.events == [] then VisibleOf(frames) else VisibleOf(frames) + [|frames|]
  {
    assert (frames + [f])[..|frames|] == frames;
  }

  lemma NumberedAppend(a: seq<Event>, b: seq<Event>)
    requires Numbered(0, a) && Numbered(|a|, b)
    ensures Numbered(0, a + b)
  {
    forall k | 0 <= k < |a + b|
      ensures (a + b)[k].index == k
    {
      if k >= |a| {
        assert (a + b)[k] == b[k - |a|];
      }
    }
  }

  /** The frames a decision hands to `Add` still satisfy the list part of the invariant. */
  ghost predicate Ready(u: Thread) {
    && |u.turnsForCalls| > 0 && MarksOk(u.turns, |u.frames| + 1) && u.undoFloor <= |u.turns|
    && u.events == |Shown(u.frames)| && Numbered(0, Shown(u.frames)) && u.visible == VisibleOf(u.frames)
  }

  /** What undo leaves in the frame list, the marks and the counter. */
  lemma UndoLeaves(t: Thread, start: nat, removed: nat)
    requires Inv(t) && start <= |t.frames| && removed == EventsFrom(t.frames, start)
    ensures removed <= t.events && t.events - removed == |Shown(ClearFrom(t.frames, start))|
    ensures Numbered(0, Shown(ClearFrom(t.frames, start)))
    ensures VisibleBefore(t.visible, start) == VisibleOf(ClearFrom(t.frames, start))
  {
    ClearShows(t.frames, start);
    SplitShown(t.frames, start);
    VisibleAfterClear(t.frames, start);
    hide EventsFrom, VisibleBefore, VisibleOf, ClearFrom;
    NumberedPrefix(Shown(t.frames[..start]), Shown(t.frames[start..]));
    hide Shown, Numbered;
  }

  lemma NumberedPrefix(a: seq<Event>, b: seq<Event>)
    requires Numbered(0, a + b)
    ensures Numbered(0, a)
  {
    forall k | 0 <= k < |a|
      ensures a[k].index == k
    {
      assert (a + b)[k] == a[k];
    }
  }

  lemma UndoReady(t: Thread, i: nat, r: Row)
    requires Inv(t) && r.Undo? && OnUndo(t, i, r).Ok?
    ensures Ready(OnUndo(t, i, r).value.t)
    ensures var u := OnUndo(t, i, r).value.t;
            && |Segments(t.frames, t.turns)| == |t.turns| + 1
            && Segments(u.frames, u.turns) == Segments(t.frames, t.turns)[..|t.turns| + 1 - r.count]
  {
    var keep := |t.turns| - r.count;
    var start := t.turns[keep];
    UndoPops(t.frames, t.turns, keep);
    UndoLeaves(t, start, EventsFrom(t.frames, start));
    MarksPrefix(t.turns, |t.frames|, keep);
    hide Segments, VisibleOf, EventsFrom, VisibleBefore, Shown, ClearFrom, Numbered;
  }

  /** The decision for a user message: a new turn mark at the frame about to be added. */
  lemma OpeningDecision(t: Thread, ctx: Context, i: nat, e: Entry)
    requires Opens(ctx, i, e.row) && Decide(t, ctx, i, e).Ok?
    ensures var u := Decide(t, ctx, i, e).value.t;
            && u.frames == t.frames && u.visible == t.visible && u.events == t.events && u.usageCount == t.usageCount
            && u.turns == t.turns + [|t.frames|] && KeepsFloor(t, u) && |u.turnsForCalls| >= |t.turnsForCalls|
  {
    hide OnUndo, OnStepBegin, OnStepEnd, OnContent, OnToolCall, OnToolResult, OnCompaction, OnPrompt;
  }

  lemma SegmentsOpen(frames: seq<Frame>, turns: seq<nat>, f: Frame)
    requires MarksOk(turns, |frames|)
    ensures Segments(frames + [f], turns + [|frames|]) == Segments(frames, turns) + [f.events]
  {
    assert (turns + [|frames|])[..|turns|] == turns;
    assert (frames + [f])[..|frames|] == frames;
    assert (frames + [f])[|frames|..] == [f];
    SegmentsUnfold(frames + [f], turns + [|frames|]);
    ShownSnoc([], f);
    assert [] + [f] == [f];
    assert Shown([]) + f.events == f.events;
  }

  lemma NothingJoins(stack: seq<seq<Event>>)
    requires stack != []
    ensures JoinTop(stack, []) == stack
  {
    assert stack[|stack| - 1] + [] == stack[|stack| - 1];
  }

  /** The effect of a decision on the segments, before its frame is added. */
  lemma DecisionReady(t: Thread, ctx: Context, i: nat, e: Entry)
    requires Inv(t) && Decide(t, ctx, i, e).Ok?
    ensures Ready(Decide(t, ctx, i, e).value.t)
    ensures |Decide(t, ctx, i, e).value.t.frames| == |t.frames|
    ensures e.row.Undo? ==> OnUndo(t, i, e.row) == Decide(t, ctx, i, e) && Decide(t, ctx, i, e).value.output == []
    ensures var u := Decide(t, ctx, i, e).value.t;
            !e.row.Undo? ==>
              u.frames == t.frames && u.turns == if Opens(ctx, i, e.row) then t.turns + [|t.frames|] else t.turns
  {
    if Opens(ctx, i, e.row) {
      OpeningDecision(t, ctx, i, e);
      hide Decide, Shown, VisibleOf, Numbered;
    } else if e.row.Undo? {
      UndoReady(t, i, e.row);
      hide Ready;
    } else {
      PlainDecision(t, ctx, i, e);
      if e.row.ApplyCompaction? {
        assert Decide(t, ctx, i, e).value.t.undoFloor == |t.turns|;
      }
      hide Decide, Shown, VisibleOf, Numbered;
    }
  }

  /** One accepted row is one step of the stack of turns. */
  lemma StepRefines(t: Thread, ctx: Context, i: nat, e: Entry)
    requires Inv(t) && Step(t, ctx, i, e).Ok?
    ensures Inv(Step(t, ctx, i, e).value)
    ensures |Segments(t.frames, t.turns)| == |t.turns| + 1
    ensures e.row.Undo? ==> e.row.count < |Segments(t.frames, t.turns)|
    ensures var next := Step(t, ctx, i, e).value;
            Segments(next.frames, next.turns)
            == StackStep(Segments(t.frames, t.turns), e.row, Opens(ctx, i, e.row),
                         Emitted(i, Decide(t, ctx, i, e).value.t.events, Decide(t, ctx, i, e).value.output))
  {
    hide Decide, Add, Inv, Segments, Shown, VisibleOf, Numbered, Emitted, OnUndo;
    DecisionReady(t, ctx, i, e);
    InvMarks(t);
    SegmentsLength(t.frames, t.turns);
    var effect := Decide(t, ctx, i, e).value;
    var u := effect.t;
    UndoCounts(t, ctx, i, e);
    AddKeepsInv(u, ctx, i, effect.key, effect.output, effect.usage);
    var f := Frame(effect.key, Emitted(i, u.events, effect.output), effect.usage);
    if Opens(ctx, i, e.row) {
      SegmentsOpen(t.frames, t.turns, f);
    } else {
      SegmentsJoin(u.frames, u.turns, f);
      if e.row.Undo? {
        UndoReady(t, i, e.row);
        NothingJoins(Segments(u.frames, u.turns));
      }
    }
  }

  lemma InvMarks(t: Thread)
    requires Inv(t)
    ensures MarksOk(t.turns, |t.frames|) && t.undoFloor <= |t.turns|
  {
  }

  lemma UndoCounts(t: Thread, ctx: Context, i: nat, e: Entry)
    requires Inv(t) && Decide(t, ctx, i, e).Ok?
    ensures e.row.Undo? ==> e.row.count <= |t.turns|
  {
    hide OnPrompt, OnMessage, OnRequest, OnUsage, OnStepBegin, OnStepEnd, OnContent, OnToolCall, OnToolResult,
         OnCompaction;
  }

  // ---------------------------------------------------------------- whole logs

  lemma StartInv(ctx: Context)
    requires Start(ctx).Ok?
    ensures Inv(Start(ctx).value) && Segments(Start(ctx).value.frames, Start(ctx).value.turns) == [[]]
  {
    assert Shown([]) == [] && VisibleOf([]) == [];
    if !ctx.isChild {
      AddKeepsInv(EmptyThread, ctx, 0, StateKey, [], 0);
      var f := Start(ctx).value.frames[0];
      ShownSnoc([], f);
      assert [] + [f] == [f];
      assert Shown([]) + f.events == [];
    }
  }

  /** What a row shows; nothing when it is rejected. */
  function OutputOf(before: Result<Thread>, ctx: Context, i: nat, e: Entry): seq<Option<string>> {
    if before.Err? then []
    else
      var effect := Decide(before.value, ctx, i, e);
      if effect.Ok? then effect.value.output else []
  }

  /** The plain stack of turns: no frames, no marks, no cleared slots. */
  function TurnStack(log: seq<Entry>, ctx: Context, n: nat): (stack: seq<seq<Event>>)
    requires n <= |log|
    ensures stack != []
  {
    if n == 0 then [[]]
    else
      var stack := TurnStack(log, ctx, n - 1);
      var output := OutputOf(Run(log, ctx, n - 1), ctx, n - 1, log[n - 1]);
      StackStep(stack, log[n - 1].row, Opens(ctx, n - 1, log[n - 1].row), Emitted(n - 1, |Flatten(stack)|, output))
  }

  lemma OutputsAgree(t: Thread, ctx: Context, i: nat, e: Entry)
    requires Inv(t) && Step(t, ctx, i, e).Ok?
    ensures Decide(t, ctx, i, e).Ok?
    ensures var effect := Decide(t, ctx, i, e).value;
            Emitted(i, effect.t.events, effect.output)
            == Emitted(i, |Flatten(Segments(t.frames, t.turns))|, effect.output)
  {
    SegmentsFlatten(t.frames, t.turns);
    DecisionReady(t, ctx, i, e);
    hide Decide, Segments, Shown;
  }

  /** Main result. After any accepted prefix of a log the surviving events are those of the
    * turns that were not popped, `events` is their number, and they are numbered 0, 1, 2, ... */
  lemma {:induction false} UndoRefinesStack(log: seq<Entry>, ctx: Context, n: nat)
    requires n <= |log| && Run(log, ctx, n).Ok?
    ensures Inv(Run(log, ctx, n).value)
    ensures var t := Run(log, ctx, n).value;
            && Segments(t.frames, t.turns) == TurnStack(log, ctx, n)
            && Shown(t.frames) == Flatten(TurnStack(log, ctx, n))
            && t.events == |Flatten(TurnStack(log, ctx, n))| && Numbered(0, Flatten(TurnStack(log, ctx, n)))
  {
    hide Step, Decide, Inv, Start, Segments, Shown, Flatten, StackStep, Opens, Emitted, Numbered;
    if n == 0 {
      StartInv(ctx);
    } else {
      RunStep(log, ctx, n);
      UndoRefinesStack(log, ctx, n - 1);
      var before := Run(log, ctx, n - 1).value;
      StepRefines(before, ctx, n - 1, log[n - 1]);
      OutputsAgree(before, ctx, n - 1, log[n - 1]);
    }
    InvShows(Run(log, ctx, n).value);
  }

  lemma RunStep(log: seq<Entry>, ctx: Context, n: nat)
    requires 0 < n <= |log| && Run(log, ctx, n).Ok?
    ensures Run(log, ctx, n - 1).Ok?
    ensures Step(Run(log, ctx, n - 1).value, ctx, n - 1, log[n - 1]) == Run(log, ctx, n)
  {
    hide Step;
  }

  lemma RunInv(log: seq<Entry>, ctx: Context, n: nat)
    requires n <= |log| && Run(log, ctx, n).Ok?
    ensures Inv(Run(log, ctx, n).value)
  {
    UndoRefinesStack(log, ctx, n);
  }

  lemma InvShows(t: Thread)
    requires Inv(t)
    ensures Shown(t.frames) == Flatten(Segments(t.frames, t.turns))
    ensures t.events == |Shown(t.frames)| && Numbered(0, Shown(t.frames))
  {
    SegmentsFlatten(t.frames, t.turns);
  }

  // ---------------------------------------------------------------- what undo cannot touch

  /** One row later: frames keep their key and usage, and lose their events only as a whole. */
  predicate OnlyCleared(before: seq<Frame>, after: seq<Frame>) {
    && |before| <= |after|
    && forall k :: 0 <= k < |before| ==> after[k] == before[k] || after[k] == before[k].(events := [])
  }

  lemma StepOnlyClears(t: Thread, ctx: Context, i: nat, e: Entry)
    requires Inv(t) && Step(t, ctx, i, e).Ok?
    ensures OnlyCleared(t.frames, Step(t, ctx, i, e).value.frames)
    ensures !e.row.Undo? ==> t.frames <= Step(t, ctx, i, e).value.frames
    ensures |Step(t, ctx, i, e).value.frames| == |t.frames| + 1
  {
    DecisionReady(t, ctx, i, e);
    hide Decide, Ready;
  }

  /** Usage is never taken back: every sample stays on the frame that carried it. */
  lemma {:induction false} UsageSurvives(log: seq<Entry>, ctx: Context, m: nat, n: nat)
    requires m <= n <= |log| && Run(log, ctx, n).Ok?
    ensures Run(log, ctx, m).Ok?
    ensures OnlyCleared(Run(log, ctx, m).value.frames, Run(log, ctx, n).value.frames)
    ensures var t, u := Run(log, ctx, m).value, Run(log, ctx, n).value;
            t.usageCount <= u.usageCount && forall k :: 0 <= k < |t.frames| ==> u.frames[k].usage == t.frames[k].usage
    decreases n - m
  {
    hide Step, Inv, Decide, Start;
    if m < n {
      RunStep(log, ctx, n);
      UsageSurvives(log, ctx, m, n - 1);
      RunInv(log, ctx, n - 1);
      StepOnlyClears(Run(log, ctx, n - 1).value, ctx, n - 1, log[n - 1]);
      StepUsage(Run(log, ctx, n - 1).value, ctx, n - 1, log[n - 1]);
    }
  }

  lemma StepUsage(t: Thread, ctx: Context, i: nat, e: Entry)
    requires Step(t, ctx, i, e).Ok?
    ensures t.usageCount <= Step(t, ctx, i, e).value.usageCount
  {
    if Opens(ctx, i, e.row) {
      OpeningDecision(t, ctx, i, e);
    } else if !e.row.Undo? {
      PlainDecision(t, ctx, i, e);
    } else {
      hide OnPrompt, OnMessage, OnRequest, OnUsage, OnStepBegin, OnStepEnd, OnContent, OnToolCall, OnToolResult,
           OnCompaction;
      assert Decide(t, ctx, i, e).value.t.usageCount == t.usageCount;
    }
    hide Decide;
  }

  // ---------------------------------------------------------------- compaction

  /** The root thread has one frame before those of its rows. */
  function Lead(ctx: Context): nat {
    if ctx.isChild then 0 else 1
  }

  /** Row `i` is frame `Lead + i`, and turns above the floor began after the last compaction. */
  ghost predicate Placed(t: Thread, ctx: Context, n: nat) {
    && |t.frames| == n + Lead(ctx) && (n > 0 ==> t.compactedThrough < n) && (n == 0 ==> t.compactedThrough == 0)
    && t.undoFloor <= |t.turns|
    && forall j :: t.undoFloor <= j < |t.turns| ==> t.turns[j] > t.compactedThrough + Lead(ctx)
  }

  /** How one row moves the marks. */
  ghost predicate Moves(t: Thread, next: Thread, ctx: Context, i: nat, r: Row) {
    && |next.frames| == |t.frames| + 1
    && if r.Undo? then
         && UndoAdmitted(t, r.count) && KeepsFloor(t, next)
         && next.turns == t.turns[..|t.turns| - r.count]
         && forall k :: 0 <= k < |t.frames| && k < t.turns[|t.turns| - r.count] ==> next.frames[k] == t.frames[k]
       else
         && t.frames <= next.frames
         && (if r.ApplyCompaction? then
               i > 0 && next.turns == t.turns && next.undoFloor == |t.turns| && next.compactedThrough == i
             else if Opens(ctx, i, r) then i > 0 && KeepsFloor(t, next) && next.turns == t.turns + [|t.frames|]
             else KeepsFloor(t, next) && next.turns == t.turns)
  }

  lemma UndoMoves(t: Thread, ctx: Context, i: nat, e: Entry)
    requires Inv(t) && Step(t, ctx, i, e).Ok? && e.row.Undo?
    ensures Moves(t, Step(t, ctx, i, e).value, ctx, i, e.row)
  {
    hide OnPrompt, OnMessage, OnRequest, OnUsage, OnStepBegin, OnStepEnd, OnContent, OnToolCall, OnToolResult,
         OnCompaction;
    hide Shown, VisibleOf, Numbered;
    assert Decide(t, ctx, i, e) == OnUndo(t, i, e.row);
    hide Decide;
  }

  lemma StepMoves(t: Thread, ctx: Context, i: nat, e: Entry)
    requires Inv(t) && Step(t, ctx, i, e).Ok?
    ensures Moves(t, Step(t, ctx, i, e).value, ctx, i, e.row)
  {
    if e.row.Undo? {
      UndoMoves(t, ctx, i, e);
      hide *;
    } else {
      StepOnlyClears(t, ctx, i, e);
      DecisionReady(t, ctx, i, e);
      CompactedAfter(t, ctx, i, e);
      FloorAfter(t, ctx, i, e);
      hide Decide, Inv, Ready, OnUndo;
    }
  }

  lemma FloorAfter(t: Thread, ctx: Context, i: nat, e: Entry)
    requires Inv(t) && Step(t, ctx, i, e).Ok? && !e.row.Undo?
    ensures Step(t, ctx, i, e).value.undoFloor == if e.row.ApplyCompaction? then |t.turns| else t.undoFloor
    ensures Opens(ctx, i, e.row) ==> i > 0
  {
    if e.row.ApplyCompaction? {
      assert Decide(t, ctx, i, e) == OnCompaction(t, i, e.row);
    } else if Opens(ctx, i, e.row) {
      OpeningDecision(t, ctx, i, e);
      assert i > 0;
    } else {
      PlainDecision(t, ctx, i, e);
    }
    hide Decide, Inv;
  }

  lemma MovesPlaced(t: Thread, next: Thread, ctx: Context, i: nat, r: Row)
    requires MarksOk(t.turns, |t.frames|) && Placed(t, ctx, i) && Moves(t, next, ctx, i, r)
    ensures Placed(next, ctx, i + 1)
    ensures t.undoFloor <= |next.turns| && next.turns[..t.undoFloor] == t.turns[..t.undoFloor]
    ensures t.undoFloor <= next.undoFloor && t.compactedThrough <= next.compactedThrough
    ensures i > 0 ==>
              next.frames[..t.compactedThrough + Lead(ctx) + 1] == t.frames[..t.compactedThrough + Lead(ctx) + 1]
  {
    hide Opens;
  }

  lemma StepPlaced(t: Thread, ctx: Context, i: nat, e: Entry)
    requires Inv(t) && Placed(t, ctx, i) && Step(t, ctx, i, e).Ok?
    ensures Placed(Step(t, ctx, i, e).value, ctx, i + 1)
    ensures var next := Step(t, ctx, i, e).value;
            && t.undoFloor <= |next.turns| && next.turns[..t.undoFloor] == t.turns[..t.undoFloor]
            && t.undoFloor <= next.undoFloor && t.compactedThrough <= next.compactedThrough
            && (i > 0 ==>
                  next.frames[..t.compactedThrough + Lead(ctx) + 1] == t.frames[..t.compactedThrough + Lead(ctx) + 1])
  {
    hide Step, Moves, Placed;
    StepMoves(t, ctx, i, e);
    MovesPlaced(t, Step(t, ctx, i, e).value, ctx, i, e.row);
    hide Inv;
  }

  lemma StartPlaced(ctx: Context)
    requires Start(ctx).Ok?
    ensures Placed(Start(ctx).value, ctx, 0)
  {
  }

  lemma {:induction false} AllPlaced(log: seq<Entry>, ctx: Context, n: nat)
    requires n <= |log| && Run(log, ctx, n).Ok?
    ensures Placed(Run(log, ctx, n).value, ctx, n)
  {
    hide Step, Inv, Placed, Start;
    if n == 0 {
      StartPlaced(ctx);
    } else {
      RunStep(log, ctx, n);
      AllPlaced(log, ctx, n - 1);
      RunInv(log, ctx, n - 1);
      StepPlaced(Run(log, ctx, n - 1).value, ctx, n - 1, log[n - 1]);
    }
  }

  /** No undo reaches behind an applied compaction: its turns and frames are kept for good. */
  lemma {:induction false} CompactionProtects(log: seq<Entry>, ctx: Context, m: nat, n: nat)
    requires 0 < m <= n <= |log| && Run(log, ctx, n).Ok?
    ensures Run(log, ctx, m).Ok?
    ensures var t, u := Run(log, ctx, m).value, Run(log, ctx, n).value;
            var k := t.compactedThrough + Lead(ctx) + 1;
            && k <= |t.frames| <= |u.frames| && u.frames[..k] == t.frames[..k]
            && t.compactedThrough <= u.compactedThrough
            && t.undoFloor <= |t.turns| && t.undoFloor <= u.undoFloor <= |u.turns|
            && u.turns[..t.undoFloor] == t.turns[..t.undoFloor]
    decreases n - m
  {
    hide Run, Step, Inv;
    AllPlaced(log, ctx, n);
    if m < n {
      RunStep(log, ctx, n);
      CompactionProtects(log, ctx, m, n - 1);
      AllPlaced(log, ctx, n - 1);
      RunInv(log, ctx, n - 1);
      var t, v, u := Run(log, ctx, m).value, Run(log, ctx, n - 1).value, Run(log, ctx, n).value;
      StepPlaced(v, ctx, n - 1, log[n - 1]);
      PrefixJoin(t.frames, v.frames, u.frames, t.compactedThrough + Lead(ctx) + 1, v.compactedThrough + Lead(ctx) + 1);
      PrefixJoin(t.turns, v.turns, u.turns, t.undoFloor, v.undoFloor);
    }
  }

  lemma PrefixJoin<T>(a: seq<T>, b: seq<T>, c: seq<T>, k: nat, l: nat)
    requires k <= l && k <= |a| && l <= |b| && l <= |c| && b[..k] == a[..k] && c[..l] == b[..l]
    ensures c[..k] == a[..k]
  {
    assert c[..l][..k] == c[..k];
    assert b[..l][..k] == b[..k];
  }

  /** The line ranges of the applied compactions among the first `n` rows. */
  function Ranges(log: seq<Entry>, n: nat): seq<(int, int)>
    requires n <= |log|
  {
    if n == 0 then []
    else if log[n - 1].row.ApplyCompaction? then Ranges(log, n - 1) + [(log[n - 1].row.start, log[n - 1].row.end)]
    else Ranges(log, n - 1)
  }

  /** Ranges that follow each other without gap or overlap from line 1 to `through`. */
  predicate Tile(ranges: seq<(int, int)>, through: nat)
  {
    && (ranges == [] ==> through == 0)
    && (ranges != [] ==> ranges[0].0 == 1 && ranges[|ranges| - 1].1 == through)
    && (forall k :: 0 <= k < |ranges| ==> ranges[k].0 <= ranges[k].1)
    && forall k :: 0 <= k < |ranges| - 1 ==> ranges[k].1 + 1 == ranges[k + 1].0
  }

  /** Applied compactions tile the log. */
  lemma {:induction false} CompactionsTile(log: seq<Entry>, ctx: Context, n: nat)
    requires n <= |log| && Run(log, ctx, n).Ok?
    ensures Tile(Ranges(log, n), Run(log, ctx, n).value.compactedThrough)
  {
    hide Step, Tile, Placed;
    if n == 0 {
      NothingToTile();
    } else {
      RunStep(log, ctx, n);
      CompactionsTile(log, ctx, n - 1);
      var t := Run(log, ctx, n - 1).value;
      CompactedAfter(t, ctx, n - 1, log[n - 1]);
      if log[n - 1].row.ApplyCompaction? {
        AllPlaced(log, ctx, n - 1);
        PlacedBefore(t, ctx, n - 1);
        NextTile(Ranges(log, n - 1), t.compactedThrough, n - 1);
      }
    }
  }

  lemma NothingToTile()
    ensures Tile([], 0)
  {
  }

  lemma PlacedBefore(t: Thread, ctx: Context, n: nat)
    requires Placed(t, ctx, n) && n > 0
    ensures t.compactedThrough < n
  {
  }

  lemma NextTile(ranges: seq<(int, int)>, through: nat, at: nat)
    requires Tile(ranges, through) && through < at
    ensures Tile(ranges + [(through + 1, at)], at)
  {
  }

  lemma CompactedAfter(t: Thread, ctx: Context, i: nat, e: Entry)
    requires Step(t, ctx, i, e).Ok?
    ensures var next := Step(t, ctx, i, e).value;
            if e.row.ApplyCompaction? then
              e.row.start == t.compactedThrough + 1 && e.row.end == i && next.compactedThrough == i && i > 0
            else next.compactedThrough == t.compactedThrough
  {
    if e.row.ApplyCompaction? {
      assert Decide(t, ctx, i, e) == OnCompaction(t, i, e.row);
    } else if e.row.Undo? {
      assert Decide(t, ctx, i, e) == OnUndo(t, i, e.row);
    } else if Opens(ctx, i, e.row) {
      OpeningDecision(t, ctx, i, e);
    } else {
      PlainDecision(t, ctx, i, e);
    }
    hide Decide;
  }
}
