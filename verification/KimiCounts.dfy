/** What the rows of an accepted Kimi log show and count, read off the rows themselves: which
  * rows carry a usage sample, and how many events each row shows until an undo takes them. */
module KimiCounts {
  import opened Base
  import opened KimiRows
  import opened KimiThread
  import opened KimiTurns
  import KimiCalls

  // ---------------------------------------------------------------- usage

  /** Row `b` begins a compaction that no row before `i` completes. */
  predicate CompactionFrom(log: seq<Entry>, b: nat, i: nat) {
    b < i <= |log| && log[b].row.CompactionBegin? && forall k :: b < k < i ==> !log[k].row.CompactionComplete?
  }

  predicate Compacting(log: seq<Entry>, i: nat) {
    exists b: nat | b < i :: CompactionFrom(log, b, i)
  }

  /** Step ends with counters, and counted usage rows inside a compaction. */
  predicate CountsSample(log: seq<Entry>, i: nat) {
    i < |log| &&
    match log[i].row
    case StepEnd(_, _, _, _, usage) => usage == Some(true)
    case UsageRecord(_, _, _, counted) => counted && Compacting(log, i)
    case _ => false
  }

  function SampleRows(log: seq<Entry>, n: nat): set<nat> {
    set k: nat | k < n && CountsSample(log, k)
  }

  lemma CompactingNext(log: seq<Entry>, n: nat)
    requires n < |log|
    ensures Compacting(log, n + 1) <==>
              log[n].row.CompactionBegin? || (Compacting(log, n) && !log[n].row.CompactionComplete?)
  {
    var m := n + 1;
    if log[n].row.CompactionBegin? {
      assert CompactionFrom(log, n, m);
    } else if Compacting(log, n) && !log[n].row.CompactionComplete? {
      var b: nat :| b < n && CompactionFrom(log, b, n);
      assert CompactionFrom(log, b, m);
    }
    if Compacting(log, m) {
      var b: nat :| b < m && CompactionFrom(log, b, m);
      assert b == n || CompactionFrom(log, b, n);
    }
  }

  lemma CompactionAfter(t: Thread, ctx: Context, i: nat, e: Entry)
    requires Step(t, ctx, i, e).Ok?
    ensures Step(t, ctx, i, e).value.compaction.Some? <==>
              e.row.CompactionBegin? || (t.compaction.Some? && !e.row.CompactionComplete?)
  {
    hide UndoAdmitted, EventsFrom, ClearFrom, VisibleBefore, UserParts;
  }

  /** The machine is in a compaction exactly between its first and its last row. */
  lemma {:induction false} CompactionIsOpen(log: seq<Entry>, ctx: Context, n: nat)
    requires n <= |log| && Run(log, ctx, n).Ok?
    ensures Run(log, ctx, n).value.compaction.Some? <==> Compacting(log, n)
  {
    hide Step;
    if n > 0 {
      RunStep(log, ctx, n);
      CompactionIsOpen(log, ctx, n - 1);
      CompactionAfter(Run(log, ctx, n - 1).value, ctx, n - 1, log[n - 1]);
      CompactingNext(log, n - 1);
    }
  }

  /** The samples of one row, given whether a compaction is open. */
  function Sampled(r: Row, compacting: bool): nat {
    match r
    case StepEnd(_, _, _, _, usage) => if usage == Some(true) then 1 else 0
    case UsageRecord(_, _, _, counted) => if counted && compacting then 1 else 0
    case _ => 0
  }

  lemma LoopSamples(t: Thread, ctx: Context, i: nat, e: Entry)
    requires e.row.StepBegin? || e.row.StepEnd? || e.row.Content? || e.row.ToolCall? || e.row.ToolResult?
    requires Decide(t, ctx, i, e).Ok?
    ensures Decide(t, ctx, i, e).value.usage == Sampled(e.row, t.compaction.Some?)
    ensures Decide(t, ctx, i, e).value.t.usageCount == t.usageCount
  {
    hide OnPrompt, OnMessage, OnRequest, OnUsage, OnCompaction, OnUndo;
  }

  lemma DecisionSamples(t: Thread, ctx: Context, i: nat, e: Entry)
    requires Decide(t, ctx, i, e).Ok?
    ensures Decide(t, ctx, i, e).value.usage == Sampled(e.row, t.compaction.Some?)
    ensures Decide(t, ctx, i, e).value.t.usageCount == t.usageCount
  {
    hide EventsFrom, ClearFrom, VisibleBefore, UndoAdmitted, UserParts, OnStepBegin, OnStepEnd, OnContent, OnToolCall,
         OnToolResult;
    if e.row.StepBegin? || e.row.StepEnd? || e.row.Content? || e.row.ToolCall? || e.row.ToolResult? {
      LoopSamples(t, ctx, i, e);
    }
  }

  lemma StepSamples(t: Thread, ctx: Context, i: nat, e: Entry)
    requires Step(t, ctx, i, e).Ok? && Inv(t)
    ensures var next := Step(t, ctx, i, e).value;
            var n := Sampled(e.row, t.compaction.Some?);
            && next.usageCount == t.usageCount + n && |next.frames| == |t.frames| + 1
            && next.frames[|t.frames|].usage == n
  {
    DecisionSamples(t, ctx, i, e);
    DecisionReady(t, ctx, i, e);
    hide Decide, Ready, Inv;
  }

  /** In every accepted prefix the usage counter is the number of rows that carry a sample. */
  lemma {:induction false} UsageCounted(log: seq<Entry>, ctx: Context, n: nat)
    requires n <= |log| && Run(log, ctx, n).Ok?
    ensures Run(log, ctx, n).value.usageCount == |SampleRows(log, n)|
  {
    hide Step, Inv, Start;
    if n == 0 {
      StartCounts(ctx);
      assert SampleRows(log, 0) == {};
    } else {
      RunStep(log, ctx, n);
      UsageCounted(log, ctx, n - 1);
      RunInv(log, ctx, n - 1);
      StepSamples(Run(log, ctx, n - 1).value, ctx, n - 1, log[n - 1]);
      CompactionIsOpen(log, ctx, n - 1);
      hide Run;
      SampleRowsNext(log, n - 1);
    }
  }

  lemma StartCounts(ctx: Context)
    requires Start(ctx).Ok?
    ensures Start(ctx).value.usageCount == 0
  {
  }

  lemma SampleRowsNext(log: seq<Entry>, n: nat)
    requires n < |log|
    ensures |SampleRows(log, n + 1)| == |SampleRows(log, n)| + Sampled(log[n].row, Compacting(log, n))
    ensures Sampled(log[n].row, Compacting(log, n)) == if CountsSample(log, n) then 1 else 0
  {
    hide Compacting;
    assert SampleRows(log, n + 1) == SampleRows(log, n) + if CountsSample(log, n) then {n} else {};
  }

  /** The frame of a row carries one sample if the row does, for good. */
  lemma FrameSamples(log: seq<Entry>, ctx: Context, i: nat, n: nat)
    requires i < n <= |log| && Run(log, ctx, n).Ok?
    ensures i + Lead(ctx) < |Run(log, ctx, n).value.frames|
    ensures Run(log, ctx, n).value.frames[i + Lead(ctx)].usage == if CountsSample(log, i) then 1 else 0
  {
    hide Run, Step, Inv;
    UsageSurvives(log, ctx, i + 1, n);
    RunStep(log, ctx, i + 1);
    AllPlaced(log, ctx, i);
    AllPlaced(log, ctx, i + 1);
    RunInv(log, ctx, i);
    StepSamples(Run(log, ctx, i).value, ctx, i, log[i]);
    CompactionIsOpen(log, ctx, i);
    SampleRowsNext(log, i);
  }

  // ---------------------------------------------------------------- events

  /** The nonempty text parts of a message. */
  function ShownParts(parts: seq<Part>): set<nat> {
    set k: nat | k < |parts| && parts[k].TextPart? && parts[k].text != ""
  }

  /** How many events a row shows: a user message its nonempty text parts, shown content, a call
    * and a result one, every other row none. */
  function EventsOf(ctx: Context, i: nat, r: Row): nat {
    if Opens(ctx, i, r) then (if r.content.Some? then |ShownParts(r.content.value)| else 0)
    else match r
      case Content(_, _, _, _, _, shown) => if shown then 1 else 0
      case ToolCall(_, _, _, _, _, _, _) => 1
      case ToolResult(_, _, _, _) => 1
      case _ => 0
  }

  lemma {:induction false} PartsSnoc(parts: seq<Part>, p: Part)
    ensures UserParts(parts + [p]) == UserParts(parts) + UserParts([p])
  {
    if parts == [] {
      assert parts + [p] == [p];
    } else {
      PartsSnoc(parts[1..], p);
      assert (parts + [p])[1..] == parts[1..] + [p];
      Assoc(UserParts([parts[0]]), UserParts(parts[1..]), UserParts([p]));
    }
  }

  lemma {:induction false} PartsShown(parts: seq<Part>)
    ensures |UserParts(parts)| == |ShownParts(parts)|
    decreases |parts|
  {
    if parts == [] {
      assert ShownParts(parts) == {};
    } else {
      var n := |parts| - 1;
      PartsShown(parts[..n]);
      PartsSnoc(parts[..n], parts[n]);
      assert parts == parts[..n] + [parts[n]];
      assert UserParts([parts[n]]) == if parts[n].TextPart? && parts[n].text != "" then [None] else [];
      assert ShownParts(parts)
             == ShownParts(parts[..n]) + if parts[n].TextPart? && parts[n].text != "" then {n} else {};
    }
  }

  lemma DecisionEvents(t: Thread, ctx: Context, i: nat, e: Entry)
    requires Decide(t, ctx, i, e).Ok?
    ensures |Decide(t, ctx, i, e).value.output| == EventsOf(ctx, i, e.row)
  {
    if Opens(ctx, i, e.row) {
      if e.row.content.Some? {
        PartsShown(e.row.content.value);
      }
      hide UserParts, ShownParts;
    } else {
      hide UserParts, ShownParts, ClearFrom, EventsFrom, VisibleBefore, UndoAdmitted;
    }
  }

  /** The events of row `i`: as many as the row shows, named after it in order, and linked to the
    * child that the row calls. */
  predicate RowShown(shown: seq<Event>, ctx: Context, i: nat, r: Row) {
    && |shown| == EventsOf(ctx, i, r)
    && forall k :: 0 <= k < |shown| ==>
         && shown[k].line == i && shown[k].part == k
         && shown[k].child == if k == 0 then KimiCalls.LinkOf(ctx.callChildren, r) else None
  }

  lemma StepEvents(t: Thread, ctx: Context, i: nat, e: Entry)
    requires Step(t, ctx, i, e).Ok? && Inv(t)
    ensures var next := Step(t, ctx, i, e).value;
            && |next.frames| == |t.frames| + 1
            && RowShown(next.frames[|t.frames|].events, ctx, i, e.row)
  {
    DecisionEvents(t, ctx, i, e);
    DecisionReady(t, ctx, i, e);
    KimiCalls.OutputLinks(t, ctx, i, e);
    hide Decide, Ready, Inv, EventsOf;
  }

  /** Undo row `k` takes frame `f`: its first removed turn began there or earlier. */
  predicate Takes(log: seq<Entry>, ctx: Context, k: nat, f: nat) {
    && k < |log| && log[k].row.Undo? && Run(log, ctx, k).Ok?
    && var t := Run(log, ctx, k).value;
       0 < log[k].row.count <= |t.turns| && t.turns[|t.turns| - log[k].row.count] <= f
  }

  /** An undo clears exactly the frames from its first removed turn on. */
  lemma StepClears(t: Thread, ctx: Context, i: nat, e: Entry, f: nat)
    requires Step(t, ctx, i, e).Ok? && Inv(t) && f < |t.frames|
    ensures |Step(t, ctx, i, e).value.frames| == |t.frames| + 1
    ensures e.row.Undo? ==> 0 < e.row.count <= |t.turns|
    ensures Step(t, ctx, i, e).value.frames[f].events
            == if e.row.Undo? && t.turns[|t.turns| - e.row.count] <= f then [] else t.frames[f].events
  {
    StepOnlyClears(t, ctx, i, e);
    if e.row.Undo? {
      hide OnPrompt, OnMessage, OnRequest, OnUsage, OnStepBegin, OnStepEnd, OnContent, OnToolCall, OnToolResult,
           OnCompaction, Shown, VisibleOf, Numbered, EventsFrom, VisibleBefore;
      assert Decide(t, ctx, i, e) == OnUndo(t, i, e.row);
      hide Decide;
    } else {
      hide Step, Inv;
    }
  }

  /** After any accepted prefix the frame of row `i` shows exactly the events of its row, unless a
    * later undo took it; then it shows none. */
  lemma {:induction false} FrameEvents(log: seq<Entry>, ctx: Context, i: nat, n: nat)
    requires i < n <= |log| && Run(log, ctx, n).Ok?
    ensures i + Lead(ctx) < |Run(log, ctx, n).value.frames|
    ensures var f := i + Lead(ctx);
            var shown := Run(log, ctx, n).value.frames[f].events;
            if exists k :: i < k < n && Takes(log, ctx, k, f) then shown == []
            else RowShown(shown, ctx, i, log[i].row)
    decreases n
  {
    hide Run, Step, Inv, RowShown;
    RunStep(log, ctx, n);
    AllPlaced(log, ctx, n - 1);
    AllPlaced(log, ctx, n);
    RunInv(log, ctx, n - 1);
    var t := Run(log, ctx, n - 1).value;
    if i == n - 1 {
      StepEvents(t, ctx, i, log[i]);
    } else {
      FrameEvents(log, ctx, i, n - 1);
      var f := i + Lead(ctx);
      StepClears(t, ctx, n - 1, log[n - 1], f);
      assert Takes(log, ctx, n - 1, f) <==>
               log[n - 1].row.Undo? && t.turns[|t.turns| - log[n - 1].row.count] <= f;
    }
  }
}
