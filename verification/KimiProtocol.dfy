/** The protocol of one Kimi log, read off its rows.
  *
  * The machine carries an open step with its model and calls, a compaction, the prompts and
  * messages met so far and a few marks. Here each of them is said by the rows before
  * (`StateIsRead`), and `RowAcceptedExactly` lists the rows that may come next.
  */
module KimiProtocol {
  import opened Base
  import opened KimiRows
  import opened KimiThread
  import opened KimiTurns
  import opened KimiCounts

  // ---------------------------------------------------------------- the open step

  /** Step row `b` is not ended before row `n`. */
  predicate StepFrom(log: seq<Entry>, b: nat, n: nat) {
    b < n <= |log| && log[b].row.StepBegin? && forall k :: b < k < n ==> !log[k].row.StepEnd?
  }

  predicate InStep(log: seq<Entry>, n: nat) {
    exists b: nat | b < n :: StepFrom(log, b, n)
  }

  predicate Asks(log: seq<Entry>, b: nat, n: nat, k: nat) {
    b < k < n <= |log| && log[k].row.Request?
  }

  predicate CallsAs(log: seq<Entry>, b: nat, n: nat, k: nat, id: string) {
    b < k < n <= |log| && log[k].row.ToolCall? && log[k].row.callId == id
  }

  predicate Returns(log: seq<Entry>, b: nat, n: nat, k: nat, id: string) {
    b < k < n <= |log| && log[k].row.ToolResult? && log[k].row.callId == id
  }

  ghost predicate Asked(log: seq<Entry>, b: nat, n: nat) {
    exists k: nat :: Asks(log, b, n, k)
  }

  ghost predicate Called(log: seq<Entry>, b: nat, n: nat, id: string) {
    exists k: nat :: CallsAs(log, b, n, k, id)
  }

  ghost predicate Returned(log: seq<Entry>, b: nat, n: nat, id: string) {
    exists k: nat :: Returns(log, b, n, k, id)
  }

  /** The open step is that of row `b`: its identity, its model and its calls. */
  ghost predicate StepIs(log: seq<Entry>, b: nat, n: nat, s: ModelStep) {
    && StepFrom(log, b, n)
    && s.uuid == log[b].row.uuid && s.turnId == log[b].row.turnId && s.number == log[b].row.number
    && (s.model.Some? <==> Asked(log, b, n))
    && (forall k: nat :: Asks(log, b, n, k) ==> s.model == Some(log[k].row.model))
    && (forall id :: id in s.calls <==> Called(log, b, n, id))
    && (forall k: nat, id :: CallsAs(log, b, n, k, id) && id in s.calls ==>
          s.calls[id].uuid == log[k].row.uuid && s.calls[id].name == log[k].row.name)
    && (forall id :: id in s.calls && s.calls[id].done <==> Returned(log, b, n, id))
  }

  ghost predicate StepRead(log: seq<Entry>, n: nat, step: Option<ModelStep>) {
    match step
    case None => !InStep(log, n)
    case Some(s) => exists b: nat :: StepIs(log, b, n, s) && forall c: nat :: StepFrom(log, c, n) ==> c == b
  }

  /** What an accepted row does to the open step. */
  function NextStep(step: Option<ModelStep>, r: Row): Option<ModelStep> {
    match r
    case StepBegin(uuid, turnId, number) => Some(ModelStep(uuid, turnId, number, None, map[]))
    case StepEnd(_, _, _, _, _) => None
    case Request(_, _, model, _) => if step.Some? then Some(step.value.(model := Some(model))) else None
    case ToolCall(uuid, _, _, _, callId, name, _) =>
      if step.Some? then Some(step.value.(calls := step.value.calls[callId := ToolUse(uuid, name, false)])) else None
    case ToolResult(callId, _, _, _) =>
      if step.Some? && callId in step.value.calls
      then Some(step.value.(calls := step.value.calls[callId := step.value.calls[callId].(done := true)])) else None
    case _ => step
  }

  lemma LoopStepAfter(t: Thread, ctx: Context, i: nat, e: Entry)
    requires e.row.StepBegin? || e.row.StepEnd? || e.row.Content? || e.row.ToolCall? || e.row.ToolResult?
    requires Decide(t, ctx, i, e).Ok?
    ensures Decide(t, ctx, i, e).value.t.step == NextStep(t.step, e.row)
    ensures t.compaction.None? && (e.row.StepBegin? <==> t.step.None?)
    ensures e.row.ToolCall? ==> e.row.callId !in t.step.value.calls
    ensures e.row.ToolResult? ==> e.row.callId in t.step.value.calls && !t.step.value.calls[e.row.callId].done
  {
    hide OnPrompt, OnMessage, OnRequest, OnUsage, OnCompaction, OnUndo;
  }

  lemma StepAfter(t: Thread, ctx: Context, i: nat, e: Entry)
    requires Step(t, ctx, i, e).Ok? && (t.compaction.Some? ==> t.step.None?)
    ensures Step(t, ctx, i, e).value.step == NextStep(t.step, e.row)
    ensures e.row.StepBegin? ==> t.step.None?
    ensures e.row.Request? && t.step.Some? ==> t.step.value.model.None?
    ensures e.row.ToolCall? ==> t.step.Some? && e.row.callId !in t.step.value.calls
    ensures e.row.ToolResult? ==>
              t.step.Some? && e.row.callId in t.step.value.calls && !t.step.value.calls[e.row.callId].done
    ensures e.row.CompactionBegin? ==> t.step.None?
  {
    hide EventsFrom, ClearFrom, VisibleBefore, UndoAdmitted, UserParts, OnStepBegin, OnStepEnd, OnContent, OnToolCall,
         OnToolResult;
    if e.row.StepBegin? || e.row.StepEnd? || e.row.Content? || e.row.ToolCall? || e.row.ToolResult? {
      LoopStepAfter(t, ctx, i, e);
    }
  }

  lemma StepFromNext(log: seq<Entry>, b: nat, n: nat)
    requires n < |log|
    ensures StepFrom(log, b, n + 1) <==>
            (b == n && log[n].row.StepBegin?) || (StepFrom(log, b, n) && !log[n].row.StepEnd?)
  {
  }

  /** The rows of the open step, one row later. */
  lemma SpanNext(log: seq<Entry>, b: nat, n: nat, id: string)
    requires b < n < |log|
    ensures var r := log[n].row; var m := n + 1;
            && (Asked(log, b, m) <==> Asked(log, b, n) || r.Request?)
            && (Called(log, b, m, id) <==> Called(log, b, n, id) || (r.ToolCall? && r.callId == id))
            && (Returned(log, b, m, id) <==> Returned(log, b, n, id) || (r.ToolResult? && r.callId == id))
  {
    var r, m := log[n].row, n + 1;
    if Asked(log, b, n) {
      var k: nat :| Asks(log, b, n, k);
      assert Asks(log, b, m, k);
    }
    if Called(log, b, n, id) {
      var k: nat :| CallsAs(log, b, n, k, id);
      assert CallsAs(log, b, m, k, id);
    }
    if Returned(log, b, n, id) {
      var k: nat :| Returns(log, b, n, k, id);
      assert Returns(log, b, m, k, id);
    }
    assert r.Request? ==> Asks(log, b, m, n);
    assert r.ToolCall? && r.callId == id ==> CallsAs(log, b, m, n, id);
    assert r.ToolResult? && r.callId == id ==> Returns(log, b, m, n, id);
    if Asked(log, b, m) {
      var k: nat :| Asks(log, b, m, k);
      assert k == n || Asks(log, b, n, k);
    }
    if Called(log, b, m, id) {
      var k: nat :| CallsAs(log, b, m, k, id);
      assert k == n || CallsAs(log, b, n, k, id);
    }
    if Returned(log, b, m, id) {
      var k: nat :| Returns(log, b, m, k, id);
      assert k == n || Returns(log, b, n, k, id);
    }
  }

  lemma SpanStart(log: seq<Entry>, b: nat, id: string)
    ensures var m := b + 1; !Asked(log, b, m) && !Called(log, b, m, id) && !Returned(log, b, m, id)
  {
  }

  lemma StepIsNext(log: seq<Entry>, b: nat, n: nat, s: ModelStep)
    requires n < |log| && StepIs(log, b, n, s)
    requires var r := log[n].row;
             && !r.StepEnd? && !r.StepBegin? && (r.Request? ==> s.model.None?)
             && (r.ToolCall? ==> r.callId !in s.calls)
             && (r.ToolResult? ==> r.callId in s.calls && !s.calls[r.callId].done)
    ensures NextStep(Some(s), log[n].row).Some?
    ensures var m := n + 1; StepIs(log, b, m, NextStep(Some(s), log[n].row).value)
  {
    var r, m := log[n].row, n + 1;
    var u := NextStep(Some(s), r).value;
    StepFromNext(log, b, n);
    SpanNext(log, b, n, "");
    forall k: nat | Asks(log, b, m, k)
      ensures u.model == Some(log[k].row.model)
    {
      if k < n {
        assert Asks(log, b, n, k) && Asked(log, b, n);
      }
    }
    forall id
      ensures id in u.calls <==> Called(log, b, m, id)
      ensures id in u.calls && u.calls[id].done <==> Returned(log, b, m, id)
    {
      SpanNext(log, b, n, id);
    }
    forall k: nat, id | CallsAs(log, b, m, k, id) && id in u.calls
      ensures u.calls[id].uuid == log[k].row.uuid && u.calls[id].name == log[k].row.name
    {
      if k < n {
        assert CallsAs(log, b, n, k, id) && Called(log, b, n, id);
      }
    }
    hide Asked, Called, Returned, StepFrom;
  }

  lemma StepReadNext(log: seq<Entry>, n: nat, step: Option<ModelStep>)
    requires n < |log| && StepRead(log, n, step)
    requires var r := log[n].row;
             && (r.StepBegin? ==> step.None?) && (r.Request? && step.Some? ==> step.value.model.None?)
             && (r.ToolCall? ==> step.Some? && r.callId !in step.value.calls)
             && (r.ToolResult? ==> step.Some? && r.callId in step.value.calls && !step.value.calls[r.callId].done)
    ensures var m := n + 1; StepRead(log, m, NextStep(step, log[n].row))
  {
    var r, m := log[n].row, n + 1;
    forall b: nat
      ensures StepFrom(log, b, m) <==> (b == n && r.StepBegin?) || (StepFrom(log, b, n) && !r.StepEnd?)
    {
      StepFromNext(log, b, n);
    }
    hide StepFrom, Asked, Called, Returned, Asks, CallsAs, Returns;
    if r.StepBegin? {
      NewStepIs(log, n);
    } else if step.Some? && !r.StepEnd? {
      var b: nat :| StepIs(log, b, n, step.value) && forall c: nat :: StepFrom(log, c, n) ==> c == b;
      StepIsNext(log, b, n, step.value);
    }
    hide StepIs;
  }

  lemma NewStepIs(log: seq<Entry>, n: nat)
    requires n < |log| && log[n].row.StepBegin?
    ensures var m := n + 1; var r := log[n].row;
            StepIs(log, n, m, ModelStep(r.uuid, r.turnId, r.number, None, map[]))
  {
    var m := n + 1;
    forall id
      ensures !Asked(log, n, m) && !Called(log, n, m, id) && !Returned(log, n, m, id)
    {
      SpanStart(log, n, id);
    }
    hide Asked, Called, Returned;
  }

  // ---------------------------------------------------------------- the compaction

  /** The last compaction row `b` before `n`, with what happened since. */
  ghost predicate CompactionIs(log: seq<Entry>, b: nat, n: nat, c: Compaction) {
    && CompactionFrom(log, b, n) && c.line == b
    && (c.model.Some? <==> Asked(log, b, n))
    && (forall k: nat :: Asks(log, b, n, k) ==> c.model == Some(log[k].row.model) && c.alias == log[k].row.alias)
    && (c.used <==> Counted(log, b, n)) && (c.applied <==> Applied(log, b, n))
  }

  predicate Counted(log: seq<Entry>, b: nat, n: nat) {
    exists k: nat | k < n :: b < k < |log| && log[k].row.UsageRecord?
  }

  predicate Applied(log: seq<Entry>, b: nat, n: nat) {
    exists k: nat | k < n :: b < k < |log| && log[k].row.ApplyCompaction?
  }

  ghost predicate CompactionRead(log: seq<Entry>, n: nat, c: Option<Compaction>) {
    match c
    case None => !Compacting(log, n)
    case Some(c) => exists b: nat :: CompactionIs(log, b, n, c) && forall d: nat :: CompactionFrom(log, d, n) ==> d == b
  }

  function NextCompaction(c: Option<Compaction>, i: nat, r: Row): Option<Compaction> {
    match r
    case CompactionBegin(_) => Some(Compaction(i, None, "", false, false))
    case CompactionComplete => None
    case Request(_, _, model, alias) => if c.Some? then Some(c.value.(model := Some(model), alias := alias)) else None
    case UsageRecord(_, _, _, _) => if c.Some? then Some(c.value.(used := true)) else None
    case ApplyCompaction(_, _, _) => if c.Some? then Some(c.value.(applied := true)) else None
    case _ => c
  }

  lemma LoopCompactionAfter(t: Thread, ctx: Context, i: nat, e: Entry)
    requires e.row.StepBegin? || e.row.StepEnd? || e.row.Content? || e.row.ToolCall? || e.row.ToolResult?
    requires Decide(t, ctx, i, e).Ok?
    ensures Decide(t, ctx, i, e).value.t.compaction == t.compaction
  {
    hide OnPrompt, OnMessage, OnRequest, OnUsage, OnCompaction, OnUndo;
  }

  lemma CompactionStateAfter(t: Thread, ctx: Context, i: nat, e: Entry)
    requires Step(t, ctx, i, e).Ok?
    ensures Step(t, ctx, i, e).value.compaction == NextCompaction(t.compaction, i, e.row)
    ensures e.row.CompactionBegin? ==> t.compaction.None? && t.step.None?
    ensures t.compaction.Some? ==>
              && (e.row.Request? ==> t.compaction.value.model.None?)
              && (e.row.UsageRecord? ==> !t.compaction.value.used)
              && (e.row.ApplyCompaction? ==> !t.compaction.value.applied)
              && !e.row.StepBegin?
  {
    hide EventsFrom, ClearFrom, VisibleBefore, UndoAdmitted, UserParts, OnStepEnd, OnContent, OnToolCall,
         OnToolResult;
    if e.row.StepBegin? || e.row.StepEnd? || e.row.Content? || e.row.ToolCall? || e.row.ToolResult? {
      LoopCompactionAfter(t, ctx, i, e);
    }
  }

  lemma CompactionReadNext(log: seq<Entry>, n: nat, c: Option<Compaction>)
    requires n < |log| && CompactionRead(log, n, c)
    requires log[n].row.CompactionBegin? ==> c.None?
    requires c.Some? && log[n].row.Request? ==> c.value.model.None?
    ensures var m := n + 1; CompactionRead(log, m, NextCompaction(c, n, log[n].row))
  {
    var r, m := log[n].row, n + 1;
    forall b: nat
      ensures CompactionFrom(log, b, m) <==>
              (b == n && r.CompactionBegin?) || (CompactionFrom(log, b, n) && !r.CompactionComplete?)
    {
    }
    CompactingNext(log, n);
    hide CompactionFrom, Compacting, Asked;
    if r.CompactionBegin? {
      SpanStart(log, n, "");
      assert CompactionIs(log, n, m, Compaction(n, None, "", false, false));
    } else if c.Some? && !r.CompactionComplete? {
      var b: nat :| CompactionIs(log, b, n, c.value) && forall d: nat :: CompactionFrom(log, d, n) ==> d == b;
      CompactionIsNext(log, b, n, c.value);
    }
    hide CompactionIs;
  }

  lemma CompactionIsNext(log: seq<Entry>, b: nat, n: nat, c: Compaction)
    requires n < |log| && CompactionIs(log, b, n, c)
    requires !log[n].row.CompactionBegin? && !log[n].row.CompactionComplete?
    requires log[n].row.Request? ==> c.model.None?
    ensures NextCompaction(Some(c), n, log[n].row).Some?
    ensures var m := n + 1; CompactionIs(log, b, m, NextCompaction(Some(c), n, log[n].row).value)
  {
    var r, m := log[n].row, n + 1;
    SpanNext(log, b, n, "");
    var d := NextCompaction(Some(c), n, r).value;
    forall k: nat | Asks(log, b, m, k)
      ensures d.model == Some(log[k].row.model) && d.alias == log[k].row.alias
    {
      if k < n {
        assert Asks(log, b, n, k) && Asked(log, b, n);
      }
    }
    hide Asked;
  }

  // ---------------------------------------------------------------- prompts, messages, notifications

  predicate Wakes(r: Row) {
    r.Prompt? || r.StepBegin?
  }

  /** Row `k` made the thread active, and no turn has ended since. */
  predicate ActiveFrom(log: seq<Entry>, k: nat, n: nat) {
    k < n <= |log| && Wakes(log[k].row) && forall j :: k < j < n ==> !log[j].row.TurnEnded?
  }

  ghost predicate Active(log: seq<Entry>, n: nat) {
    exists k: nat :: ActiveFrom(log, k, n)
  }

  /** Row `k` asks under this id; it is no task notification. */
  predicate Prompts(log: seq<Entry>, ctx: Context, n: nat, k: nat, id: string) {
    k < n <= |log| && log[k].row.Prompt? && k !in ctx.taskRows && log[k].row.promptId == id
  }

  /** Row `k` is the user message of this id. */
  predicate Says(log: seq<Entry>, ctx: Context, n: nat, k: nat, id: string) {
    k < n <= |log| && Opens(ctx, k, log[k].row) && log[k].row.id == Some(id)
  }

  /** Row `k` announces task notification `x`, and its message has not come. */
  predicate Announces(log: seq<Entry>, ctx: Context, n: nat, k: nat) {
    && k < n <= |log| && log[k].row.Prompt? && k in ctx.taskRows
    && forall j :: k < j < n ==> !IsTaskMessage(ctx, j, log[j].row)
  }

  predicate IsTaskMessage(ctx: Context, i: nat, r: Row) {
    r.Message? && r.origin.kind.FromTask? && i in ctx.taskRows
  }

  predicate Begins(log: seq<Entry>, n: nat, k: nat, uuid: string) {
    k < n <= |log| && log[k].row.StepBegin? && log[k].row.uuid == uuid
  }

  ghost predicate Prompted(log: seq<Entry>, ctx: Context, n: nat, id: string) {
    exists k: nat :: Prompts(log, ctx, n, k, id)
  }

  ghost predicate Said(log: seq<Entry>, ctx: Context, n: nat, id: string) {
    exists k: nat :: Says(log, ctx, n, k, id)
  }

  ghost predicate Announced(log: seq<Entry>, ctx: Context, n: nat) {
    exists k: nat :: Announces(log, ctx, n, k)
  }

  ghost predicate Begun(log: seq<Entry>, n: nat, uuid: string) {
    exists k: nat :: Begins(log, n, k, uuid)
  }

  ghost predicate PromptsRead(log: seq<Entry>, ctx: Context, n: nat, t: Thread) {
    && (forall id :: id in t.prompts <==> Prompted(log, ctx, n, id))
    && (forall k: nat, id :: Prompts(log, ctx, n, k, id) && id in t.prompts ==>
          t.prompts[id] == KimiThread.Asked(log[k].row.origin, log[k].row.input))
    && (forall id :: id in t.messages <==> Said(log, ctx, n, id))
    && (t.messages == {} <==> forall id :: !Said(log, ctx, n, id))
  }

  ghost predicate TaskRead(log: seq<Entry>, ctx: Context, n: nat, t: Thread) {
    && (t.taskPrompt.Some? <==> Announced(log, ctx, n))
    && (forall k: nat :: Announces(log, ctx, n, k) ==> t.taskPrompt == Some(ctx.taskRows[k]))
    && (forall uuid :: uuid in t.steps <==> Begun(log, n, uuid))
    && (t.active <==> Active(log, n))
  }

  /** What an accepted row does to them. */
  ghost predicate PromptsMove(t: Thread, next: Thread, ctx: Context, i: nat, r: Row) {
    && (if r.Prompt? && i !in ctx.taskRows then
          r.promptId !in t.prompts
          && next.prompts == t.prompts[r.promptId := KimiThread.Asked(r.origin, r.input)]
        else next.prompts == t.prompts)
    && (if Opens(ctx, i, r) then r.id.Some? && next.messages == t.messages + {r.id.value}
        else next.messages == t.messages)
  }

  ghost predicate TaskMoves(t: Thread, next: Thread, ctx: Context, i: nat, r: Row) {
    && next.taskPrompt == (if r.Prompt? && i in ctx.taskRows then Some(ctx.taskRows[i])
                           else if IsTaskMessage(ctx, i, r) then None else t.taskPrompt)
    && (r.Prompt? && i in ctx.taskRows ==> t.taskPrompt.None?)
    && next.steps == (if r.StepBegin? then t.steps + {r.uuid} else t.steps)
    && (next.active <==> Wakes(r) || (t.active && !r.TurnEnded?))
  }

  lemma LoopMoves(t: Thread, ctx: Context, i: nat, e: Entry)
    requires e.row.StepBegin? || e.row.StepEnd? || e.row.Content? || e.row.ToolCall? || e.row.ToolResult?
    requires Decide(t, ctx, i, e).Ok?
    ensures PromptsMove(t, Decide(t, ctx, i, e).value.t, ctx, i, e.row)
    ensures TaskMoves(t, Decide(t, ctx, i, e).value.t, ctx, i, e.row)
  {
    hide OnPrompt, OnMessage, OnRequest, OnUsage, OnCompaction, OnUndo;
  }

  lemma MessageMoves(t: Thread, ctx: Context, i: nat, r: Row)
    requires r.Message? && OnMessage(t, ctx, i, r).Ok?
    ensures PromptsMove(t, OnMessage(t, ctx, i, r).value.t, ctx, i, r)
    ensures TaskMoves(t, OnMessage(t, ctx, i, r).value.t, ctx, i, r)
  {
    hide UserParts;
  }

  lemma PromptMoves(t: Thread, ctx: Context, i: nat, r: Row)
    requires r.Prompt? && OnPrompt(t, ctx, i, r).Ok?
    ensures PromptsMove(t, OnPrompt(t, ctx, i, r).value.t, ctx, i, r)
    ensures TaskMoves(t, OnPrompt(t, ctx, i, r).value.t, ctx, i, r)
  {
  }

  lemma UndoMovesNobody(t: Thread, ctx: Context, i: nat, r: Row)
    requires r.Undo? && OnUndo(t, i, r).Ok?
    ensures PromptsMove(t, OnUndo(t, i, r).value.t, ctx, i, r)
    ensures TaskMoves(t, OnUndo(t, i, r).value.t, ctx, i, r)
  {
    hide UndoAdmitted, EventsFrom, ClearFrom, VisibleBefore;
  }

  lemma DecisionMoves(t: Thread, ctx: Context, i: nat, e: Entry)
    requires Decide(t, ctx, i, e).Ok?
    ensures PromptsMove(t, Decide(t, ctx, i, e).value.t, ctx, i, e.row)
    ensures TaskMoves(t, Decide(t, ctx, i, e).value.t, ctx, i, e.row)
  {
    hide OnPrompt, OnMessage, OnUndo, OnStepBegin, OnStepEnd, OnContent, OnToolCall, OnToolResult;
    if e.row.StepBegin? || e.row.StepEnd? || e.row.Content? || e.row.ToolCall? || e.row.ToolResult? {
      LoopMoves(t, ctx, i, e);
    } else if e.row.Message? {
      MessageMoves(t, ctx, i, e.row);
    } else if e.row.Prompt? {
      PromptMoves(t, ctx, i, e.row);
    } else if e.row.Undo? {
      UndoMovesNobody(t, ctx, i, e.row);
    }
  }

  lemma RowMoves(t: Thread, ctx: Context, i: nat, e: Entry)
    requires Step(t, ctx, i, e).Ok?
    ensures PromptsMove(t, Step(t, ctx, i, e).value, ctx, i, e.row)
    ensures TaskMoves(t, Step(t, ctx, i, e).value, ctx, i, e.row)
  {
    hide Decide, Opens;
    DecisionMoves(t, ctx, i, e);
  }

  lemma PromptsReadNext(log: seq<Entry>, ctx: Context, n: nat, t: Thread, next: Thread)
    requires n < |log| && PromptsRead(log, ctx, n, t) && PromptsMove(t, next, ctx, n, log[n].row)
    ensures var m := n + 1; PromptsRead(log, ctx, m, next)
  {
    var r, m := log[n].row, n + 1;
    forall id
      ensures Prompted(log, ctx, m, id) <==>
              Prompted(log, ctx, n, id) || (r.Prompt? && n !in ctx.taskRows && r.promptId == id)
      ensures Said(log, ctx, m, id) <==> Said(log, ctx, n, id) || (Opens(ctx, n, r) && r.id == Some(id))
    {
      if k: nat :| Prompts(log, ctx, n, k, id) {
        assert Prompts(log, ctx, m, k, id);
      }
      if k: nat :| Says(log, ctx, n, k, id) {
        assert Says(log, ctx, m, k, id);
      }
      assert r.Prompt? && n !in ctx.taskRows && r.promptId == id ==> Prompts(log, ctx, m, n, id);
      assert Opens(ctx, n, r) && r.id == Some(id) ==> Says(log, ctx, m, n, id);
      if k: nat :| Prompts(log, ctx, m, k, id) {
        assert k == n || Prompts(log, ctx, n, k, id);
      }
      if k: nat :| Says(log, ctx, m, k, id) {
        assert k == n || Says(log, ctx, n, k, id);
      }
    }
    forall k: nat, id | Prompts(log, ctx, m, k, id) && id in next.prompts
      ensures next.prompts[id] == KimiThread.Asked(log[k].row.origin, log[k].row.input)
    {
      if k < n {
        assert Prompts(log, ctx, n, k, id) && Prompted(log, ctx, n, id);
      }
    }
    hide Prompted, Said, Prompts, Says, Opens;
    assert next.messages == {} <==> forall id :: id !in next.messages;
  }

  lemma AnnouncedNext(log: seq<Entry>, ctx: Context, n: nat)
    requires n < |log|
    ensures var r := log[n].row; var m := n + 1;
            && (forall k: nat :: Announces(log, ctx, m, k) ==>
                  (k == n && r.Prompt? && n in ctx.taskRows) || (Announces(log, ctx, n, k) &&
                    !IsTaskMessage(ctx, n, r)))
            && (Announced(log, ctx, m) <==>
                  (r.Prompt? && n in ctx.taskRows) || (Announced(log, ctx, n) && !IsTaskMessage(ctx, n, r)))
  {
    var r, m := log[n].row, n + 1;
    if r.Prompt? && n in ctx.taskRows {
      assert Announces(log, ctx, m, n);
    } else if Announced(log, ctx, n) && !IsTaskMessage(ctx, n, r) {
      var k: nat :| Announces(log, ctx, n, k);
      assert Announces(log, ctx, m, k);
    }
  }

  lemma ActiveNext(log: seq<Entry>, n: nat)
    requires n < |log|
    ensures var r := log[n].row; var m := n + 1;
            Active(log, m) <==> Wakes(r) || (Active(log, n) && !r.TurnEnded?)
  {
    var r, m := log[n].row, n + 1;
    if Wakes(r) {
      assert ActiveFrom(log, n, m);
    } else if Active(log, n) && !r.TurnEnded? {
      var k: nat :| ActiveFrom(log, k, n);
      assert ActiveFrom(log, k, m);
    }
    if Active(log, m) {
      var k: nat :| ActiveFrom(log, k, m);
      assert k == n || ActiveFrom(log, k, n);
    }
  }

  lemma TaskReadNext(log: seq<Entry>, ctx: Context, n: nat, t: Thread, next: Thread)
    requires n < |log| && TaskRead(log, ctx, n, t) && TaskMoves(t, next, ctx, n, log[n].row)
    ensures var m := n + 1; TaskRead(log, ctx, m, next)
  {
    var r, m := log[n].row, n + 1;
    AnnouncedNext(log, ctx, n);
    ActiveNext(log, n);
    forall uuid
      ensures Begun(log, m, uuid) <==> Begun(log, n, uuid) || (r.StepBegin? && r.uuid == uuid)
    {
      if k: nat :| Begins(log, n, k, uuid) {
        assert Begins(log, m, k, uuid);
      }
      assert r.StepBegin? && r.uuid == uuid ==> Begins(log, m, n, uuid);
      if k: nat :| Begins(log, m, k, uuid) {
        assert k == n || Begins(log, n, k, uuid);
      }
    }
    hide Begun, Announced, Announces, Active;
  }

  // ---------------------------------------------------------------- record keys

  /** Row `k` is recorded under this key. */
  predicate Keyed(log: seq<Entry>, ctx: Context, k: nat, key: Key)
    requires k < |log|
  {
    var r := log[k].row;
    match key
    case StateKey => false
    case LineKey(line) => line == k && !OwnKey(ctx, k, r)
    case PromptKey(id) => r.Prompt? && k !in ctx.taskRows && r.promptId == id
    case MessageKey(id) => Opens(ctx, k, r) && r.id == Some(id)
    case BeginKey(uuid) => r.StepBegin? && r.uuid == uuid
    case EndKey(uuid) => r.StepEnd? && r.uuid == uuid
    case ResultKey(step, callId) =>
      r.ToolResult? && r.callId == callId && exists b: nat | b < k :: StepFrom(log, b, k) && log[b].row.uuid == step
    case ContentKey(uuid) => r.Content? && r.uuid == uuid
    case CallKey(uuid) => r.ToolCall? && r.uuid == uuid
    case TaskPromptKey(notice) => r.Prompt? && k in ctx.taskRows && ctx.taskRows[k] == notice
    case TaskMessageKey(notice) => IsTaskMessage(ctx, k, r) && ctx.taskRows[k] == notice
  }

  predicate OwnKey(ctx: Context, i: nat, r: Row) {
    r.Prompt? || Opens(ctx, i, r) || r.StepBegin? || r.StepEnd? || r.ToolResult? || r.Content? || r.ToolCall?
    || IsTaskMessage(ctx, i, r)
  }

  ghost predicate Recorded(log: seq<Entry>, ctx: Context, n: nat, key: Key) {
    exists k: nat :: k < n && k < |log| && Keyed(log, ctx, k, key)
  }

  ghost predicate KeysRead(log: seq<Entry>, ctx: Context, n: nat, t: Thread) {
    forall key :: key in t.keys <==> (key == StateKey && !ctx.isChild) || Recorded(log, ctx, n, key)
  }

  /** The key of a row, given the open step. */
  function KeyOf(ctx: Context, i: nat, r: Row, step: Option<ModelStep>): Key {
    match r
    case Prompt(id, _, _, _) => if i in ctx.taskRows then TaskPromptKey(ctx.taskRows[i]) else PromptKey(id)
    case Message(id, _, _, _, _) =>
      if IsTaskMessage(ctx, i, r) then TaskMessageKey(ctx.taskRows[i])
      else if Opens(ctx, i, r) && id.Some? then MessageKey(id.value) else LineKey(i)
    case StepBegin(uuid, _, _) => BeginKey(uuid)
    case StepEnd(uuid, _, _, _, _) => EndKey(uuid)
    case ToolResult(callId, _, _, _) => ResultKey(if step.Some? then step.value.uuid else "", callId)
    case Content(uuid, _, _, _, _, _) => ContentKey(uuid)
    case ToolCall(uuid, _, _, _, _, _, _) => CallKey(uuid)
    case _ => LineKey(i)
  }

  lemma LoopKey(t: Thread, ctx: Context, i: nat, e: Entry)
    requires e.row.StepBegin? || e.row.StepEnd? || e.row.Content? || e.row.ToolCall? || e.row.ToolResult?
    requires Decide(t, ctx, i, e).Ok?
    ensures Decide(t, ctx, i, e).value.key == KeyOf(ctx, i, e.row, t.step)
    ensures Decide(t, ctx, i, e).value.t.keys == t.keys
    ensures e.row.ToolResult? ==> t.step.Some?
  {
    hide OnPrompt, OnMessage, OnRequest, OnUsage, OnCompaction, OnUndo;
  }

  lemma MessageKeyed(t: Thread, ctx: Context, i: nat, r: Row)
    requires r.Message? && OnMessage(t, ctx, i, r).Ok?
    ensures OnMessage(t, ctx, i, r).value.key == KeyOf(ctx, i, r, t.step) &&
            OnMessage(t, ctx, i, r).value.t.keys == t.keys
    ensures Opens(ctx, i, r) ==> r.id.Some?
  {
    hide UserParts;
  }

  lemma DecisionKey(t: Thread, ctx: Context, i: nat, e: Entry)
    requires Decide(t, ctx, i, e).Ok?
    ensures Decide(t, ctx, i, e).value.key == KeyOf(ctx, i, e.row, t.step)
    ensures Decide(t, ctx, i, e).value.t.keys == t.keys
    ensures e.row.ToolResult? ==> t.step.Some?
    ensures Opens(ctx, i, e.row) ==> e.row.id.Some?
  {
    hide OnMessage, OnStepBegin, OnStepEnd, OnContent, OnToolCall, OnToolResult, UndoAdmitted, EventsFrom, ClearFrom,
         VisibleBefore;
    if e.row.StepBegin? || e.row.StepEnd? || e.row.Content? || e.row.ToolCall? || e.row.ToolResult? {
      LoopKey(t, ctx, i, e);
    } else if e.row.Message? {
      MessageKeyed(t, ctx, i, e.row);
    }
  }

  /** The key of an accepted row is the one it is recorded under. */
  lemma KeyedAs(log: seq<Entry>, ctx: Context, n: nat, step: Option<ModelStep>, key: Key)
    requires n < |log| && StepRead(log, n, step)
    requires log[n].row.ToolResult? ==> step.Some?
    requires Opens(ctx, n, log[n].row) ==> log[n].row.id.Some?
    ensures Keyed(log, ctx, n, key) <==> key == KeyOf(ctx, n, log[n].row, step)
  {
    if step.Some? {
      var b: nat :| StepIs(log, b, n, step.value) && forall c: nat :: StepFrom(log, c, n) ==> c == b;
    }
    hide Asked, Called, Returned;
  }

  lemma KeysReadNext(log: seq<Entry>, ctx: Context, n: nat, t: Thread, next: Thread)
    requires n < |log| && KeysRead(log, ctx, n, t) && StepRead(log, n, t.step)
    requires log[n].row.ToolResult? ==> t.step.Some?
    requires Opens(ctx, n, log[n].row) ==> log[n].row.id.Some?
    requires next.keys == t.keys + {KeyOf(ctx, n, log[n].row, t.step)}
    ensures var m := n + 1; KeysRead(log, ctx, m, next)
  {
    hide StepRead, Opens, KeyOf, Keyed;
    var m := n + 1;
    forall key
      ensures Recorded(log, ctx, m, key) <==> Recorded(log, ctx, n, key) || key == KeyOf(ctx, n, log[n].row, t.step)
    {
      KeyedAs(log, ctx, n, t.step, key);
      if Keyed(log, ctx, n, key) {
        assert n < m && Keyed(log, ctx, n, key);
      }
    }
    hide Recorded;
  }

  // ---------------------------------------------------------------- turn marks

  /** How many user turns stand before row `n`. */
  function Height(log: seq<Entry>, ctx: Context, n: nat): int
    requires n <= |log|
  {
    if n == 0 then 0
    else
      var h := Height(log, ctx, n - 1);
      if Opens(ctx, n - 1, log[n - 1].row) then h + 1
      else if log[n - 1].row.Undo? then h - log[n - 1].row.count
      else h
  }

  /** The last row before `n` that applies a compaction; 0, if there is none. */
  function LastApplied(log: seq<Entry>, n: nat): nat
    requires n <= |log|
  {
    if n == 0 then 0 else if log[n - 1].row.ApplyCompaction? then n - 1 else LastApplied(log, n - 1)
  }

  ghost predicate MarksRead(log: seq<Entry>, ctx: Context, n: nat, t: Thread)
    requires n <= |log|
  {
    && |t.turns| == Height(log, ctx, n)
    && t.compactedThrough == LastApplied(log, n) && LastApplied(log, n) <= n
    && t.undoFloor == Height(log, ctx, LastApplied(log, n))
  }

  lemma MarksReadNext(log: seq<Entry>, ctx: Context, n: nat, t: Thread, next: Thread)
    requires n < |log| && MarksRead(log, ctx, n, t) && Moves(t, next, ctx, n, log[n].row)
    ensures MarksRead(log, ctx, n + 1, next)
  {
    var m := n + 1;
    assert LastApplied(log, m) == if log[n].row.ApplyCompaction? then n else LastApplied(log, n);
    assert Height(log, ctx, m) == |next.turns|;
  }

  // ---------------------------------------------------------------- the state after n rows

  ghost predicate Read(log: seq<Entry>, ctx: Context, n: nat, t: Thread)
    requires n <= |log|
  {
    && StepRead(log, n, t.step) && CompactionRead(log, n, t.compaction) && PromptsRead(log, ctx, n, t)
    && TaskRead(log, ctx, n, t) && KeysRead(log, ctx, n, t) && MarksRead(log, ctx, n, t)
    && (t.compaction.Some? ==> t.step.None?)
    && t.events <= ctx.eventLimit && t.usageCount <= ctx.usageLimit
    && (t.forkMarkers > 0 <==> Forks(log, n))
  }

  predicate Forks(log: seq<Entry>, n: nat) {
    exists k: nat | k < n :: k < |log| && log[k].row.Forked?
  }

  lemma BudgetsAfter(t: Thread, ctx: Context, i: nat, e: Entry)
    requires Step(t, ctx, i, e).Ok?
    ensures Step(t, ctx, i, e).value.events <= ctx.eventLimit && Step(t, ctx, i, e).value.usageCount <= ctx.usageLimit
    ensures Step(t, ctx, i, e).value.keys == t.keys + {KeyOf(ctx, i, e.row, t.step)}
    ensures KeyOf(ctx, i, e.row, t.step) !in t.keys
    ensures e.row.ToolResult? ==> t.step.Some?
    ensures Opens(ctx, i, e.row) ==> e.row.id.Some?
  {
    hide Decide, KeyOf, Opens;
    DecisionKey(t, ctx, i, e);
  }

  lemma ForksAfter(t: Thread, ctx: Context, i: nat, e: Entry)
    requires Step(t, ctx, i, e).Ok?
    ensures Step(t, ctx, i, e).value.forkMarkers == t.forkMarkers + if e.row.Forked? then 1 else 0
  {
    hide EventsFrom, ClearFrom, VisibleBefore, UndoAdmitted, UserParts;
  }

  lemma ReadNext(log: seq<Entry>, ctx: Context, n: nat, t: Thread, next: Thread)
    requires n < |log| && Inv(t) && Read(log, ctx, n, t) && Step(t, ctx, n, log[n]) == Ok(next)
    ensures Read(log, ctx, n + 1, next)
  {
    hide StepRead, CompactionRead, PromptsRead, TaskRead, KeysRead, MarksRead, Step, Inv, PromptsMove, TaskMoves,
         Moves, Opens, KeyOf;
    StepAfter(t, ctx, n, log[n]);
    StepReadNext(log, n, t.step);
    CompactionStateAfter(t, ctx, n, log[n]);
    CompactionReadNext(log, n, t.compaction);
    RowMoves(t, ctx, n, log[n]);
    PromptsReadNext(log, ctx, n, t, next);
    TaskReadNext(log, ctx, n, t, next);
    BudgetsAfter(t, ctx, n, log[n]);
    KeysReadNext(log, ctx, n, t, next);
    StepMoves(t, ctx, n, log[n]);
    MarksReadNext(log, ctx, n, t, next);
    ForksAfter(t, ctx, n, log[n]);
  }

  lemma StartRead(log: seq<Entry>, ctx: Context)
    requires Start(ctx).Ok?
    ensures Read(log, ctx, 0, Start(ctx).value)
  {
  }

  /** After every accepted prefix the machine's state is what the rows of the prefix say. */
  lemma {:induction false} StateIsRead(log: seq<Entry>, ctx: Context, n: nat)
    requires n <= |log| && Run(log, ctx, n).Ok?
    ensures Read(log, ctx, n, Run(log, ctx, n).value)
  {
    hide Step, Inv, Read, Start;
    if n == 0 {
      StartRead(log, ctx);
    } else {
      RunStep(log, ctx, n);
      StateIsRead(log, ctx, n - 1);
      RunInv(log, ctx, n - 1);
      ReadNext(log, ctx, n - 1, Run(log, ctx, n - 1).value, Run(log, ctx, n).value);
    }
  }

  // ---------------------------------------------------------------- the rows that may come next

  ghost predicate AnySaid(log: seq<Entry>, ctx: Context, n: nat) {
    exists id :: Said(log, ctx, n, id)
  }

  /** Nothing runs: no turn, no step, no compaction. */
  ghost predicate Idle(log: seq<Entry>, n: nat) {
    !Active(log, n) && !InStep(log, n) && !Compacting(log, n)
  }

  ghost predicate PromptFollows(log: seq<Entry>, ctx: Context, n: nat)
    requires n < |log| && log[n].row.Prompt?
  {
    var r := log[n].row;
    if n in ctx.taskRows then !ctx.isChild && Idle(log, n) && !Announced(log, ctx, n)
    else
      && !Active(log, n) && !Compacting(log, n) && !Prompted(log, ctx, n, r.promptId)
      && r.origin.kind == if ctx.isChild then FromSubagentTrigger else FromUser
  }

  /** A notification follows its announcement; a user message repeats its prompt, once. */
  ghost predicate MessageFollows(log: seq<Entry>, ctx: Context, n: nat)
    requires n < |log| && log[n].row.Message?
  {
    var r := log[n].row;
    if IsTaskMessage(ctx, n, r) then
      && !ctx.isChild && !InStep(log, n)
      && exists k: nat :: Announces(log, ctx, n, k) && ctx.taskRows[k] == ctx.taskRows[n]
    else if Opens(ctx, n, r) then
      && r.id.Some? && r.userRole && r.noToolCalls && r.content.Some? && !InStep(log, n) && !Compacting(log, n)
      && !Said(log, ctx, n, r.id.value)
      && exists k: nat :: Prompts(log, ctx, n, k, r.id.value)
                          && log[k].row.input == r.content && log[k].row.origin == r.origin
    else r.origin.kind.Injected?
  }

  /** A request is the first of its compaction, or else of its step. */
  ghost predicate RequestFollows(log: seq<Entry>, n: nat)
    requires n < |log| && log[n].row.Request?
  {
    var r := log[n].row;
    if Compacting(log, n) then
      r.kind == CompactionRequest && exists b: nat :: CompactionFrom(log, b, n) && !Asked(log, b, n)
    else
      r.kind == LoopRequest
      && exists b: nat :: StepFrom(log, b, n) && !Asked(log, b, n)
                          && r.stepOf == Some((log[b].row.turnId, log[b].row.number))
  }

  ghost predicate UsageFollows(log: seq<Entry>, n: nat)
    requires n < |log| && log[n].row.UsageRecord?
  {
    var r := log[n].row;
    Compacting(log, n) ==>
      && r.scope == SessionScope && r.usageOk
      && exists b: nat, k: nat :: CompactionFrom(log, b, n) && Asks(log, b, n, k) && log[k].row.alias == r.model
                                  && !Counted(log, b, n) && !Applied(log, b, n)
  }

  ghost predicate CompactionFollows(log: seq<Entry>, ctx: Context, n: nat)
    requires n < |log| && (IsCompactionRow(log[n].row) || log[n].row.ApplyCompaction?)
  {
    match log[n].row
    case CompactionBegin(manual) =>
      !InStep(log, n) && !Compacting(log, n) && Height(log, ctx, n) > 0 && !(manual && Active(log, n))
    case ApplyCompaction(start, end, shape) =>
      && shape && start == LastApplied(log, n) + 1 && end == n
      && exists b: nat :: CompactionFrom(log, b, n) && Asked(log, b, n) && !Applied(log, b, n)
    case CompactionComplete => exists b: nat :: CompactionFrom(log, b, n) && Applied(log, b, n)
  }

  /** Rows of the open step name it by turn and number. */
  ghost predicate LoopFollows(log: seq<Entry>, ctx: Context, n: nat)
    requires n < |log|
  {
    var r := log[n].row;
    match r
    case StepBegin(uuid, _, number) =>
      !Compacting(log, n) && !InStep(log, n) && !Begun(log, n, uuid) && AnySaid(log, ctx, n) && number >= 1
    case StepEnd(uuid, turnId, number, finishOk, usage) =>
      && finishOk
      && exists b: nat :: StepFrom(log, b, n) && log[b].row == StepBegin(uuid, turnId, number)
                          && (forall id :: Called(log, b, n, id) ==> Returned(log, b, n, id))
                          && (usage.Some? ==> Asked(log, b, n))
    case Content(_, step, turnId, number, _, _) =>
      exists b: nat :: StepFrom(log, b, n) && log[b].row == StepBegin(step, turnId, number)
    case ToolCall(uuid, step, turnId, number, callId, name, _) =>
      && name != "AgentSwarm" && (name == "Agent" ==> uuid in ctx.callChildren)
      && exists b: nat :: StepFrom(log, b, n) && log[b].row == StepBegin(step, turnId, number)
                          && !Called(log, b, n, callId)
    case ToolResult(callId, parentUuid, _, _) =>
      exists b: nat, k: nat :: StepFrom(log, b, n) && CallsAs(log, b, n, k, callId) && log[k].row.uuid == parentUuid
                               && !Returned(log, b, n, callId)
    case _ => true
  }

  /** The row fits what came before it. */
  ghost predicate Follows(log: seq<Entry>, ctx: Context, n: nat)
    requires n < |log|
  {
    var r := log[n].row;
    && log[n].agentOk && (r.Metadata? <==> n == 0) && !r.Broken? && LoopFollows(log, ctx, n)
    && (r.Prompt? ==> PromptFollows(log, ctx, n)) && (r.Message? ==> MessageFollows(log, ctx, n))
    && (r.Request? ==> RequestFollows(log, n)) && (r.UsageRecord? ==> UsageFollows(log, n))
    && (IsCompactionRow(r) || r.ApplyCompaction? ==> CompactionFollows(log, ctx, n))
    && (r.Forked? ==> ctx.forked && Idle(log, n) && AnySaid(log, ctx, n))
    && (r.Undo? ==>
          Idle(log, n) && 0 < r.count <= Height(log, ctx, n) - Height(log, ctx, Min(LastApplied(log, n), n)))
    && (r.TurnEnded? ==> r.completed && !InStep(log, n) && !Compacting(log, n) && !Announced(log, ctx, n))
  }

  /** The open step is one that row `b` begins, and no other. */
  lemma TheStep(log: seq<Entry>, n: nat, step: Option<ModelStep>) returns (b: nat)
    requires n <= |log| && StepRead(log, n, step)
    ensures InStep(log, n) <==> step.Some?
    ensures step.Some? ==> StepIs(log, b, n, step.value)
    ensures forall c: nat :: StepFrom(log, c, n) ==> step.Some? && c == b
  {
    if step.Some? {
      b :| StepIs(log, b, n, step.value) && forall c: nat :: StepFrom(log, c, n) ==> c == b;
    } else {
      b := 0;
    }
    hide Asked, Called, Returned;
  }

  lemma TheCompaction(log: seq<Entry>, n: nat, c: Option<Compaction>) returns (b: nat)
    requires n <= |log| && CompactionRead(log, n, c)
    ensures Compacting(log, n) <==> c.Some?
    ensures c.Some? ==> CompactionIs(log, b, n, c.value)
    ensures forall d: nat :: CompactionFrom(log, d, n) ==> c.Some? && d == b
  {
    if c.Some? {
      b :| CompactionIs(log, b, n, c.value) && forall d: nat :: CompactionFrom(log, d, n) ==> d == b;
    } else {
      b := 0;
    }
    hide Asked;
  }

  lemma LoopFollowsExactly(log: seq<Entry>, ctx: Context, n: nat, t: Thread)
    requires n < |log| && Read(log, ctx, n, t)
    requires var r := log[n].row; r.StepBegin? || r.StepEnd? || r.Content? || r.ToolCall? || r.ToolResult?
    ensures var r := log[n].row;
            (match r
             case StepBegin(_, _, _) => OnStepBegin(t, r).Ok?
             case StepEnd(_, _, _, _, _) => OnStepEnd(t, r).Ok?
             case Content(_, _, _, _, _, _) => OnContent(t, r).Ok?
             case ToolCall(_, _, _, _, _, _, _) => OnToolCall(t, ctx, r).Ok?
             case ToolResult(_, _, _, _) => OnToolResult(t, r).Ok?) <==> LoopFollows(log, ctx, n)
  {
    var b := TheStep(log, n, t.step);
    var d := TheCompaction(log, n, t.compaction);
    hide StepFrom, CompactionFrom, Asked, Called, Returned, Begun, Said, Prompted, InStep, Compacting, KeysRead;
    assert t.messages == {} <==> !AnySaid(log, ctx, n);
    if log[n].row.ToolResult? && t.step.Some? && log[n].row.callId in t.step.value.calls {
      var k := CalledAt(log, b, n, log[n].row.callId);
    }
    if t.step.Some? {
      StepRowOf(log, b, n);
    }
  }

  lemma CalledAt(log: seq<Entry>, b: nat, n: nat, id: string) returns (k: nat)
    requires Called(log, b, n, id)
    ensures CallsAs(log, b, n, k, id)
  {
    k :| CallsAs(log, b, n, k, id);
  }

  lemma StepRowOf(log: seq<Entry>, b: nat, n: nat)
    requires StepFrom(log, b, n)
    ensures b < n <= |log| && log[b].row == StepBegin(log[b].row.uuid, log[b].row.turnId, log[b].row.number)
  {
  }

  lemma PromptFollowsExactly(log: seq<Entry>, ctx: Context, n: nat, t: Thread)
    requires n < |log| && Read(log, ctx, n, t) && log[n].row.Prompt?
    ensures OnPrompt(t, ctx, n, log[n].row).Ok? <==> PromptFollows(log, ctx, n)
  {
    var b := TheStep(log, n, t.step);
    var d := TheCompaction(log, n, t.compaction);
    hide StepRead, CompactionRead, KeysRead, Active, Announced, Prompted, Said, InStep, Compacting;
  }

  lemma MessageFollowsExactly(log: seq<Entry>, ctx: Context, n: nat, t: Thread)
    requires n < |log| && Read(log, ctx, n, t) && log[n].row.Message?
    ensures OnMessage(t, ctx, n, log[n].row).Ok? <==> MessageFollows(log, ctx, n)
  {
    var r := log[n].row;
    var b := TheStep(log, n, t.step);
    var d := TheCompaction(log, n, t.compaction);
    hide StepRead, CompactionRead, KeysRead, Active, Said, InStep, Compacting, Prompts, Announces, UserParts;
    if Opens(ctx, n, r) && r.id.Some? && Prompted(log, ctx, n, r.id.value) {
      var k: nat :| Prompts(log, ctx, n, k, r.id.value);
    }
    if IsTaskMessage(ctx, n, r) && Announced(log, ctx, n) {
      var k: nat :| Announces(log, ctx, n, k);
    }
  }

  lemma RequestFollowsExactly(log: seq<Entry>, ctx: Context, n: nat, t: Thread)
    requires n < |log| && Read(log, ctx, n, t) && log[n].row.Request?
    ensures OnRequest(t, n, log[n].row).Ok? <==> RequestFollows(log, n)
  {
    var b := TheStep(log, n, t.step);
    var d := TheCompaction(log, n, t.compaction);
    hide StepRead, CompactionRead, KeysRead, TaskRead, PromptsRead, StepFrom, CompactionFrom, InStep, Compacting, Asked,
         Called, Returned;
  }

  lemma UsageFollowsExactly(log: seq<Entry>, ctx: Context, n: nat, t: Thread)
    requires n < |log| && Read(log, ctx, n, t) && log[n].row.UsageRecord?
    ensures OnUsage(t, n, log[n].row).Ok? <==> UsageFollows(log, n)
  {
    var d := TheCompaction(log, n, t.compaction);
    hide StepRead, CompactionRead, KeysRead, TaskRead, PromptsRead, CompactionFrom, Compacting, Counted, Applied;
    if t.compaction.Some? && Asked(log, d, n) {
      var k: nat :| Asks(log, d, n, k);
    }
  }

  lemma CompactionFollowsExactly(log: seq<Entry>, ctx: Context, n: nat, t: Thread)
    requires n < |log| && Read(log, ctx, n, t) && (IsCompactionRow(log[n].row) || log[n].row.ApplyCompaction?)
    ensures OnCompaction(t, n, log[n].row).Ok? <==> CompactionFollows(log, ctx, n)
  {
    var b := TheStep(log, n, t.step);
    var d := TheCompaction(log, n, t.compaction);
    hide StepRead, CompactionRead, KeysRead, PromptsRead, StepFrom, CompactionFrom, InStep, Compacting, Asked,
         Called, Returned, Counted, Applied, Active, Announced, Begun;
    assert |t.turns| == 0 <==> t.turns == [];
  }

  lemma RestFollowsExactly(log: seq<Entry>, ctx: Context, n: nat, t: Thread)
    requires n < |log| && Read(log, ctx, n, t)
    requires log[n].row.Forked? || log[n].row.Undo? || log[n].row.TurnEnded?
    ensures n > 0 && log[n].agentOk ==> (Decide(t, ctx, n, log[n]).Ok? <==> Follows(log, ctx, n))
  {
    var b := TheStep(log, n, t.step);
    var d := TheCompaction(log, n, t.compaction);
    hide StepRead, CompactionRead, KeysRead, StepFrom, CompactionFrom, InStep, Compacting, Begun, Active, Announced,
         Said, Prompted, VisibleBefore, EventsFrom, ClearFrom;
    assert t.messages == {} <==> !AnySaid(log, ctx, n);
  }

  lemma DecidedExactly(log: seq<Entry>, ctx: Context, n: nat, t: Thread)
    requires n < |log| && Read(log, ctx, n, t)
    ensures Decide(t, ctx, n, log[n]).Ok? <==> Follows(log, ctx, n)
  {
    hide Read, OnPrompt, OnMessage, OnRequest, OnUsage, OnCompaction, OnStepBegin, OnStepEnd, OnContent, OnToolCall,
         OnToolResult, PromptFollows, MessageFollows, RequestFollows, UsageFollows, CompactionFollows;
    var r := log[n].row;
    if log[n].agentOk && (r.Metadata? <==> n == 0) {
      if r.Forked? || r.Undo? || r.TurnEnded? {
        RestFollowsExactly(log, ctx, n, t);
      } else {
        match r
        case Prompt(_, _, _, _) => PromptFollowsExactly(log, ctx, n, t);
        case Message(_, _, _, _, _) => MessageFollowsExactly(log, ctx, n, t);
        case Request(_, _, _, _) => RequestFollowsExactly(log, ctx, n, t);
        case UsageRecord(_, _, _, _) => UsageFollowsExactly(log, ctx, n, t);
        case CompactionBegin(_) => CompactionFollowsExactly(log, ctx, n, t);
        case ApplyCompaction(_, _, _) => CompactionFollowsExactly(log, ctx, n, t);
        case CompactionComplete => CompactionFollowsExactly(log, ctx, n, t);
        case StepBegin(_, _, _) => LoopFollowsExactly(log, ctx, n, t);
        case StepEnd(_, _, _, _, _) => LoopFollowsExactly(log, ctx, n, t);
        case Content(_, _, _, _, _, _) => LoopFollowsExactly(log, ctx, n, t);
        case ToolCall(_, _, _, _, _, _, _) => LoopFollowsExactly(log, ctx, n, t);
        case ToolResult(_, _, _, _) => LoopFollowsExactly(log, ctx, n, t);
        case _ =>
      }
    }
  }

  /** A row is accepted behind an accepted prefix exactly if it follows it, its record key is new
    * and its events and samples fit the budgets. */
  lemma RowAcceptedExactly(log: seq<Entry>, ctx: Context, n: nat)
    requires n < |log| && Run(log, ctx, n).Ok?
    ensures var t := Run(log, ctx, n).value;
            Run(log, ctx, n + 1).Ok? <==>
            && Follows(log, ctx, n)
            && (forall key :: Keyed(log, ctx, n, key) ==> !Recorded(log, ctx, n, key))
            && t.events + EventsOf(ctx, n, log[n].row) <= ctx.eventLimit && EventsOf(ctx, n, log[n].row) <= FrameItems
            && t.usageCount + Sampled(log[n].row, Compacting(log, n)) <= ctx.usageLimit
  {
    var t, e := Run(log, ctx, n).value, log[n];
    StateIsRead(log, ctx, n);
    RunInv(log, ctx, n);
    DecidedExactly(log, ctx, n, t);
    var d := TheCompaction(log, n, t.compaction);
    hide Run, Decide, Follows, Keyed, EventsOf, Opens, KeyOf, Compacting;
    if Decide(t, ctx, n, e).Ok? {
      DecisionKey(t, ctx, n, e);
      DecisionEvents(t, ctx, n, e);
      DecisionSamples(t, ctx, n, e);
      DecisionReady(t, ctx, n, e);
      DecisionBudget(t, ctx, n, e);
      var key := KeyOf(ctx, n, e.row, t.step);
      forall k
        ensures Keyed(log, ctx, n, k) <==> k == key
      {
        KeyedAs(log, ctx, n, t.step, k);
      }
      assert key != StateKey by { hide *; KeyIsNotState(ctx, n, e.row, t.step); }
    }
  }

  lemma KeyIsNotState(ctx: Context, i: nat, r: Row, step: Option<ModelStep>)
    ensures KeyOf(ctx, i, r, step) != StateKey
  {
  }

  lemma DecisionBudget(t: Thread, ctx: Context, i: nat, e: Entry)
    requires Decide(t, ctx, i, e).Ok?
    ensures Decide(t, ctx, i, e).value.t.events <= t.events
    ensures !e.row.Undo? ==> Decide(t, ctx, i, e).value.t.events == t.events
    ensures e.row.Undo? ==> EventsOf(ctx, i, e.row) == 0
  {
    hide UndoAdmitted, ClearFrom, VisibleBefore, EventsFrom, UserParts;
  }

  lemma MessageHasPrompt(log: seq<Entry>, ctx: Context, k: nat)
    requires k < |log| && Follows(log, ctx, k) && Opens(ctx, k, log[k].row)
    ensures log[k].row.id.Some? && Prompted(log, ctx, k, log[k].row.id.value)
  {
    hide LoopFollows, CompactionFollows, UsageFollows, RequestFollows;
  }

  lemma PromptedLater(log: seq<Entry>, ctx: Context, k: nat, n: nat, id: string)
    requires k <= n <= |log| && Prompted(log, ctx, k, id)
    ensures Prompted(log, ctx, n, id)
  {
    var j: nat :| Prompts(log, ctx, k, j, id);
    assert Prompts(log, ctx, n, j, id);
  }

  lemma SaidWasPrompted(log: seq<Entry>, ctx: Context, n: nat, id: string)
    requires n <= |log| && Run(log, ctx, n).Ok? && Said(log, ctx, n, id)
    ensures Prompted(log, ctx, n, id)
  {
    hide Run, Opens, Follows, Keyed, EventsOf, Prompted, Sampled, Recorded;
    var k: nat :| Says(log, ctx, n, k, id);
    UsageSurvives(log, ctx, k + 1, n);
    UsageSurvives(log, ctx, k, n);
    RowAcceptedExactly(log, ctx, k);
    MessageHasPrompt(log, ctx, k);
    PromptedLater(log, ctx, k, n, id);
  }

  lemma SubsetSize(a: set<string>, b: set<string>)
    requires a <= b
    ensures |a| <= |b| && (|a| == |b| <==> a == b)
  {
    assert b == a + (b - a);
  }

  /** A log whose rows are accepted is accepted as a whole exactly if nothing is left open, every
    * prompt has its message and there is one, and a forked session has its fork marker. */
  lemma LogAcceptedExactly(log: seq<Entry>, ctx: Context)
    requires log != [] && Run(log, ctx, |log|).Ok?
    ensures var n := |log|;
            Accepted(log, ctx) <==>
            && !InStep(log, n) && !Compacting(log, n) && !Announced(log, ctx, n) && AnySaid(log, ctx, n)
            && (forall id :: Prompted(log, ctx, n, id) ==> Said(log, ctx, n, id))
            && (ctx.forked ==> Forks(log, n))
  {
    var n := |log|;
    var t := Run(log, ctx, n).value;
    StateIsRead(log, ctx, n);
    var b := TheStep(log, n, t.step);
    var d := TheCompaction(log, n, t.compaction);
    hide Run, StepRead, CompactionRead, KeysRead, MarksRead, Said, Prompted, Announced, Active, InStep, Compacting;
    assert t.messages == {} <==> !AnySaid(log, ctx, n);
    forall id | id in t.messages
      ensures id in t.prompts.Keys
    {
      SaidWasPrompted(log, ctx, n, id);
    }
    SubsetSize(t.messages, t.prompts.Keys);
    assert |t.prompts| == |t.prompts.Keys|;
    assert t.messages == t.prompts.Keys <==> forall id :: id in t.prompts ==> id in t.messages;
  }
}
