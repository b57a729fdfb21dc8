/** `projectThread`: the state machine that turns one Kimi wire log into frames. */
module KimiThread {
  import opened Base
  import opened KimiRows
  import FamilyOrder

  type Event = FamilyOrder.Event

  /** Record keys; the source hashes them, which is taken to be injective. */
  datatype Key =
    | StateKey | LineKey(line: nat) | PromptKey(id: string) | MessageKey(id: string) | BeginKey(uuid: string)
    | EndKey(uuid: string) | ResultKey(step: string, callId: string) | ContentKey(uuid: string) | CallKey(uuid: string)
    | TaskPromptKey(notice: string) | TaskMessageKey(notice: string)

  datatype Frame = Frame(key: Key, events: seq<Event>, usage: nat)

  datatype ToolUse = ToolUse(uuid: string, name: string, done: bool)

  datatype ModelStep = ModelStep(uuid: string, turnId: string, number: nat, model: Option<string>,
                                 calls: map<string, ToolUse>)

  datatype Compaction = Compaction(line: nat, model: Option<string>, alias: string, used: bool, applied: bool)

  datatype Asked = Asked(origin: Origin, input: Option<seq<Part>>)

  /** The mutable locals of `projectThread`. */
  datatype Thread = Thread(
    frames: seq<Frame>, keys: set<Key>, turnsForCalls: seq<seq<Frame>>,
    prompts: map<string, Asked>, messages: set<string>, steps: set<string>,
    events: nat, usageCount: nat, active: bool, step: Option<ModelStep>,
    turns: seq<nat>, visible: seq<nat>, undoFloor: nat, compactedThrough: nat,
    forkMarkers: nat, taskPrompt: Option<string>, compaction: Option<Compaction>)

  /** What the machine is told from outside: `isChild`, the Agent calls of this thread with
    * their children, the rows the background protocol accepted, and the budgets. */
  datatype Context = Context(isChild: bool, callChildren: map<string, string>, taskRows: map<nat, string>, forked: bool,
                             eventLimit: nat, usageLimit: nat)

  const FrameItems := 500

  const EmptyThread :=
    Thread([], {}, [[]], map[], {}, {}, 0, 0, false, None, [], [], 0, 0, 0, None, None)

  /** A row's contribution: the new state, its record key, what it emits, its usage samples. */
  datatype Effect = Effect(t: Thread, key: Key, output: seq<Option<string>>, usage: nat)

  function Emitted(line: nat, from: nat, output: seq<Option<string>>): (r: seq<Event>)
    ensures |r| == |output|
    ensures forall k :: 0 <= k < |output| ==> r[k] == FamilyOrder.Event(line, k, from + k, output[k])
  {
    seq(|output|, k requires 0 <= k < |output| => FamilyOrder.Event(line, k, from + k, output[k]))
  }

  /** `add`: admits one frame. */
  function Add(t: Thread, ctx: Context, line: nat, key: Key, output: seq<Option<string>>, usage: nat): Result<Thread>
    requires |t.turnsForCalls| > 0
  {
    var events := t.events + |output|;
    var samples := t.usageCount + usage;
    if key in t.keys then Err(Unsupported)
    else if events > ctx.eventLimit || samples > ctx.usageLimit || |output| > FrameItems then Err(Limit)
    else
      var frame := Frame(key, Emitted(line, t.events, output), usage);
      var last := |t.turnsForCalls| - 1;
      Ok(t.(frames := t.frames + [frame], keys := t.keys + {key},
            turnsForCalls := t.turnsForCalls[last := t.turnsForCalls[last] + [frame]],
            visible := if output != [] then t.visible + [|t.frames|] else t.visible,
            events := events, usageCount := samples))
  }

  function Quiet(t: Thread, i: nat): Result<Effect> {
    Ok(Effect(t, LineKey(i), [], 0))
  }

  // ---------------------------------------------------------------- one function per row kind

  function OnPrompt(t: Thread, ctx: Context, i: nat, r: Row): Result<Effect>
    requires r.Prompt?
  {
    if i in ctx.taskRows then
      if ctx.isChild || t.active || t.step.Some? || t.compaction.Some? || t.taskPrompt.Some? then Err(Unsupported)
      else Ok(Effect(t.(taskPrompt := Some(ctx.taskRows[i]), active := true), TaskPromptKey(ctx.taskRows[i]), [], 0))
    else if t.active || t.compaction.Some? || r.promptId in t.prompts
            || (if ctx.isChild then r.origin.kind != FromSubagentTrigger
                else r.origin.kind != FromUser) then Err(Unsupported)
    else Ok(Effect(t.(prompts := t.prompts[r.promptId := Asked(r.origin, r.input)], active := true),
                   PromptKey(r.promptId), [], 0))
  }

  /** The nonempty text parts of a user message, one event each. */
  function UserParts(parts: seq<Part>): seq<Option<string>> {
    if parts == [] then []
    else (if parts[0].TextPart? && parts[0].text != "" then [None] else []) + UserParts(parts[1..])
  }

  predicate IsUserMessage(r: Row, ctx: Context)
    requires r.Message?
  {
    if ctx.isChild then r.origin.kind == FromSubagentTrigger else r.origin.kind == FromUser
  }

  function OnUserMessage(t: Thread, ctx: Context, r: Row): Result<Effect>
    requires r.Message?
  {
    if r.id.None? || t.step.Some? || t.compaction.Some? || r.id.value !in t.prompts || r.id.value in t.messages
       || !r.userRole || !r.noToolCalls || r.content.None?
       || r.content != t.prompts[r.id.value].input || r.origin != t.prompts[r.id.value].origin then Err(Unsupported)
    else
      Ok(Effect(t.(turnsForCalls := if ctx.isChild && t.messages != {} then t.turnsForCalls + [[]] else t.turnsForCalls,
                   messages := t.messages + {r.id.value}, turns := t.turns + [|t.frames|]),
                MessageKey(r.id.value), UserParts(r.content.value), 0))
  }

  function OnMessage(t: Thread, ctx: Context, i: nat, r: Row): Result<Effect>
    requires r.Message?
  {
    if r.origin.kind.FromTask? && i in ctx.taskRows then
      if ctx.isChild || t.step.Some? || t.taskPrompt != Some(ctx.taskRows[i]) then Err(Format)
      else Ok(Effect(t.(taskPrompt := None), TaskMessageKey(ctx.taskRows[i]), [], 0))
    else if IsUserMessage(r, ctx) then OnUserMessage(t, ctx, r)
    else if r.origin.kind.Injected? then Quiet(t, i)
    else Err(Unsupported)
  }

  function OnRequest(t: Thread, i: nat, r: Row): Result<Effect>
    requires r.Request?
  {
    if t.compaction.Some? then
      if r.kind != CompactionRequest || t.compaction.value.model.Some? then Err(Unsupported)
      else Quiet(t.(compaction := Some(t.compaction.value.(model := Some(r.model), alias := r.alias))), i)
    else if t.step.None? || r.kind != LoopRequest || r.stepOf != Some((t.step.value.turnId, t.step.value.number))
            || t.step.value.model.Some? then Err(Unsupported)
    else Quiet(t.(step := Some(t.step.value.(model := Some(r.model)))), i)
  }

  function OnUsage(t: Thread, i: nat, r: Row): Result<Effect>
    requires r.UsageRecord?
  {
    if t.compaction.None? then Quiet(t, i)
    else
      var c := t.compaction.value;
      if c.model.None? || c.used || c.applied || r.scope != SessionScope || r.model != c.alias then Err(Unsupported)
      else if !r.usageOk then Err(Format)
      else Ok(Effect(t.(compaction := Some(c.(used := true))), LineKey(i), [], if r.counted then 1 else 0))
  }

  function OnCompaction(t: Thread, i: nat, r: Row): Result<Effect>
    requires IsCompactionRow(r) || r.ApplyCompaction?
  {
    match r
    case CompactionBegin(manual) =>
      if t.step.Some? || t.compaction.Some? || t.turns == [] || (manual && t.active) then Err(Unsupported)
      else Quiet(t.(compaction := Some(Compaction(i, None, "", false, false))), i)
    case ApplyCompaction(start, end, shape) =>
      if t.compaction.None? || t.compaction.value.model.None? || t.compaction.value.applied
         || start != t.compactedThrough + 1 || end != i || !shape then Err(Unsupported)
      else Quiet(t.(compaction := Some(t.compaction.value.(applied := true)), compactedThrough := i,
                    undoFloor := |t.turns|), i)
    case CompactionComplete =>
      if t.compaction.None? || !t.compaction.value.applied then Err(Format) else Quiet(t.(compaction := None), i)
  }

  /** Frames from `start` on lose their events and keep everything else. */
  function ClearFrom(frames: seq<Frame>, start: nat): (r: seq<Frame>)
    ensures |r| == |frames|
    ensures forall k :: 0 <= k < |frames| ==> r[k] == if k < start then frames[k] else frames[k].(events := [])
  {
    seq(|frames|, k requires 0 <= k < |frames| => if k < start then frames[k] else frames[k].(events := []))
  }

  function EventsFrom(frames: seq<Frame>, start: nat): nat
    requires start <= |frames|
    decreases |frames| - start
  {
    if start == |frames| then 0 else |frames[start].events| + EventsFrom(frames, start + 1)
  }

  /** The visible frames before `start`. */
  function VisibleBefore(visible: seq<nat>, start: nat): seq<nat> {
    if visible == [] then []
    else if visible[|visible| - 1] >= start then VisibleBefore(visible[..|visible| - 1], start)
    else visible
  }

  predicate UndoAdmitted(t: Thread, count: nat) {
    !(t.active || t.step.Some? || t.compaction.Some? || count == 0 || count > |t.turns| - t.undoFloor)
  }

  /** Undo drops the last `count` turns and the events of every frame since the first of them. */
  function OnUndo(t: Thread, i: nat, r: Row): Result<Effect>
    requires r.Undo?
  {
    if !UndoAdmitted(t, r.count) then Err(Unsupported)
    else
      var keep := |t.turns| - r.count;
      var start := t.turns[keep];
      var removed := if start <= |t.frames| then EventsFrom(t.frames, start) else 0;
      Quiet(t.(turns := t.turns[..keep], visible := VisibleBefore(t.visible, start),
               frames := ClearFrom(t.frames, start),
               events := if removed <= t.events then t.events - removed else 0), i)
  }

  function OnStepBegin(t: Thread, r: Row): Result<Effect>
    requires r.StepBegin?
  {
    if t.compaction.Some? || t.step.Some? || r.uuid in t.steps || t.messages == {} || r.number < 1 then Err(Unsupported)
    else Ok(Effect(t.(steps := t.steps + {r.uuid}, step := Some(ModelStep(r.uuid, r.turnId, r.number, None, map[])),
                      active := true), BeginKey(r.uuid), [], 0))
  }

  predicate SameStep(s: ModelStep, turnId: string, number: nat) {
    s.turnId == turnId && s.number == number
  }

  function OnStepEnd(t: Thread, r: Row): Result<Effect>
    requires r.StepEnd?
  {
    if t.compaction.Some? || t.step.None? then Err(Format)
    else
      var s := t.step.value;
      if !SameStep(s, r.turnId, r.number) || r.uuid != s.uuid || (exists c :: c in s.calls && !s.calls[c].done) then
        Err(Format)
      else if !r.finishOk then Err(Unsupported)
      else if r.usage.Some? && s.model.None? then Err(Format)
      else Ok(Effect(t.(step := None), EndKey(s.uuid), [], if r.usage == Some(true) then 1 else 0))
  }

  function OnContent(t: Thread, r: Row): Result<Effect>
    requires r.Content?
  {
    if t.compaction.Some? || t.step.None? || !SameStep(t.step.value, r.turnId, r.number)
      || r.stepUuid != t.step.value.uuid
    then Err(Format)
    else Ok(Effect(t, ContentKey(r.uuid), if r.shown then [None] else [], 0))
  }

  function OnToolCall(t: Thread, ctx: Context, r: Row): Result<Effect>
    requires r.ToolCall?
  {
    if t.compaction.Some? || t.step.None? || !SameStep(t.step.value, r.turnId, r.number)
      || r.stepUuid != t.step.value.uuid
    then Err(Format)
    else if r.name == "AgentSwarm" || (r.name == "Agent" && r.uuid !in ctx.callChildren) then Err(Unsupported)
    else if r.callId in t.step.value.calls then Err(Format)
    else
      var s := t.step.value;
      Ok(Effect(t.(step := Some(s.(calls := s.calls[r.callId := ToolUse(r.uuid, r.name, false)]))), CallKey(r.uuid),
                [if r.uuid in ctx.callChildren then Some(ctx.callChildren[r.uuid]) else None], 0))
  }

  function OnToolResult(t: Thread, r: Row): Result<Effect>
    requires r.ToolResult?
  {
    if t.compaction.Some? || t.step.None? then Err(Format)
    else
      var s := t.step.value;
      if r.callId !in s.calls || s.calls[r.callId].done || s.calls[r.callId].uuid != r.parentUuid then Err(Format)
      else Ok(Effect(t.(step := Some(s.(calls := s.calls[r.callId := s.calls[r.callId].(done := true)]))),
                     ResultKey(s.uuid, r.callId), [None], 0))
  }

  /** The decision for one row. */
  function Decide(t: Thread, ctx: Context, i: nat, e: Entry): Result<Effect> {
    if !e.agentOk || (e.row.Metadata? && i != 0) || (i == 0 && !e.row.Metadata?) then Err(Unsupported)
    else match e.row
      case Metadata => Quiet(t, i)
      case Prompt(_, _, _, _) => OnPrompt(t, ctx, i, e.row)
      case Message(_, _, _, _, _) => OnMessage(t, ctx, i, e.row)
      case Forked =>
        if !ctx.forked || t.active || t.step.Some? || t.compaction.Some? || t.messages == {} then Err(Unsupported)
        else Quiet(t.(forkMarkers := t.forkMarkers + 1), i)
      case Request(_, _, _, _) => OnRequest(t, i, e.row)
      case UsageRecord(_, _, _, _) => OnUsage(t, i, e.row)
      case CompactionBegin(_) => OnCompaction(t, i, e.row)
      case ApplyCompaction(_, _, _) => OnCompaction(t, i, e.row)
      case CompactionComplete => OnCompaction(t, i, e.row)
      case Undo(_) => OnUndo(t, i, e.row)
      case StepBegin(_, _, _) => OnStepBegin(t, e.row)
      case StepEnd(_, _, _, _, _) => OnStepEnd(t, e.row)
      case Content(_, _, _, _, _, _) => OnContent(t, e.row)
      case ToolCall(_, _, _, _, _, _, _) => OnToolCall(t, ctx, e.row)
      case ToolResult(_, _, _, _) => OnToolResult(t, e.row)
      case TurnEnded(completed) =>
        if t.step.Some? || t.compaction.Some? || t.taskPrompt.Some? then Err(Format)
        else if !completed then Err(Unsupported)
        else Quiet(t.(active := false), i)
      case TaskStarted(_, _, _) => Quiet(t, i)
      case TaskTerminated(_, _, _, _, _) => Quiet(t, i)
      case RawOnly => Quiet(t, i)
      case Unknown => Quiet(t, i)
      case Broken => Err(Format)
  }

  /** One row: decide, then admit its frame. */
  function Step(t: Thread, ctx: Context, i: nat, e: Entry): Result<Thread> {
    var effect :- Decide(t, ctx, i, e);
    if |effect.t.turnsForCalls| == 0 then Err(Format)
    else Add(effect.t, ctx, i, effect.key, effect.output, effect.usage)
  }

  /** The state before the first row; the root thread starts with its session-state frame. */
  function Start(ctx: Context): Result<Thread> {
    if ctx.isChild then Ok(EmptyThread) else Add(EmptyThread, ctx, 0, StateKey, [], 0)
  }

  /** The state after the first `n` rows. */
  function Run(log: seq<Entry>, ctx: Context, n: nat): Result<Thread>
    requires n <= |log|
  {
    if n == 0 then Start(ctx)
    else var before :- Run(log, ctx, n - 1);
         Step(before, ctx, n - 1, log[n - 1])
  }

  /** A log is accepted when every row is and nothing is left open. */
  predicate Accepted(log: seq<Entry>, ctx: Context) {
    && log != [] && Run(log, ctx, |log|).Ok?
    && var t := Run(log, ctx, |log|).value;
       && t.step.None? && t.compaction.None? && t.taskPrompt.None?
       && |t.messages| == |t.prompts| && t.messages != {}
       && (ctx.forked ==> t.forkMarkers > 0)
  }
}
