/** One CodeBuddy thread: the parent chain, the compaction states, tool calls, response usage and
  * the cut of a delegated thread into turns. */
module CodeBuddyThread {
  import opened Base
  import opened CodeBuddyRows
  import CodeBuddyRecords
  import FamilyOrder

  type Frame = FamilyOrder.Frame

  /** What the projection knows of a delegated thread before it starts. */
  datatype Delegate = Delegate(id: string, native: string, agent: string, background: bool,
                               prompts: map<string, string>)

  /** `events` and `usage` are what is left of the family's budgets. */
  datatype Context = Context(sourceId: string, forkedFrom: Option<string>, child: Option<Delegate>,
                             notices: set<string>, callChildren: map<string, Option<string>>, events: nat, usage: nat)
  {
    function ThreadId(): string {
      if child.Some? then child.value.id else sourceId
    }

    function Native(): string {
      if child.Some? then child.value.native else sourceId
    }
  }

  /** An emergency compaction still owes its continuation input, or the response to it. */
  datatype Phase = Settled | Continue | Response

  datatype Thread = Thread(previous: Option<string>, native: Option<string>, ownUser: bool, manual: bool,
                           emergency: Phase,
                           intent: Option<string>, calls: map<string, string>, usages: map<string, (string, string)>,
                           events: nat, userTurns: nat, frames: seq<Frame>, turns: seq<seq<Frame>>)

  function Start(): Thread {
    Thread(None, None, false, false, Settled, None, map[], map[], 0, 0, [], [[]])
  }

  // ---------------------------------------------------------------- compaction states

  /** What a row is to the compaction states. */
  datatype Class = Class(context: bool, command: Option<string>, manual: bool, emergency: Phase)

  /** The continuation that an emergency summary must be followed by. */
  function ContinueText(delegated: bool, intent: Option<string>): string {
    if delegated && intent.Some? && intent.value != "" then
      "Please continue based on the summarized context above. Your original task was: \""
      + (if |intent.value| > 200 then intent.value[..200] + "..." else intent.value)
      + "\" Maintain the same approach and level of detail."
    else
      "Please continue with the conversation based on the summarized context above. "
      + "Maintain the same level of detail and helpfulness as before the summarization."
  }

  predicate ContinueFits(t: Thread, ctx: Context, r: Record) {
    && r.ContextShape() && r.Says(ContinueText(ctx.child.Some?, t.intent))
    && r.facts.summary.Unset? && r.facts.compacted.Unset? && r.facts.compact.NoCompact?
  }

  predicate EmergencyFits(t: Thread, ctx: Context, r: Record) {
    && !(ctx.child.Some? && ctx.child.value.background) && t.previous.Some? && !t.manual && t.emergency.Settled?
    && r.ContextShape() && r.facts.summary.Yes? && r.facts.compacted.Yes? && r.facts.wording.history
  }

  predicate AutomaticFits(ctx: Context, r: Record) {
    && ctx.child.None? && r.facts.compact.PreMessageAuto? && r.ContextShape()
    && r.facts.compacted.Yes? && r.facts.summary.No? && r.facts.wording.framework
  }

  predicate ByCompactAgent(r: Record) {
    r.facts.agent == Some("compact")
  }

  /** The user's explicit compaction: its command, its reasoning, its summary. */
  function ClassifyManual(t: Thread, r: Record): Result<Class> {
    var f := r.facts;
    if !t.manual && r.UserMessage() && !r.Marked() then
      if r.Only().Some? && r.Only().value.kind.InputText? && f.wording.command.Some? && t.previous.Some? then
        Ok(Class(false, f.wording.command, true, t.emergency))
      else Err(Unsupported)
    else if t.manual && r.kind.Reasoning? && !r.Marked() then Ok(Class(false, None, true, t.emergency))
    else if t.manual && r.kind.Message? && f.role.Assistant? && f.internal.Yes? && f.summary.Yes? && f.compacted.Yes?
            && f.compact.UserCommand? then
      if !f.completed then Err(Format)
      else if r.Only().Some? && r.Only().value.kind.OutputText? && f.wording.history && f.wording.inner then
        Ok(Class(false, None, false, t.emergency))
      else Err(Unsupported)
    else Err(Unsupported)
  }

  function Classify(t: Thread, ctx: Context, r: Record): Result<Class> {
    if ctx.child.Some? && ByCompactAgent(r) then Err(Unsupported)
    else if t.emergency.Response? && r.UserMessage() then Err(Unsupported)
    else if t.emergency.Continue? then
      if ContinueFits(t, ctx, r) then Ok(Class(true, None, t.manual, Response)) else Err(Unsupported)
    else if r.facts.compact.EmergencyAuto? then
      if EmergencyFits(t, ctx, r) then Ok(Class(true, None, t.manual, Continue)) else Err(Unsupported)
    else if ByCompactAgent(r) then ClassifyManual(t, r)
    else if t.manual && !r.facts.fileSnapshot then Err(Unsupported)
    else if r.Marked() then
      if AutomaticFits(ctx, r) then Ok(Class(true, None, t.manual, t.emergency)) else Err(Unsupported)
    else Ok(Class(false, None, t.manual, t.emergency))
  }

  // ---------------------------------------------------------------- the parent chain

  predicate ForeignSession(t: Thread, ctx: Context, session: string) {
    if ctx.child.Some? then session != ctx.child.value.native
    else
      || (ctx.forkedFrom.None? && session != ctx.sourceId) || "agent-" <= session
      || (t.ownUser && session != ctx.sourceId && Some(session) != ctx.forkedFrom)
  }

  predicate ForeignAgent(ctx: Context, r: Record) {
    && r.facts.agent.Some? && !ByCompactAgent(r)
    && r.facts.agent.value != (if ctx.child.Some? then ctx.child.value.agent else "cli")
  }

  /** The link to the row before it: internal inputs hang on their logical parent. */
  function Up(r: Record, context: bool): Option<string> {
    if context then r.facts.logical else r.facts.parent
  }

  function Chain(t: Thread, ctx: Context, c: Class, e: Entry): Result<Thread> {
    var r, f := e.record, e.record.facts;
    if (f.logical.Some? && !c.context) || f.branching then Err(Unsupported)
    else if r.Projected() then
      if f.session.None? || f.session.value == "" then Err(Format)
      else if ForeignSession(t, ctx, f.session.value) then Err(Unsupported)
      else if t.native != f.session && !r.UserMessage() then Err(Unsupported)
      else if !e.sibling && Up(r, c.context) != t.previous then Err(Unsupported)
      else if ForeignAgent(ctx, r) then Err(Unsupported)
      else Ok(t.(native := f.session, previous := Some(r.id), manual := c.manual, emergency := c.emergency))
    else if f.parent.Some? then Err(Unsupported)
    else if f.session.Some? && f.session != t.native then Err(Unsupported)
    else Ok(t.(manual := c.manual, emergency := c.emergency))
  }

  const LAST_INSTANT := 8_640_000_000_000_000

  predicate Timed(r: Record) {
    r.facts.time.Some? && 0 <= r.facts.time.value <= LAST_INSTANT
  }

  // ---------------------------------------------------------------- events

  /** A place in a row where an event comes from, and the child it delegates to. */
  datatype Slot = Slot(part: nat, child: Option<string>)

  /** The text blocks that are not empty; `text` replaces what they say. */
  function Shown(blocks: seq<Block>, from: nat, text: Option<string>): Result<seq<Slot>>
    decreases |blocks|
  {
    if blocks == [] then Ok([])
    else
      var b := blocks[0];
      if b.kind.OtherBlock? then Shown(blocks[1..], from + 1, text)
      else
        var said := if text.Some? then text else b.text;
        if said.None? then Err(Format)
        else
          var rest :- Shown(blocks[1..], from + 1, text);
          Ok((if said.value != "" then [Slot(from, None)] else []) + rest)
  }

  function Blocks(ctx: Context, c: Class, r: Record): Result<seq<Slot>> {
    if r.facts.content.None? then Err(Format)
    else
      var delegated :=
        if ctx.child.Some? && r.id in ctx.child.value.prompts then Some(ctx.child.value.prompts[r.id]) else None;
      Shown(r.facts.content.value, 0, if c.command.Some? then c.command else delegated)
  }

  datatype Emission = Emission(t: Thread, slots: seq<Slot>)

  /** Rows that only carry context or a notification show nothing. */
  predicate Silent(ctx: Context, c: Class, r: Record) {
    c.context || (ctx.child.None? && r.id in ctx.notices)
  }

  function EmitMessage(t: Thread, ctx: Context, c: Class, r: Record): Result<Emission> {
    if r.facts.role.OtherRole? then Err(Unsupported)
    else
      var silent := Silent(ctx, c, r);
      var slots :- if silent then Ok([]) else Blocks(ctx, c, r);
      var seen := t.(ownUser := t.ownUser || (r.UserMessage() && r.facts.session == Some(ctx.Native())));
      if silent then Ok(Emission(seen, slots))
      else
        var done := if r.AssistantDone() then seen.(emergency := Settled) else seen;
        if ctx.child.Some? && r.UserMessage() then
          if r.facts.content == Some([]) || r.facts.content.value[0].text.None? then Err(Format)
          else Ok(Emission(done.(intent := r.facts.content.value[0].text), slots))
        else Ok(Emission(done, slots))
  }

  /** The child that a call delegates to. */
  function LinkOf(links: map<string, Option<string>>, r: Record): Option<string> {
    if r.kind.FunctionCall? && r.callId in links then links[r.callId] else None
  }

  function EmitCall(t: Thread, ctx: Context, r: Record): Result<Emission> {
    if r.callId == "" || r.name == "" then Err(Format)
    else if r.name == "Task" || (r.name == "Agent" && r.callId !in ctx.callChildren) then Err(Unsupported)
    else if r.callId in t.calls || r.facts.args.NoJson? then Err(Format)
    else Ok(Emission(t.(calls := t.calls[r.callId := r.name]), [Slot(0, LinkOf(ctx.callChildren, r))]))
  }

  function EmitResult(t: Thread, r: Record): Result<Emission> {
    if r.callId == "" || (if r.callId in t.calls then t.calls[r.callId] else "") != r.name then Err(Format)
    else if !r.facts.settled then Err(Unsupported)
    else Ok(Emission(t, [Slot(0, None)]))
  }

  function Emit(t: Thread, ctx: Context, c: Class, r: Record): Result<Emission> {
    match r.kind
    case Message => EmitMessage(t, ctx, c, r)
    case Reasoning =>
      var slots :- Blocks(ctx, c, r);
      Ok(Emission(t, slots))
    case FunctionCall => EmitCall(t, ctx, r)
    case FunctionResult => EmitResult(t, r)
    case OtherKind => Ok(Emission(t, []))
  }

  /** A response counts once, however many rows carry its counters. */
  function Count(t: Thread, c: Class, r: Record): Result<Thread> {
    if c.context && r.usage then Err(Unsupported)
    else match r.facts.tokens
      case NoTokens => Ok(t)
      case Tokens(message, valid, empty, model, counts) =>
        if message == "" || !valid then Err(Format)
        else if empty then Ok(t)
        else if model == "" then Err(Format)
        else if message in t.usages && t.usages[message] != (model, counts) then Err(Unsupported)
        else Ok(t.(usages := t.usages[message := (model, counts)]))
  }

  // ---------------------------------------------------------------- frames and turns

  function Numbered(line: nat, from: nat, slots: seq<Slot>): (r: seq<FamilyOrder.Event>)
    ensures |r| == |slots|
    ensures forall k :: 0 <= k < |slots| ==> r[k] == FamilyOrder.Event(line, slots[k].part, from + k, slots[k].child)
  {
    seq(|slots|, k requires 0 <= k < |slots| => FamilyOrder.Event(line, slots[k].part, from + k, slots[k].child))
  }

  function Place(t: Thread, ctx: Context, c: Class, i: nat, r: Record, slots: seq<Slot>): Result<Thread> {
    if t.events + |slots| > ctx.events || |t.usages| > ctx.usage || |slots| > 500 then Err(Limit)
    else
      var f := FamilyOrder.Frame(ctx.ThreadId(), i, Numbered(i, t.events, slots));
      var opens := ctx.child.Some? && !c.context && r.UserMessage();
      var turns := if opens && t.userTurns > 0 then t.turns + [[]] else t.turns;
      if turns == [] then Err(Format)
      else Ok(t.(events := t.events + |slots|, frames := t.frames + [f],
                 userTurns := t.userTurns + if opens then 1 else 0,
                 turns := turns[|turns| - 1 := turns[|turns| - 1] + [f]]))
  }

  function Step(t: Thread, ctx: Context, i: nat, e: Entry): Result<Thread> {
    var c :- Classify(t, ctx, e.record);
    var chained :- Chain(t, ctx, c, e);
    if !Timed(e.record) then Err(Format)
    else
      var out :- Emit(chained, ctx, c, e.record);
      var counted :- Count(out.t, c, e.record);
      Place(counted, ctx, c, i, e.record, out.slots)
  }

  function Run(entries: seq<Entry>, ctx: Context, n: nat): Result<Thread>
    requires n <= |entries|
  {
    if n == 0 then Ok(Start())
    else
      var before :- Run(entries, ctx, n - 1);
      Step(before, ctx, n - 1, entries[n - 1])
  }

  /** No compaction is left open at the end. */
  predicate Closed(t: Thread) {
    !t.manual && t.emergency.Settled?
  }

  function Project(records: seq<Record>, ctx: Context): Result<Thread> {
    var entries :- CodeBuddyRecords.HistoryRecords(records);
    var t :- Run(entries, ctx, |entries|);
    if Closed(t) then Ok(t) else Err(Format)
  }

  lemma RunStep(entries: seq<Entry>, ctx: Context, n: nat)
    requires 0 < n <= |entries| && Run(entries, ctx, n).Ok?
    ensures Run(entries, ctx, n - 1).Ok?
    ensures Step(Run(entries, ctx, n - 1).value, ctx, n - 1, entries[n - 1]) == Run(entries, ctx, n)
  {
    hide Step;
  }

  lemma {:induction false} RunPrefix(entries: seq<Entry>, ctx: Context, m: nat, n: nat)
    requires m <= n <= |entries| && Run(entries, ctx, n).Ok?
    ensures Run(entries, ctx, m).Ok?
  {
    hide Step;
    if m < n {
      RunStep(entries, ctx, n);
      RunPrefix(entries, ctx, m, n - 1);
    }
  }

  // ---------------------------------------------------------------- what one row adds

  /** A prompt that starts a turn of a delegated thread. */
  predicate Opens(ctx: Context, r: Record) {
    ctx.child.Some? && r.UserMessage() && !r.facts.internal.Yes?
  }

  /** In a delegated thread the internal inputs are exactly those that carry context only. */
  lemma ContextIsInternal(t: Thread, ctx: Context, r: Record)
    requires ctx.child.Some? && r.UserMessage() && Classify(t, ctx, r).Ok?
    ensures Classify(t, ctx, r).value.context <==> r.facts.internal.Yes?
  {
  }

  ghost predicate Advances(t: Thread, next: Thread, ctx: Context, i: nat, r: Record) {
    && |next.frames| == |t.frames| + 1 && next.frames == t.frames + [next.frames[|t.frames|]]
    && var f := next.frames[|t.frames|];
       && f.owner == ctx.ThreadId() && f.slot == i && FamilyOrder.Link(f) == LinkOf(ctx.callChildren, r)
       && next.events == t.events + |f.events|
       && (var turns := if Opens(ctx, r) && t.userTurns > 0 then t.turns + [[]] else t.turns;
           turns != [] && next.turns == turns[|turns| - 1 := turns[|turns| - 1] + [f]])
       && next.userTurns == t.userTurns + (if Opens(ctx, r) then 1 else 0)
       && (r.kind.FunctionCall? ==> r.callId !in t.calls)
       && next.calls.Keys == t.calls.Keys + (if r.kind.FunctionCall? then {r.callId} else {})
  }

  lemma {:induction false} ShownLinksNobody(blocks: seq<Block>, from: nat, text: Option<string>)
    requires Shown(blocks, from, text).Ok?
    ensures forall k :: 0 <= k < |Shown(blocks, from, text).value| ==> Shown(blocks, from, text).value[k].child.None?
    decreases |blocks|
  {
    if blocks != [] {
      ShownLinksNobody(blocks[1..], from + 1, text);
    }
  }

  lemma CallLinks(t: Thread, ctx: Context, i: nat, from: nat, r: Record)
    requires EmitCall(t, ctx, r).Ok?
    ensures FamilyOrder.FirstLink(Numbered(i, from, EmitCall(t, ctx, r).value.slots)) == LinkOf(ctx.callChildren, r)
  {
    hide LinkOf;
    assert Numbered(i, from, EmitCall(t, ctx, r).value.slots)[1..] == [];
  }

  lemma BlocksLinkNobody(ctx: Context, c: Class, r: Record)
    requires Blocks(ctx, c, r).Ok?
    ensures forall k :: 0 <= k < |Blocks(ctx, c, r).value| ==> Blocks(ctx, c, r).value[k].child.None?
  {
    var delegated :=
      if ctx.child.Some? && r.id in ctx.child.value.prompts then Some(ctx.child.value.prompts[r.id]) else None;
    ShownLinksNobody(r.facts.content.value, 0, if c.command.Some? then c.command else delegated);
  }

  /** Only a call links, and only to the child on record for it. */
  lemma EmitLinks(t: Thread, ctx: Context, c: Class, i: nat, from: nat, r: Record)
    requires Emit(t, ctx, c, r).Ok?
    ensures FamilyOrder.FirstLink(Numbered(i, from, Emit(t, ctx, c, r).value.slots)) == LinkOf(ctx.callChildren, r)
  {
    hide Shown, Blocks;
    if r.kind.FunctionCall? {
      CallLinks(t, ctx, i, from, r);
    } else {
      if (r.kind.Message? && !Silent(ctx, c, r)) || r.kind.Reasoning? {
        BlocksLinkNobody(ctx, c, r);
      }
      FamilyOrder.NoLinks(Numbered(i, from, Emit(t, ctx, c, r).value.slots));
    }
  }

  /** Frames, turns, events and turn count are set by `Place` alone. */
  ghost predicate Same(a: Thread, b: Thread) {
    a.frames == b.frames && a.turns == b.turns && a.events == b.events && a.userTurns == b.userTurns
  }

  lemma EmitKeeps(t: Thread, ctx: Context, c: Class, r: Record)
    requires Emit(t, ctx, c, r).Ok?
    ensures var u := Emit(t, ctx, c, r).value.t;
            && Same(t, u) && u.usages == t.usages && u.previous == t.previous && u.manual == t.manual
            && (r.kind.FunctionCall? ==> r.callId !in t.calls)
            && u.calls.Keys == t.calls.Keys + (if r.kind.FunctionCall? then {r.callId} else {})
            && u.emergency == if r.AssistantDone() && !Silent(ctx, c, r) then Settled else t.emergency
  {
    hide Blocks, LinkOf;
  }

  /** The stages of a step. */
  ghost predicate Stages(t: Thread, ctx: Context, i: nat, e: Entry, c: Class, chained: Thread, out: Emission,
                         counted: Thread) {
    && Classify(t, ctx, e.record) == Ok(c) && Chain(t, ctx, c, e) == Ok(chained)
       && Emit(chained, ctx, c, e.record) == Ok(out)
    && Count(out.t, c, e.record) == Ok(counted) && Step(t, ctx, i, e) == Place(counted, ctx, c, i, e.record, out.slots)
  }

  lemma StepStages(t: Thread, ctx: Context, i: nat, e: Entry)
    returns (c: Class, chained: Thread, out: Emission, counted: Thread)
    requires Step(t, ctx, i, e).Ok?
    ensures Stages(t, ctx, i, e, c, chained, out, counted)
  {
    hide Classify, Chain, Emit, Count, Place, Timed;
    c := Classify(t, ctx, e.record).value;
    chained := Chain(t, ctx, c, e).value;
    out := Emit(chained, ctx, c, e.record).value;
    counted := Count(out.t, c, e.record).value;
  }

  lemma ChainKeeps(t: Thread, ctx: Context, c: Class, e: Entry)
    requires Chain(t, ctx, c, e).Ok?
    ensures var u := Chain(t, ctx, c, e).value;
            Same(t, u) && u.calls == t.calls && u.usages == t.usages && u.manual == c.manual
            && u.emergency == c.emergency
    ensures Chain(t, ctx, c, e).value.previous == if e.record.Projected() then Some(e.record.id) else t.previous
    ensures e.record.Projected() && !e.sibling ==> Up(e.record, c.context) == t.previous
  {
    hide ForeignSession, ForeignAgent, Up;
  }

  lemma CountKeeps(t: Thread, c: Class, r: Record)
    requires Count(t, c, r).Ok?
    ensures Count(t, c, r).value == t.(usages := Count(t, c, r).value.usages)
  {
  }

  lemma PlaceAdvances(t: Thread, before: Thread, ctx: Context, c: Class, i: nat, r: Record, slots: seq<Slot>)
    requires Place(t, ctx, c, i, r, slots).Ok? && Same(before, t)
    requires FamilyOrder.FirstLink(Numbered(i, t.events, slots)) == LinkOf(ctx.callChildren, r)
    requires ctx.child.Some? && r.UserMessage() ==> (c.context <==> r.facts.internal.Yes?)
    requires r.kind.FunctionCall? ==> r.callId !in before.calls
    requires t.calls.Keys == before.calls.Keys + (if r.kind.FunctionCall? then {r.callId} else {})
    ensures Advances(before, Place(t, ctx, c, i, r, slots).value, ctx, i, r)
  {
    hide LinkOf, FamilyOrder.FirstLink;
  }

  lemma StepAdvances(t: Thread, ctx: Context, i: nat, e: Entry)
    requires Step(t, ctx, i, e).Ok?
    ensures Advances(t, Step(t, ctx, i, e).value, ctx, i, e.record)
  {
    hide Step, Classify, Chain, Emit, Count, Place, LinkOf, Silent, FamilyOrder.FirstLink, Advances;
    var c, chained, out, counted := StepStages(t, ctx, i, e);
    ChainKeeps(t, ctx, c, e);
    EmitKeeps(chained, ctx, c, e.record);
    EmitLinks(chained, ctx, c, i, t.events, e.record);
    CountKeeps(out.t, c, e.record);
    if ctx.child.Some? && e.record.UserMessage() {
      ContextIsInternal(t, ctx, e.record);
    }
    PlaceAdvances(counted, t, ctx, c, i, e.record, out.slots);
  }

  // ---------------------------------------------------------------- turns

  /** The prompts among the first `n` rows. */
  function Prompts(entries: seq<Entry>, n: nat): seq<nat>
    requires n <= |entries|
  {
    if n == 0 then []
    else Prompts(entries, n - 1)
         + if entries[n - 1].record.UserMessage() && !entries[n - 1].record.facts.internal.Yes? then [n - 1] else []
  }

  /** The turns are the frames, cut; a delegated thread has one turn per prompt. */
  ghost predicate Cut(t: Thread, ctx: Context, prompts: nat) {
    && Flatten(t.turns) == t.frames && t.userTurns == (if ctx.child.Some? then prompts else 0)
    && |t.turns| == (if t.userTurns > 0 then t.userTurns else 1) && (t.userTurns > 0 ==> t.frames != [])
    && FamilyOrder.EventTotal(t.frames) == t.events && Filled(t)
  }

  /** No turn is empty once the thread has a frame. */
  ghost predicate Filled(t: Thread) {
    if t.frames == [] then t.turns == [[]] else forall k :: 0 <= k < |t.turns| ==> t.turns[k] != []
  }

  lemma FilledStep(t: Thread, next: Thread, ctx: Context, i: nat, r: Record)
    requires Filled(t) && Advances(t, next, ctx, i, r) && (t.userTurns > 0 ==> t.frames != [])
    ensures Filled(next)
  {
    hide LinkOf, FamilyOrder.FirstLink, Opens;
    var turns := if Opens(ctx, r) && t.userTurns > 0 then t.turns + [[]] else t.turns;
    forall k | 0 <= k < |next.turns|
      ensures next.turns[k] != []
    {
      if k < |turns| - 1 {
        assert next.turns[k] == t.turns[k];
      }
    }
  }

  lemma CutStep(t: Thread, next: Thread, ctx: Context, i: nat, r: Record, prompts: nat)
    requires Cut(t, ctx, prompts) && Advances(t, next, ctx, i, r)
    ensures Cut(next, ctx, prompts + if r.UserMessage() && !r.facts.internal.Yes? then 1 else 0)
  {
    var f := next.frames[|t.frames|];
    var turns := if Opens(ctx, r) && t.userTurns > 0 then t.turns + [[]] else t.turns;
    SnocLast(turns, f);
    FlattenSnoc(t.turns, []);
    assert Flatten(t.turns) + [] == Flatten(t.turns);
    FamilyOrder.TotalAppend(t.frames, [f]);
    assert [f][1..] == [];
    FilledStep(t, next, ctx, i, r);
    hide Flatten, LinkOf;
  }

  /** Main result. A thread's turns are its frames, cut at its prompts and nowhere else. */
  lemma {:induction false} TurnsArePrompts(entries: seq<Entry>, ctx: Context, n: nat)
    requires n <= |entries| && Run(entries, ctx, n).Ok?
    ensures Cut(Run(entries, ctx, n).value, ctx, |Prompts(entries, n)|)
  {
    hide Step, Cut, Advances;
    if n == 0 {
      StartIsCut(ctx);
    } else {
      RunStep(entries, ctx, n);
      TurnsArePrompts(entries, ctx, n - 1);
      var t := Run(entries, ctx, n - 1).value;
      StepAdvances(t, ctx, n - 1, entries[n - 1]);
      CutStep(t, Run(entries, ctx, n).value, ctx, n - 1, entries[n - 1].record, |Prompts(entries, n - 1)|);
    }
  }

  /** Turn `k` opens with the frame of prompt `k`; only the first turn may hold rows before its prompt. */
  ghost predicate StartsAt(turns: seq<seq<Frame>>, prompts: seq<nat>, k: nat) {
    k < |turns| && k < |prompts| && turns[k] != [] && turns[k][0].slot == prompts[k]
  }

  ghost predicate CutAtPrompts(t: Thread, ctx: Context, prompts: seq<nat>) {
    forall k :: 0 < k < |t.turns| ==> StartsAt(t.turns, prompts, k)
  }

  lemma StartsLater(t: Thread, next: Thread, ctx: Context, i: nat, r: Record, prompts: seq<nat>, more: seq<nat>)
    requires Cut(t, ctx, |prompts|) && CutAtPrompts(t, ctx, prompts) && Advances(t, next, ctx, i, r)
    requires more == prompts + if r.UserMessage() && !r.facts.internal.Yes? then [i] else []
    ensures CutAtPrompts(next, ctx, more)
  {
    hide LinkOf, FamilyOrder.FirstLink, Flatten, FamilyOrder.EventTotal;
    var turns := if Opens(ctx, r) && t.userTurns > 0 then t.turns + [[]] else t.turns;
    forall k | 0 < k < |next.turns|
      ensures StartsAt(next.turns, more, k)
    {
      if k < |t.turns| {
        assert StartsAt(t.turns, prompts, k);
      }
    }
  }

  /** Main result. Every later turn of a delegated thread opens with its prompt: turns are cut right
    * before the prompts. */
  lemma {:induction false} TurnsStartAtPrompts(entries: seq<Entry>, ctx: Context, n: nat)
    requires n <= |entries| && Run(entries, ctx, n).Ok?
    ensures CutAtPrompts(Run(entries, ctx, n).value, ctx, Prompts(entries, n))
  {
    hide Step, Cut, Advances, CutAtPrompts;
    if n == 0 {
      StartIsCut(ctx);
    } else {
      RunStep(entries, ctx, n);
      TurnsStartAtPrompts(entries, ctx, n - 1);
      TurnsArePrompts(entries, ctx, n - 1);
      var t := Run(entries, ctx, n - 1).value;
      StepAdvances(t, ctx, n - 1, entries[n - 1]);
      StartsLater(t, Run(entries, ctx, n).value, ctx, n - 1, entries[n - 1].record, Prompts(entries, n - 1),
                  Prompts(entries, n));
    }
  }

  lemma StartIsCut(ctx: Context)
    ensures Cut(Start(), ctx, 0) && CutAtPrompts(Start(), ctx, [])
  {
    assert Flatten<Frame>([[]]) == [];
  }

  /** Every row adds one frame of its thread, in order. */
  ghost predicate FramesPlaced(t: Thread, ctx: Context, n: nat) {
    |t.frames| == n && forall k :: 0 <= k < n ==> t.frames[k].owner == ctx.ThreadId() && t.frames[k].slot == k
  }

  lemma {:induction false} FramesFollowRows(entries: seq<Entry>, ctx: Context, n: nat)
    requires n <= |entries| && Run(entries, ctx, n).Ok?
    ensures FramesPlaced(Run(entries, ctx, n).value, ctx, n)
  {
    hide Step, LinkOf, Opens;
    if n > 0 {
      RunStep(entries, ctx, n);
      FramesFollowRows(entries, ctx, n - 1);
      StepAdvances(Run(entries, ctx, n - 1).value, ctx, n - 1, entries[n - 1]);
    }
  }

  // ---------------------------------------------------------------- calls

  /** The calls among the first `n` rows that delegate to `c`. */
  function Calling(entries: seq<Entry>, n: nat, links: map<string, Option<string>>, c: string): set<string>
    requires n <= |entries|
  {
    if n == 0 then {}
    else Calling(entries, n - 1, links, c)
         + if LinkOf(links, entries[n - 1].record) == Some(c) then {entries[n - 1].record.callId} else {}
  }

  lemma CallingGrows(entries: seq<Entry>, n: nat, ctx: Context, c: string, t: Thread, next: Thread)
    requires 0 < n <= |entries| && Calling(entries, n - 1, ctx.callChildren, c) <= t.calls.Keys
    requires Advances(t, next, ctx, n - 1, entries[n - 1].record)
    requires FamilyOrder.CallCount(t.frames, c) == |Calling(entries, n - 1, ctx.callChildren, c)|
    ensures Calling(entries, n, ctx.callChildren, c) <= next.calls.Keys
    ensures FamilyOrder.CallCount(next.frames, c) == |Calling(entries, n, ctx.callChildren, c)|
  {
    hide FamilyOrder.CallCount, FamilyOrder.FirstLink, Opens;
    FamilyOrder.CallCountSnoc(t.frames, next.frames[|t.frames|], c);
  }

  lemma NothingCalling(entries: seq<Entry>, ctx: Context, c: string)
    ensures Calling(entries, 0, ctx.callChildren, c) == {} && FamilyOrder.CallCount(Start().frames, c) == 0
  {
  }

  /** Frames that call `c` are as many as the calls on record for it. */
  lemma {:induction false} CallsAreCounted(entries: seq<Entry>, ctx: Context, n: nat, c: string)
    requires n <= |entries| && Run(entries, ctx, n).Ok?
    ensures Calling(entries, n, ctx.callChildren, c) <= Run(entries, ctx, n).value.calls.Keys
    ensures FamilyOrder.CallCount(Run(entries, ctx, n).value.frames, c) == |Calling(entries, n, ctx.callChildren, c)|
  {
    hide Step, Advances, Calling;
    if n == 0 {
      NothingCalling(entries, ctx, c);
    } else {
      RunStep(entries, ctx, n);
      CallsAreCounted(entries, ctx, n - 1, c);
      var t := Run(entries, ctx, n - 1).value;
      StepAdvances(t, ctx, n - 1, entries[n - 1]);
      CallingGrows(entries, n, ctx, c, t, Run(entries, ctx, n).value);
    }
  }

  /** A frame links to a child on record. */
  lemma {:induction false} FramesLink(entries: seq<Entry>, ctx: Context, n: nat, k: nat)
    requires k < n <= |entries| && Run(entries, ctx, n).Ok?
    ensures k < |Run(entries, ctx, n).value.frames|
    ensures FamilyOrder.Link(Run(entries, ctx, n).value.frames[k]) == LinkOf(ctx.callChildren, entries[k].record)
  {
    hide Step, LinkOf, FamilyOrder.FirstLink, Opens;
    RunStep(entries, ctx, n);
    FramesFollowRows(entries, ctx, n - 1);
    StepAdvances(Run(entries, ctx, n - 1).value, ctx, n - 1, entries[n - 1]);
    if k < n - 1 {
      FramesLink(entries, ctx, n - 1, k);
    }
  }
}
