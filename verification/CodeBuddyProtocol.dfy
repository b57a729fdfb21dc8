/** The protocol of one CodeBuddy thread, read off its rows.
  *
  * The projection carries the last link of the chain, its session, the two compaction states, the
  * calls, counters and the intent of a delegated thread. Here the rows before say all of them
  * (`StateIsRead`), and `RowAcceptedExactly` lists the rows that may come next.
  */
module CodeBuddyProtocol {
  import opened Base
  import opened CodeBuddyRows
  import opened CodeBuddyThread
  import opened CodeBuddyStates
  import opened CodeBuddyShows
  import FamilyOrder

  // ---------------------------------------------------------------- what the rows before say

  /** The session of the last row of the chain among the first `n`. */
  function LastSession(entries: seq<Entry>, n: nat): Option<string>
    requires n <= |entries|
  {
    if n == 0 then None
    else if entries[n - 1].record.Projected() then entries[n - 1].record.facts.session
    else LastSession(entries, n - 1)
  }

  /** A user message of the thread's own session. */
  predicate IsOwnUser(ctx: Context, r: Record) {
    r.UserMessage() && r.facts.session == Some(ctx.Native())
  }

  predicate OwnUserBefore(entries: seq<Entry>, ctx: Context, n: nat) {
    exists k: nat | k < n :: k < |entries| && IsOwnUser(ctx, entries[k].record)
  }

  predicate CallsAs(entries: seq<Entry>, n: nat, k: nat, id: string) {
    k < n <= |entries| && entries[k].record.kind.FunctionCall? && entries[k].record.callId == id
  }

  ghost predicate CalledBefore(entries: seq<Entry>, n: nat, id: string) {
    exists k: nat :: CallsAs(entries, n, k, id)
  }

  /** The completed answer that an emergency compaction waits for. */
  predicate Settles(ctx: Context, r: Record) {
    r.AssistantDone() && !(ctx.child.None? && r.id in ctx.notices)
  }

  /** Row `k` is an emergency summary that still waits for an answer: its continuation has come. */
  predicate AnswersOwed(entries: seq<Entry>, ctx: Context, k: nat, n: nat) {
    && k + 1 < n <= |entries| && entries[k].record.facts.compact.EmergencyAuto?
    && forall j :: k + 1 < j < n ==> !Settles(ctx, entries[j].record)
  }

  ghost predicate Answering(entries: seq<Entry>, ctx: Context, n: nat) {
    exists k: nat :: AnswersOwed(entries, ctx, k, n)
  }

  /** The last row is an emergency summary, whose continuation comes next. */
  predicate Owing(entries: seq<Entry>, n: nat) {
    0 < n <= |entries| && entries[n - 1].record.facts.compact.EmergencyAuto?
  }

  predicate IsSummary(r: Record) {
    ByCompactAgent(r) && r.kind.Message? && r.facts.role.Assistant?
  }

  /** Row `k` is the user's compaction command, not summarized yet. */
  predicate CommandOpen(entries: seq<Entry>, k: nat, n: nat) {
    && k < n <= |entries| && Commands(entries[k].record)
    && forall j :: k < j < n ==> !IsSummary(entries[j].record)
  }

  ghost predicate Compacting(entries: seq<Entry>, n: nat) {
    exists k: nat :: CommandOpen(entries, k, n)
  }

  /** The text a delegated thread was asked for last. */
  function Intent(entries: seq<Entry>, ctx: Context, n: nat): Option<string>
    requires n <= |entries|
  {
    if n == 0 || ctx.child.None? then None
    else
      var r := entries[n - 1].record;
      if r.UserMessage() && !r.facts.internal.Yes? && r.facts.content.Some? && r.facts.content.value != []
      then r.facts.content.value[0].text else Intent(entries, ctx, n - 1)
  }

  ghost predicate StatesRead(entries: seq<Entry>, ctx: Context, n: nat, t: Thread)
    requires n <= |entries|
  {
    && (t.emergency.Continue? <==> Owing(entries, n))
    && (t.emergency.Response? <==> Answering(entries, ctx, n))
    && (t.manual <==> Compacting(entries, n))
    && (t.manual ==> t.emergency.Settled?)
  }

  ghost predicate CallsRead(entries: seq<Entry>, n: nat, t: Thread)
    requires n <= |entries|
  {
    && (forall id :: id in t.calls <==> CalledBefore(entries, n, id))
    && (forall k: nat, id :: CallsAs(entries, n, k, id) && id in t.calls ==> t.calls[id] == entries[k].record.name)
  }

  ghost predicate Read(entries: seq<Entry>, ctx: Context, n: nat, t: Thread)
    requires n <= |entries|
  {
    && t.previous == Last(entries, n) && t.native == LastSession(entries, n)
    && (t.ownUser <==> OwnUserBefore(entries, ctx, n))
    && t.intent == Intent(entries, ctx, n)
    && StatesRead(entries, ctx, n, t) && CallsRead(entries, n, t)
  }

  // ---------------------------------------------------------------- one row later

  /** How an accepted row moves the state. */
  ghost predicate RowMoves(t: Thread, next: Thread, ctx: Context, e: Entry) {
    var r := e.record;
    && next.previous == (if r.Projected() then Some(r.id) else t.previous)
    && next.native == (if r.Projected() then r.facts.session else t.native)
    && (next.ownUser <==> t.ownUser || IsOwnUser(ctx, r))
    && (if r.kind.FunctionCall? then r.callId !in t.calls && next.calls == t.calls[r.callId := r.name]
        else next.calls == t.calls)
    && (next.emergency.Continue? <==> r.facts.compact.EmergencyAuto?)
    && (next.emergency.Response? <==> t.emergency.Continue? || (t.emergency.Response? && !Settles(ctx, r)))
    && (next.manual <==> Commands(r) || (t.manual && !IsSummary(r)))
    && (t.emergency.Response? ==> !r.facts.compact.EmergencyAuto?)
    && next.intent == (if ctx.child.Some? && r.UserMessage() && !r.facts.internal.Yes? then
                         (if r.facts.content.Some? && r.facts.content.value != [] then r.facts.content.value[0].text
                          else t.intent)
                       else t.intent)
  }

  lemma EmitMoves(t: Thread, ctx: Context, c: Class, r: Record)
    requires Emit(t, ctx, c, r).Ok?
    requires c.context <==> r.UserMessage() && r.facts.internal.Yes?
    ensures var u := Emit(t, ctx, c, r).value.t;
            && u.previous == t.previous && u.native == t.native && u.manual == t.manual
            && (u.ownUser <==> t.ownUser || IsOwnUser(ctx, r))
            && (if r.kind.FunctionCall? then r.callId !in t.calls && u.calls == t.calls[r.callId := r.name]
                else u.calls == t.calls)
            && u.emergency == (if Settles(ctx, r) then Settled else t.emergency)
            && u.intent == (if ctx.child.Some? && r.UserMessage() && !r.facts.internal.Yes? then
                              (if r.facts.content.Some? && r.facts.content.value != []
                               then r.facts.content.value[0].text
                               else t.intent)
                            else t.intent)
  {
    hide Shown, LinkOf;
  }

  lemma ChainMoves(t: Thread, ctx: Context, c: Class, e: Entry)
    requires Chain(t, ctx, c, e).Ok?
    ensures var u := Chain(t, ctx, c, e).value;
            && u.native == (if e.record.Projected() then e.record.facts.session else t.native)
            && u.ownUser == t.ownUser && u.intent == t.intent && u.calls == t.calls
  {
    hide ForeignSession, ForeignAgent, Up;
  }

  /** The states that a class leaves, before an answer settles them. */
  lemma ClassMoves(t: Thread, ctx: Context, r: Record)
    requires Classify(t, ctx, r).Ok? && (t.manual ==> t.emergency.Settled?)
    ensures var c := Classify(t, ctx, r).value;
            && (c.emergency.Continue? <==> r.facts.compact.EmergencyAuto?)
            && (c.emergency.Response? <==> t.emergency.Continue? || t.emergency.Response?)
            && (c.manual <==> Commands(r) || (t.manual && !IsSummary(r)))
            && (t.emergency.Response? ==> !r.facts.compact.EmergencyAuto?)
            && (t.emergency.Continue? ==> !Settles(ctx, r)) && (r.facts.compact.EmergencyAuto? ==> !Settles(ctx, r))
            && (c.manual ==> c.emergency.Settled?)
  {
    hide ContinueText;
  }

  lemma StepMovesRow(t: Thread, ctx: Context, i: nat, e: Entry)
    requires Step(t, ctx, i, e).Ok? && (t.manual ==> t.emergency.Settled?)
    ensures RowMoves(t, Step(t, ctx, i, e).value, ctx, e)
    ensures var next := Step(t, ctx, i, e).value; next.manual ==> next.emergency.Settled?
  {
    hide Step, Classify, Emit, Count, Chain, Timed, Commands, IsSummary, IsOwnUser, Settles;
    var c, chained, out, counted := StepStages(t, ctx, i, e);
    CodeBuddyShows.ClassOf(t, ctx, e.record);
    ClassMoves(t, ctx, e.record);
    ChainKeeps(t, ctx, c, e);
    ChainMoves(t, ctx, c, e);
    EmitMoves(chained, ctx, c, e.record);
    CountKeeps(out.t, c, e.record);
  }

  lemma StatesReadNext(entries: seq<Entry>, ctx: Context, n: nat, t: Thread, next: Thread)
    requires n < |entries| && StatesRead(entries, ctx, n, t) && RowMoves(t, next, ctx, entries[n])
    requires next.manual ==> next.emergency.Settled?
    ensures StatesRead(entries, ctx, n + 1, next)
  {
    hide Commands, IsSummary, Settles, IsOwnUser;
    var m, r := n + 1, entries[n].record;
    if Answering(entries, ctx, n) && !Settles(ctx, r) {
      var k: nat :| AnswersOwed(entries, ctx, k, n);
      assert AnswersOwed(entries, ctx, k, m);
    }
    if Owing(entries, n) {
      var k: nat := n - 1;
      assert AnswersOwed(entries, ctx, k, m);
    }
    if Answering(entries, ctx, m) {
      var k: nat :| AnswersOwed(entries, ctx, k, m);
      assert k + 1 == n || AnswersOwed(entries, ctx, k, n);
    }
    if Commands(r) {
      assert CommandOpen(entries, n, m);
    } else if Compacting(entries, n) && !IsSummary(r) {
      var k: nat :| CommandOpen(entries, k, n);
      assert CommandOpen(entries, k, m);
    }
    if Compacting(entries, m) {
      var k: nat :| CommandOpen(entries, k, m);
      assert k == n || CommandOpen(entries, k, n);
    }
  }

  lemma CallsReadNext(entries: seq<Entry>, ctx: Context, n: nat, t: Thread, next: Thread)
    requires n < |entries| && CallsRead(entries, n, t) && RowMoves(t, next, ctx, entries[n])
    ensures CallsRead(entries, n + 1, next)
  {
    hide Commands, IsSummary, Settles, IsOwnUser;
    var m, r := n + 1, entries[n].record;
    forall id
      ensures CalledBefore(entries, m, id) <==>
              CalledBefore(entries, n, id) || (r.kind.FunctionCall? && r.callId == id)
    {
      if k: nat :| CallsAs(entries, n, k, id) {
        assert CallsAs(entries, m, k, id);
      }
      assert r.kind.FunctionCall? && r.callId == id ==> CallsAs(entries, m, n, id);
      if k: nat :| CallsAs(entries, m, k, id) {
        assert k == n || CallsAs(entries, n, k, id);
      }
    }
    forall k: nat, id | CallsAs(entries, m, k, id) && id in next.calls
      ensures next.calls[id] == entries[k].record.name
    {
      if k < n {
        assert CallsAs(entries, n, k, id) && CalledBefore(entries, n, id);
      }
    }
    hide CalledBefore;
  }

  lemma ReadNext(entries: seq<Entry>, ctx: Context, n: nat, t: Thread, next: Thread)
    requires n < |entries| && Read(entries, ctx, n, t) && Step(t, ctx, n, entries[n]) == Ok(next)
    ensures Read(entries, ctx, n + 1, next)
  {
    hide Step, Commands, IsSummary, Settles, CalledBefore, Answering, Compacting, Owing;
    StepMovesRow(t, ctx, n, entries[n]);
    StatesReadNext(entries, ctx, n, t, next);
    CallsReadNext(entries, ctx, n, t, next);
    hide StatesRead, CallsRead;
  }

  /** After every accepted prefix the state is what the rows of the prefix say. */
  lemma {:induction false} StateIsRead(entries: seq<Entry>, ctx: Context, n: nat)
    requires n <= |entries| && Run(entries, ctx, n).Ok?
    ensures Read(entries, ctx, n, Run(entries, ctx, n).value)
  {
    hide Step, Read;
    if n == 0 {
      StartRead(entries, ctx);
    } else {
      RunStep(entries, ctx, n);
      StateIsRead(entries, ctx, n - 1);
      ReadNext(entries, ctx, n - 1, Run(entries, ctx, n - 1).value, Run(entries, ctx, n).value);
    }
  }

  lemma StartRead(entries: seq<Entry>, ctx: Context)
    ensures Read(entries, ctx, 0, Start())
  {
  }

  // ---------------------------------------------------------------- the rows that may come next

  /** One block of user input that a compaction itself put in, linked by its logical parent only. */
  predicate ContextInput(r: Record) {
    && r.kind.Message? && r.facts.role.User? && r.facts.internal.Yes? && r.facts.skipRun.No?
    && r.facts.parent.None? && r.facts.logical.Some?
    && r.facts.content.Some? && |r.facts.content.value| == 1 && r.facts.content.value[0].kind.InputText?
  }

  /** The continuation that an emergency summary owes. */
  predicate ContinuationFits(r: Record, delegated: bool, intent: Option<string>) {
    && ContextInput(r) && r.Says(ContinueText(delegated, intent))
    && r.facts.summary.Unset? && r.facts.compacted.Unset? && r.facts.compact.NoCompact?
  }

  /** A summary that the emergency compaction puts in, on a settled thread that has begun. */
  predicate EmergencySummaryFits(ctx: Context, r: Record, begun: bool) {
    && begun && (ctx.child.Some? ==> !ctx.child.value.background)
    && ContextInput(r) && r.facts.summary.Yes? && r.facts.compacted.Yes? && r.facts.wording.history
  }

  predicate AutomaticSummaryFits(ctx: Context, r: Record) {
    && ctx.child.None? && ContextInput(r) && r.facts.compact.PreMessageAuto?
    && r.facts.compacted.Yes? && r.facts.summary.No? && r.facts.wording.framework
  }

  /** Rows of the user's own compaction: its command, its reasoning, its summary. */
  predicate CompactRowFits(r: Record, open: bool, begun: bool) {
    if r.UserMessage() then
      && !open && !r.Marked() && begun && r.facts.wording.command.Some?
      && r.Only().Some? && r.Only().value.kind.InputText?
    else if r.kind.Reasoning? then open && !r.Marked()
    else
      && r.kind.Message? && r.facts.role.Assistant? && open && r.facts.completed
      && r.facts.internal.Yes? && r.facts.summary.Yes? && r.facts.compacted.Yes? && r.facts.compact.UserCommand?
      && r.Only().Some? && r.Only().value.kind.OutputText? && r.facts.wording.history && r.facts.wording.inner
  }

  ghost predicate StateFits(entries: seq<Entry>, ctx: Context, n: nat)
    requires n < |entries|
  {
    var r, begun := entries[n].record, Last(entries, n).Some?;
    && (ctx.child.Some? ==> !ByCompactAgent(r))
    && (Answering(entries, ctx, n) ==> !r.UserMessage())
    && if Owing(entries, n) then ContinuationFits(r, ctx.child.Some?, Intent(entries, ctx, n))
       else if r.facts.compact.EmergencyAuto? then
         !Answering(entries, ctx, n) && !Compacting(entries, n) && EmergencySummaryFits(ctx, r, begun)
       else if ByCompactAgent(r) then CompactRowFits(r, Compacting(entries, n), begun)
       else
         && (Compacting(entries, n) ==> r.facts.fileSnapshot)
         && (r.Marked() ==> AutomaticSummaryFits(ctx, r))
  }

  /** Rows that put in context: they hang on their logical parent. */
  predicate IsContext(r: Record) {
    r.UserMessage() && r.facts.internal.Yes?
  }

  /** The sessions that a row of the thread may come from: a delegated thread has one; a thread that
    * was not forked its own; a fork any, until its own user spoke, and then its own and its parent's. */
  predicate SessionFits(ctx: Context, session: string, spoken: bool) {
    match ctx.child
    case Some(c) => session == c.native
    case None =>
      && !("agent-" <= session) && (ctx.forkedFrom.None? ==> session == ctx.sourceId)
      && (spoken ==> session == ctx.sourceId || ctx.forkedFrom == Some(session))
  }

  predicate AgentFits(ctx: Context, r: Record) {
    r.facts.agent.None? || r.facts.agent.value == "compact"
    || r.facts.agent.value == (if ctx.child.Some? then ctx.child.value.agent else "cli")
  }

  /** The row hangs on the last row of the chain, in its session or, for a user message, a new one. */
  predicate ChainFits(entries: seq<Entry>, ctx: Context, n: nat)
    requires n < |entries|
  {
    var e, r := entries[n], entries[n].record;
    && !r.facts.branching && (r.facts.logical.Some? ==> IsContext(r))
    && if r.Projected() then
         && r.facts.session.Some? && r.facts.session.value != ""
         && SessionFits(ctx, r.facts.session.value, OwnUserBefore(entries, ctx, n))
         && (r.UserMessage() || r.facts.session == LastSession(entries, n))
         && (e.sibling || (if IsContext(r) then r.facts.logical else r.facts.parent) == Last(entries, n))
         && AgentFits(ctx, r)
       else r.facts.parent.None? && (r.facts.session.None? || r.facts.session == LastSession(entries, n))
  }

  /** All text blocks say something, if only the empty text. */
  predicate BlocksFit(ctx: Context, r: Record) {
    r.facts.content.Some?
    && forall p :: 0 <= p < |r.facts.content.value| ==>
         r.facts.content.value[p].kind.OtherBlock? || SaidBy(r.facts.content.value[p], Replacement(ctx, r)).Some?
  }

  ghost predicate ContentFits(entries: seq<Entry>, ctx: Context, n: nat)
    requires n < |entries|
  {
    var r := entries[n].record;
    match r.kind
    case Message =>
      && !r.facts.role.OtherRole? && (Unseen(ctx, r) || BlocksFit(ctx, r))
      && (ctx.child.Some? && r.UserMessage() && !r.facts.internal.Yes? ==>
            r.facts.content.Some? && r.facts.content.value != [] && r.facts.content.value[0].text.Some?)
    case Reasoning => BlocksFit(ctx, r)
    case FunctionCall =>
      && r.callId != "" && r.name != "" && r.name != "Task" && (r.name == "Agent" ==> r.callId in ctx.callChildren)
      && !CalledBefore(entries, n, r.callId) && !r.facts.args.NoJson?
    case FunctionResult =>
      && r.callId != "" && r.facts.settled
      && (CalledBefore(entries, n, r.callId) ==>
            exists k: nat :: CallsAs(entries, n, k, r.callId) && entries[k].record.name == r.name)
      && (!CalledBefore(entries, n, r.callId) ==> r.name == "")
    case OtherKind => true
  }

  /** Counters name their response and model and agree with those of its other rows. */
  ghost predicate CountersFit(entries: seq<Entry>, n: nat)
    requires n < |entries|
  {
    var r := entries[n].record;
    && (IsContext(r) ==> !r.usage)
    && match r.facts.tokens
       case NoTokens => true
       case Tokens(message, valid, empty, model, counts) =>
         && message != "" && valid
         && (!empty ==>
               && model != ""
               && forall k :: 0 <= k < n && Sampled(entries[k].record) == Some(message) ==>
                    entries[k].record.facts.tokens.model == model && entries[k].record.facts.tokens.counts == counts)
  }

  /** The row fits what came before it. */
  ghost predicate Follows(entries: seq<Entry>, ctx: Context, n: nat)
    requires n < |entries|
  {
    && StateFits(entries, ctx, n) && ChainFits(entries, ctx, n) && Timed(entries[n].record)
    && ContentFits(entries, ctx, n) && CountersFit(entries, n)
  }

  lemma ClassExactly(entries: seq<Entry>, ctx: Context, n: nat, t: Thread)
    requires n < |entries| && Read(entries, ctx, n, t)
    ensures Classify(t, ctx, entries[n].record).Ok? <==> StateFits(entries, ctx, n)
  {
    hide ContinueText, CallsRead, Answering, Compacting, Owing, Intent, Last, LastSession;
  }

  lemma ChainExactly(entries: seq<Entry>, ctx: Context, n: nat, t: Thread, c: Class)
    requires n < |entries| && Read(entries, ctx, n, t) && (c.context <==> IsContext(entries[n].record))
    ensures Chain(t, ctx, c, entries[n]).Ok? <==> ChainFits(entries, ctx, n)
  {
    hide StatesRead, CallsRead, Last, LastSession, Intent, OwnUserBefore;
  }

  lemma BlocksExactly(ctx: Context, c: Class, r: Record)
    requires c.command == CommandOf(r)
    ensures Blocks(ctx, c, r).Ok? <==> BlocksFit(ctx, r)
  {
    if r.facts.content.Some? {
      ShownSlots(r.facts.content.value, 0, Replacement(ctx, r));
    }
    hide Shown, SlotsAre;
  }

  lemma EmitExactly(entries: seq<Entry>, ctx: Context, n: nat, t: Thread, c: Class)
    requires n < |entries| && CallsRead(entries, n, t)
    requires (c.context <==> IsContext(entries[n].record)) && c.command == CommandOf(entries[n].record)
    ensures Emit(t, ctx, c, entries[n].record).Ok? <==> ContentFits(entries, ctx, n)
  {
    var r := entries[n].record;
    BlocksExactly(ctx, c, r);
    if CalledBefore(entries, n, r.callId) {
      var k: nat :| CallsAs(entries, n, k, r.callId);
    }
    hide Blocks, BlocksFit, CommandOf, LinkOf, CallsAs;
  }

  lemma CountExactly(entries: seq<Entry>, ctx: Context, n: nat, t: Thread, c: Class)
    requires n < |entries| && Run(entries, ctx, n).Ok? && t.usages == Run(entries, ctx, n).value.usages
    requires c.context <==> IsContext(entries[n].record)
    ensures Count(t, c, entries[n].record).Ok? <==> CountersFit(entries, n)
  {
    hide Run, Responses;
    UsageOncePerResponse(entries, ctx, n);
    var r := entries[n].record;
    if r.facts.tokens.Tokens? && r.facts.tokens.message in t.usages {
      SampledAt(entries, n, r.facts.tokens.message);
    }
  }

  lemma {:induction false} SampledAt(entries: seq<Entry>, n: nat, message: string)
    requires n <= |entries| && message in Responses(entries, n)
    ensures exists k :: 0 <= k < n && Sampled(entries[k].record) == Some(message)
  {
    if Sampled(entries[n - 1].record) != Some(message) {
      SampledAt(entries, n - 1, message);
    }
  }

  // ---------------------------------------------------------------- the whole row

  /** The parts of a row that are shown. */
  function PartsShown(ctx: Context, r: Record): set<nat> {
    set p: nat | p <= (if r.facts.content.Some? then |r.facts.content.value| else 0) && ShowsPart(ctx, r, p)
  }

  lemma {:induction false} RisingCount(slots: seq<Slot>)
    requires forall j, k :: 0 <= j < k < |slots| ==> slots[j].part < slots[k].part
    ensures |set k | 0 <= k < |slots| :: slots[k].part| == |slots|
  {
    if slots != [] {
      var last := |slots| - 1;
      RisingCount(slots[..last]);
      var before := set k | 0 <= k < last :: slots[k].part;
      assert before == set k | 0 <= k < |slots[..last]| :: slots[..last][k].part;
      assert (set k | 0 <= k < |slots| :: slots[k].part) == before + {slots[last].part};
      assert slots[last].part !in before;
    }
  }

  lemma ShownCount(slots: seq<Slot>, ctx: Context, r: Record)
    requires SlotsShown(slots, ctx, r)
    ensures |slots| == |PartsShown(ctx, r)|
  {
    RisingCount(slots);
    var parts := set k | 0 <= k < |slots| :: slots[k].part;
    forall p: nat
      ensures p in parts <==> p in PartsShown(ctx, r)
    {
      if p in PartsShown(ctx, r) {
        var k :| 0 <= k < |slots| && slots[k] == Slot(p, LinkOf(ctx.callChildren, r));
        assert slots[k].part == p;
      }
      if p in parts {
        var k :| 0 <= k < |slots| && slots[k].part == p;
        assert ShowsPart(ctx, r, slots[k].part);
        PartInRange(ctx, r, p);
      }
    }
    assert parts == PartsShown(ctx, r);
  }

  lemma PartInRange(ctx: Context, r: Record, p: nat)
    requires ShowsPart(ctx, r, p)
    ensures p in PartsShown(ctx, r)
  {
  }

  lemma StepExactly(entries: seq<Entry>, ctx: Context, n: nat, t: Thread)
    requires n < |entries| && Run(entries, ctx, n) == Ok(t) && Read(entries, ctx, n, t) && t.turns != []
    requires t.usages.Keys == Responses(entries, n)
    ensures Step(t, ctx, n, entries[n]).Ok? <==>
            && Follows(entries, ctx, n)
            && t.events + |PartsShown(ctx, entries[n].record)| <= ctx.events
            && |PartsShown(ctx, entries[n].record)| <= 500 && |Responses(entries, n + 1)| <= ctx.usage
  {
    hide Run, Classify, Chain, Emit, Count, StateFits, ChainFits, ContentFits, CountersFit, Timed, PartsShown,
         StatesRead,
         SlotsShown, Last, LastSession, Intent, OwnUserBefore, CommandOf;
    var e, r := entries[n], entries[n].record;
    ClassExactly(entries, ctx, n, t);
    if Classify(t, ctx, r).Ok? {
      var c := Classify(t, ctx, r).value;
      CodeBuddyShows.ClassOf(t, ctx, r);
      ChainExactly(entries, ctx, n, t, c);
      if Chain(t, ctx, c, e).Ok? {
        var chained := Chain(t, ctx, c, e).value;
        ChainKeeps(t, ctx, c, e);
        EmitExactly(entries, ctx, n, chained, c);
        if Emit(chained, ctx, c, r).Ok? {
          var out := Emit(chained, ctx, c, r).value;
          EmitKeeps(chained, ctx, c, r);
          EmitShows(chained, ctx, c, r);
          ShownCount(out.slots, ctx, r);
          CountExactly(entries, ctx, n, out.t, c);
          if Count(out.t, c, r).Ok? {
            CountKeeps(out.t, c, r);
            CountSamples(out.t, c, r);
            PlaceExactly(Count(out.t, c, r).value, ctx, c, n, r, out.slots);
          }
        }
      }
    }
  }

  lemma PlaceExactly(t: Thread, ctx: Context, c: Class, i: nat, r: Record, slots: seq<Slot>)
    requires t.turns != []
    ensures Place(t, ctx, c, i, r, slots).Ok? <==>
            t.events + |slots| <= ctx.events && |t.usages.Keys| <= ctx.usage && |slots| <= 500
  {
    assert |t.usages| == |t.usages.Keys|;
  }

  /** A row is accepted behind an accepted prefix exactly if it follows it and its events and the
    * responses counted so far fit the budgets. */
  lemma RowAcceptedExactly(entries: seq<Entry>, ctx: Context, n: nat)
    requires n < |entries| && Run(entries, ctx, n).Ok?
    ensures var t := Run(entries, ctx, n).value; var shown := |PartsShown(ctx, entries[n].record)|;
            Run(entries, ctx, n + 1).Ok? <==>
            && Follows(entries, ctx, n)
            && t.events + shown <= ctx.events && shown <= 500 && |Responses(entries, n + 1)| <= ctx.usage
  {
    hide Step, Read, Follows, PartsShown, Responses;
    StateIsRead(entries, ctx, n);
    UsageOncePerResponse(entries, ctx, n);
    TurnsArePrompts(entries, ctx, n);
    StepExactly(entries, ctx, n, Run(entries, ctx, n).value);
  }

  /** A thread whose rows are accepted is complete exactly if no compaction is open and none waits
    * for its continuation or its answer. */
  lemma ClosedExactly(entries: seq<Entry>, ctx: Context)
    requires Run(entries, ctx, |entries|).Ok?
    ensures var n := |entries|;
            Closed(Run(entries, ctx, n).value) <==>
            !Compacting(entries, n) && !Owing(entries, n) && !Answering(entries, ctx, n)
  {
    hide Run, Compacting, Owing, Answering, CallsRead;
    StateIsRead(entries, ctx, |entries|);
  }
}
