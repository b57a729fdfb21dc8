/** What an accepted CodeBuddy thread looks like as a whole: one parent chain, compactions that
  * are completed before anything else happens, and one usage sample for each response. */
module CodeBuddyStates {
  import opened Base
  import opened CodeBuddyRows
  import opened CodeBuddyThread

  /** The states after one row. */
  ghost predicate Moves(t: Thread, next: Thread, ctx: Context, c: Class, e: Entry) {
    && Classify(t, ctx, e.record) == Ok(c) && next.manual == c.manual
    && next.emergency == (if e.record.AssistantDone() && !Silent(ctx, c, e.record) then Settled else c.emergency)
    && next.previous == (if e.record.Projected() then Some(e.record.id) else t.previous)
    && (e.record.Projected() && !e.sibling ==> Up(e.record, c.context) == t.previous)
    && (e.record.facts.logical.Some? ==> c.context)
  }

  lemma StepMoves(t: Thread, ctx: Context, i: nat, e: Entry) returns (c: Class)
    requires Step(t, ctx, i, e).Ok?
    ensures Moves(t, Step(t, ctx, i, e).value, ctx, c, e)
  {
    hide Step, Classify, Emit, Count, Silent, ForeignSession, ForeignAgent, Up, Timed;
    var chained, out, counted;
    c, chained, out, counted := StepStages(t, ctx, i, e);
    ChainKeeps(t, ctx, c, e);
    EmitKeeps(chained, ctx, c, e.record);
    CountKeeps(out.t, c, e.record);
  }

  // ---------------------------------------------------------------- the parent chain

  /** The last row of the chain among the first `n`. */
  function Last(entries: seq<Entry>, n: nat): Option<string>
    requires n <= |entries|
  {
    if n == 0 then None
    else if entries[n - 1].record.Projected() then Some(entries[n - 1].record.id)
    else Last(entries, n - 1)
  }

  lemma {:induction false} PreviousIsLast(entries: seq<Entry>, ctx: Context, n: nat)
    requires n <= |entries| && Run(entries, ctx, n).Ok?
    ensures Run(entries, ctx, n).value.previous == Last(entries, n)
  {
    hide Step, Classify, Up, Silent;
    if n > 0 {
      RunStep(entries, ctx, n);
      PreviousIsLast(entries, ctx, n - 1);
      var c := StepMoves(Run(entries, ctx, n - 1).value, ctx, n - 1, entries[n - 1]);
    }
  }

  /** Internal inputs hang on a logical parent and on nothing else. */
  lemma ContextIsLogical(t: Thread, ctx: Context, r: Record)
    requires Classify(t, ctx, r).Ok? && Classify(t, ctx, r).value.context
    ensures r.facts.logical.Some? && r.facts.parent.None? && r.UserMessage() && r.facts.internal.Yes?
  {
  }

  /** Main result. Each row of an accepted thread hangs on the row before it, by one parent field
    * only; tool siblings share the link of their first call. */
  lemma OneParentChain(entries: seq<Entry>, ctx: Context, n: nat, k: nat)
    requires k < n <= |entries| && Run(entries, ctx, n).Ok? && entries[k].record.Projected() && !entries[k].sibling
    ensures var f := entries[k].record.facts;
            && Last(entries, k) == (if f.logical.Some? then f.logical else f.parent)
            && (f.logical.Some? ==> f.parent.None? && f.internal.Yes? && entries[k].record.UserMessage())
  {
    hide Step, Classify, Silent;
    RunPrefix(entries, ctx, k + 1, n);
    RunStep(entries, ctx, k + 1);
    PreviousIsLast(entries, ctx, k);
    var t := Run(entries, ctx, k).value;
    var c := StepMoves(t, ctx, k, entries[k]);
    if c.context {
      ContextIsLogical(t, ctx, entries[k].record);
    }
  }

  // ---------------------------------------------------------------- emergency compaction

  /** How the states may move on one row. */
  ghost predicate PhaseMove(t: Thread, next: Thread, r: Record) {
    && (t.emergency.Continue? ==> r.ContextShape() && r.facts.compact.NoCompact? && next.emergency.Response?)
    && (t.emergency.Response? ==>
          !r.UserMessage() && (next.emergency.Response? || (next.emergency.Settled? && r.AssistantDone())))
    && (r.facts.compact.EmergencyAuto? ==> t.emergency.Settled? && next.emergency.Continue?)
    && ((t.manual ==> t.emergency.Settled?) ==> next.manual ==> next.emergency.Settled?)
  }

  lemma MovesPhase(t: Thread, next: Thread, ctx: Context, c: Class, e: Entry)
    requires Moves(t, next, ctx, c, e)
    ensures PhaseMove(t, next, e.record)
  {
    hide ContinueText;
  }

  lemma RunPhase(entries: seq<Entry>, ctx: Context, n: nat)
    requires 0 < n <= |entries| && Run(entries, ctx, n).Ok?
    ensures Run(entries, ctx, n - 1).Ok?
    ensures PhaseMove(Run(entries, ctx, n - 1).value, Run(entries, ctx, n).value, entries[n - 1].record)
  {
    hide Step, Moves, PhaseMove;
    RunStep(entries, ctx, n);
    var c := StepMoves(Run(entries, ctx, n - 1).value, ctx, n - 1, entries[n - 1]);
    MovesPhase(Run(entries, ctx, n - 1).value, Run(entries, ctx, n).value, ctx, c, entries[n - 1]);
  }

  /** The compaction owes a response after row `from`; it has come by row `n` unless still owed. */
  ghost predicate Responded(entries: seq<Entry>, from: nat, n: nat)
    requires n <= |entries|
  {
    exists j ::
      from <= j < n && entries[j].record.AssistantDone()
      && forall m :: from <= m < j ==> !entries[m].record.UserMessage()
  }

  lemma {:induction false} ResponseComes(entries: seq<Entry>, ctx: Context, from: nat, n: nat)
    requires from <= n <= |entries| && Run(entries, ctx, n).Ok? && Run(entries, ctx, from).Ok?
    requires Run(entries, ctx, from).value.emergency.Response?
    ensures Responded(entries, from, n)
            || (Run(entries, ctx, n).value.emergency.Response?
                && forall m :: from <= m < n ==> !entries[m].record.UserMessage())
    decreases n
  {
    hide Step, Run;
    if from < n {
      RunPhase(entries, ctx, n);
      ResponseComes(entries, ctx, from, n - 1);
      if Responded(entries, from, n - 1) {
        assert Responded(entries, from, n);
      }
    }
  }

  /** Main result. In a complete thread an emergency summary is followed at once by its
    * continuation, and then by a completed answer before any other user message. */
  lemma EmergencyAnswered(entries: seq<Entry>, ctx: Context, k: nat)
    requires Run(entries, ctx, |entries|).Ok? && Closed(Run(entries, ctx, |entries|).value)
    requires k < |entries| && entries[k].record.facts.compact.EmergencyAuto?
    ensures k + 2 <= |entries| && entries[k + 1].record.ContextShape() && Responded(entries, k + 2, |entries|)
  {
    hide Step, Run, Responded;
    RunPrefix(entries, ctx, k + 1, |entries|);
    RunPhase(entries, ctx, k + 1);
    assert k + 1 < |entries|;
    RunPrefix(entries, ctx, k + 2, |entries|);
    RunPhase(entries, ctx, k + 2);
    ResponseComes(entries, ctx, k + 2, |entries|);
  }

  // ---------------------------------------------------------------- the user's compaction

  /** The user's command, and the summary that ends it. */
  predicate Commands(r: Record) {
    ByCompactAgent(r) && r.UserMessage() && !r.facts.internal.Yes?
  }

  predicate Summarizes(r: Record) {
    ByCompactAgent(r) && r.AssistantDone() && r.facts.compact.UserCommand? && r.facts.wording.history
    && r.facts.wording.inner
  }

  /** While a compaction is open only its reasoning and file snapshots occur. */
  predicate Waits(r: Record) {
    (ByCompactAgent(r) && r.kind.Reasoning?) || r.facts.fileSnapshot
  }

  ghost predicate ManualMove(t: Thread, next: Thread, ctx: Context, r: Record) {
    && (t.manual ==> if next.manual then Waits(r) else Summarizes(r))
    && (Commands(r) && t.emergency.Settled? ==> !t.manual && next.manual && ctx.child.None?)
    && (next.manual && !t.manual ==> Commands(r))
  }

  lemma MovesManual(t: Thread, next: Thread, ctx: Context, c: Class, e: Entry)
    requires Moves(t, next, ctx, c, e) && (t.manual ==> t.emergency.Settled?)
    ensures ManualMove(t, next, ctx, e.record)
  {
    hide ContinueText, AutomaticFits;
  }

  lemma {:induction false} ManualIsSettled(entries: seq<Entry>, ctx: Context, n: nat)
    requires n <= |entries| && Run(entries, ctx, n).Ok?
    ensures Run(entries, ctx, n).value.manual ==> Run(entries, ctx, n).value.emergency.Settled?
  {
    hide Step;
    if n > 0 {
      RunPhase(entries, ctx, n);
      ManualIsSettled(entries, ctx, n - 1);
    }
  }

  lemma RunManual(entries: seq<Entry>, ctx: Context, n: nat)
    requires 0 < n <= |entries| && Run(entries, ctx, n).Ok?
    ensures Run(entries, ctx, n - 1).Ok?
    ensures ManualMove(Run(entries, ctx, n - 1).value, Run(entries, ctx, n).value, ctx, entries[n - 1].record)
  {
    hide Step, Moves, ManualMove;
    RunStep(entries, ctx, n);
    ManualIsSettled(entries, ctx, n - 1);
    var c := StepMoves(Run(entries, ctx, n - 1).value, ctx, n - 1, entries[n - 1]);
    MovesManual(Run(entries, ctx, n - 1).value, Run(entries, ctx, n).value, ctx, c, entries[n - 1]);
  }

  ghost predicate Summarized(entries: seq<Entry>, from: nat, n: nat)
    requires n <= |entries|
  {
    exists j :: from <= j < n && Summarizes(entries[j].record) && forall m :: from <= m < j ==> Waits(entries[m].record)
  }

  lemma {:induction false} SummaryComes(entries: seq<Entry>, ctx: Context, from: nat, n: nat)
    requires from <= n <= |entries| && Run(entries, ctx, n).Ok? && Run(entries, ctx, from).Ok?
    requires Run(entries, ctx, from).value.manual
    ensures Summarized(entries, from, n)
            || (Run(entries, ctx, n).value.manual && forall m :: from <= m < n ==> Waits(entries[m].record))
    decreases n
  {
    hide Step, Run, Waits, Summarizes, Commands;
    if from < n {
      RunManual(entries, ctx, n);
      SummaryComes(entries, ctx, from, n - 1);
      if Summarized(entries, from, n - 1) {
        assert Summarized(entries, from, n);
      }
    }
  }

  /** No command comes between an emergency summary and the answer it owes. */
  lemma CommandIsSettled(entries: seq<Entry>, ctx: Context, n: nat)
    requires 0 < n <= |entries| && Run(entries, ctx, n).Ok? && Commands(entries[n - 1].record)
    ensures Run(entries, ctx, n - 1).Ok? && Run(entries, ctx, n - 1).value.emergency.Settled?
  {
    hide Step, Run;
    RunPhase(entries, ctx, n);
  }

  /** Main result. In a complete thread a user's compaction command is followed by its own
    * reasoning and file snapshots only, up to its completed summary; it never occurs in a
    * delegated thread. */
  lemma CommandSummarized(entries: seq<Entry>, ctx: Context, k: nat)
    requires Run(entries, ctx, |entries|).Ok? && Closed(Run(entries, ctx, |entries|).value)
    requires k < |entries| && Commands(entries[k].record)
    ensures ctx.child.None? && Summarized(entries, k + 1, |entries|)
  {
    hide Step, Run, Summarized, Commands;
    RunPrefix(entries, ctx, k + 1, |entries|);
    RunManual(entries, ctx, k + 1);
    CommandIsSettled(entries, ctx, k + 1);
    SummaryComes(entries, ctx, k + 1, |entries|);
  }

  // ---------------------------------------------------------------- usage

  /** The response whose counters a row carries. */
  function Sampled(r: Record): Option<string> {
    if r.facts.tokens.Tokens? && !r.facts.tokens.empty then Some(r.facts.tokens.message) else None
  }

  function Responses(entries: seq<Entry>, n: nat): set<string>
    requires n <= |entries|
  {
    if n == 0 then {}
    else Responses(entries, n - 1)
         + if Sampled(entries[n - 1].record).Some? then {Sampled(entries[n - 1].record).value} else {}
  }

  ghost predicate Samples(usages: map<string, (string, string)>, r: Record) {
    Sampled(r).Some? ==>
      && r.facts.tokens.message in usages
      && usages[r.facts.tokens.message] == (r.facts.tokens.model, r.facts.tokens.counts)
  }

  lemma CountSamples(t: Thread, c: Class, r: Record)
    requires Count(t, c, r).Ok?
    ensures var u := Count(t, c, r).value.usages;
            && Samples(u, r) && (forall m :: m in t.usages ==> m in u && u[m] == t.usages[m])
            && u.Keys == t.usages.Keys + if Sampled(r).Some? then {Sampled(r).value} else {}
  {
  }

  lemma StepSamples(t: Thread, ctx: Context, i: nat, e: Entry)
    requires Step(t, ctx, i, e).Ok?
    ensures var u := Step(t, ctx, i, e).value.usages;
            && Samples(u, e.record) && (forall m :: m in t.usages ==> m in u && u[m] == t.usages[m])
            && u.Keys == t.usages.Keys + if Sampled(e.record).Some? then {Sampled(e.record).value} else {}
  {
    hide Step, Classify, Chain, Emit, Count, Silent, Timed, Samples, Sampled;
    var c, chained, out, counted := StepStages(t, ctx, i, e);
    ChainKeeps(t, ctx, c, e);
    EmitKeeps(chained, ctx, c, e.record);
    CountSamples(out.t, c, e.record);
  }

  /** Main result. Usage is counted once per response, and all rows that carry a response's
    * counters agree on them. */
  lemma {:induction false} UsageOncePerResponse(entries: seq<Entry>, ctx: Context, n: nat)
    requires n <= |entries| && Run(entries, ctx, n).Ok?
    ensures Run(entries, ctx, n).value.usages.Keys == Responses(entries, n)
    ensures forall k :: 0 <= k < n ==> Samples(Run(entries, ctx, n).value.usages, entries[k].record)
  {
    hide Step, Sampled;
    if n > 0 {
      RunStep(entries, ctx, n);
      UsageOncePerResponse(entries, ctx, n - 1);
      StepSamples(Run(entries, ctx, n - 1).value, ctx, n - 1, entries[n - 1]);
    }
  }
}
