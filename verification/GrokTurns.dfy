/** One Grok turn, read off its rows: which rows a completed turn may hold, and what each shows. */
module GrokTurns {
  import opened Base
  import opened Grok
  import opened GrokFacts

  // ---------------------------------------------------------------- what the rows before say

  /** The row continues the text of the row before it. */
  predicate Joined(rows: seq<Row>, k: nat) {
    0 < k < |rows| && SameVoice(rows[k - 1].update, rows[k].update)
  }

  predicate SameVoice(a: Update, b: Update) {
    match a
    case UserChunk(_, _, _) => b.UserChunk?
    case AgentChunk(thought, _) => b.AgentChunk? && b.thought == thought
    case _ => false
  }

  predicate UserBefore(rows: seq<Row>, i: nat) {
    exists k: nat | k < i :: k < |rows| && rows[k].update.UserChunk?
  }

  /** The model has answered, not only thought. */
  predicate AnsweredBefore(rows: seq<Row>, i: nat) {
    exists k: nat | k < i :: k < |rows| && rows[k].update.AgentChunk? && !rows[k].update.thought
  }

  predicate CalledBefore(rows: seq<Row>, i: nat, id: string) {
    exists k: nat | k < i :: k < |rows| && rows[k].update.ToolCall? && rows[k].update.toolId == id
  }

  predicate DoneBefore(rows: seq<Row>, i: nat, id: string) {
    exists k: nat | k < i :: k < |rows| && rows[k].update.ToolUpdate? && rows[k].update.toolId == id
                             && rows[k].update.done
  }

  predicate EventBefore(rows: seq<Row>, i: nat, event: string) {
    exists k: nat | k < i :: k < |rows| && rows[k].event == event
  }

  // ---------------------------------------------------------------- the rows of a turn

  /** The row is of this session and turn, and its event id is new in the turn. In a fork all
    * rows of a turn have one owner and lie on its side of the fork's creation. */
  predicate BelongsTo(rows: seq<Row>, i: nat, ctx: Context)
    requires i < |rows|
  {
    var r := rows[i];
    && r.session && !EventBefore(rows, i, r.event) && (r.prompt.Some? ==> r.prompt.value == ctx.prompt)
    && match ctx.src.fork
       case None => r.ownPrefix
       case Some(f) =>
         && r.owner == ctx.owner && r.numeric
         && (ctx.owner == ctx.src.id ==> f.at <= r.at) && (ctx.owner != ctx.src.id ==> r.at <= f.at)
  }

  /** A row that starts a frame. */
  ghost predicate StartFits(rows: seq<Row>, i: nat, ctx: Context)
    requires i < |rows|
  {
    var r, model := rows[i], ctx.host.NoHost?;
    match r.update
    case UserChunk(text, _, promptIndex) =>
      && r.plain && text.Some? && !UserBefore(rows, i)
      && (if model then i == 0 && promptIndex == Some(ctx.modelTurns) else r.host)
    case AgentChunk(_, text) => r.plain && text.Some? && UserBefore(rows, i)
    case ToolCall(id, supported) => r.plain && supported && UserBefore(rows, i) && !CalledBefore(rows, i, id)
    case ToolUpdate(id, supported, _) =>
      r.plain && supported && UserBefore(rows, i) && CalledBefore(rows, i, id) && !DoneBefore(rows, i, id)
    case TurnCompleted(_, _, _, models, _) =>
      && UserBefore(rows, i)
      && (model ==> AnsweredBefore(rows, i) && models.Some?
                    && forall id :: CalledBefore(rows, i, id) ==> DoneBefore(rows, i, id))
    case Hook => r.ext
    case Retry(supported) => model && UserBefore(rows, i) && supported && r.ext
    case Checkpoint(_, _, _, _) => !model
    case AutoCompact(_) => !model
    case Background(_) => false
    case Unknown => false
  }

  /** A row that continues a text. */
  predicate FragmentFits(rows: seq<Row>, i: nat, ctx: Context)
    requires i < |rows|
  {
    var r := rows[i];
    && r.plain
    && match r.update
       case UserChunk(text, _, promptIndex) => text.Some? && promptIndex == Some(ctx.modelTurns)
       case AgentChunk(_, text) => text.Some?
       case _ => false
  }

  ghost predicate RowFits(rows: seq<Row>, i: nat, ctx: Context)
    requires i < |rows|
  {
    BelongsTo(rows, i, ctx) && if Joined(rows, i) then FragmentFits(rows, i, ctx) else StartFits(rows, i, ctx)
  }

  /** Texts, calls and call updates show one event each. */
  predicate ShowsEvent(u: Update) {
    u.UserChunk? || u.AgentChunk? || u.ToolCall? || u.ToolUpdate?
  }

  /** The samples of a row: one for each model of a completed model turn. */
  function SamplesOf(r: Row, ctx: Context): nat {
    if ctx.host.NoHost? && r.update.TurnCompleted? && r.update.models.Some? then r.update.models.value else 0
  }

  function ShownFrom(rows: seq<Row>, i: nat): nat
    decreases |rows| - i
  {
    if i >= |rows| then 0
    else (if ShowsEvent(rows[i].update) && !Joined(rows, i) then 1 else 0) + ShownFrom(rows, i + 1)
  }

  function SampledFrom(rows: seq<Row>, i: nat, ctx: Context): nat
    decreases |rows| - i
  {
    if i >= |rows| then 0 else SamplesOf(rows[i], ctx) + SampledFrom(rows, i + 1, ctx)
  }

  // ---------------------------------------------------------------- the state before a row

  ghost predicate TurnRead(t: Inner, rows: seq<Row>, i: nat, ctx: Context)
    requires i <= |rows|
  {
    && (forall e :: e in t.seen <==> EventBefore(rows, i, e))
    && (forall id :: id in t.calls <==> CalledBefore(rows, i, id))
    && (forall id :: id in t.calls && t.calls[id] <==> DoneBefore(rows, i, id))
    && (forall id :: (ctx.prompt, id) in t.tools <==> CalledBefore(rows, i, id))
    && (t.user <==> UserBefore(rows, i)) && (t.assistant <==> AnsweredBefore(rows, i))
    && t.events <= ctx.lim.events && t.usages <= ctx.lim.usage
  }

  predicate BeforeAgree(rows: seq<Row>, i: nat, end: nat) {
    && (UserBefore(rows, end) <==> UserBefore(rows, i) || (i < |rows| && rows[i].update.UserChunk?))
    && (AnsweredBefore(rows, end) <==>
          AnsweredBefore(rows, i) || (i < |rows| && rows[i].update.AgentChunk? && !rows[i].update.thought))
  }

  lemma IdsNext(rows: seq<Row>, i: nat, end: nat, id: string)
    requires i < end <= |rows| && forall k :: i < k < end ==> Joined(rows, k)
    ensures CalledBefore(rows, end, id) <==>
            CalledBefore(rows, i, id) || (rows[i].update.ToolCall? && rows[i].update.toolId == id)
    ensures DoneBefore(rows, end, id) <==>
            DoneBefore(rows, i, id) || (rows[i].update.ToolUpdate? &&
             rows[i].update.toolId == id && rows[i].update.done)
    decreases end - i
  {
    if end > i + 1 {
      IdsNext(rows, i, end - 1, id);
      assert Joined(rows, end - 1);
    }
    var last := end - 1;
    assert CalledBefore(rows, end, id) <==>
           CalledBefore(rows, last, id) || (rows[last].update.ToolCall? && rows[last].update.toolId == id);
  }

  lemma VoiceNext(rows: seq<Row>, i: nat, end: nat)
    requires i < end <= |rows| && forall k :: i < k < end ==> Joined(rows, k)
    ensures BeforeAgree(rows, i, end)
    ensures forall k :: i < k < end ==> SameVoice(rows[i].update, rows[k].update)
    decreases end - i
  {
    if end > i + 1 {
      VoiceNext(rows, i, end - 1);
      assert Joined(rows, end - 1);
    }
  }

  // ---------------------------------------------------------------- joined fragments

  /** All rows in between continue their text and fit. */
  ghost predicate Continued(rows: seq<Row>, i: nat, end: nat, ctx: Context) {
    forall k :: i <= k < end && k < |rows| ==> Joined(rows, k) && RowFits(rows, k, ctx)
  }

  /** The fragments behind a text are the rows that continue it, and all of them fit. */
  lemma {:induction false} FragmentsExactly(rows: seq<Row>, i: nat, kind: Update, ctx: Context, seen: set<string>)
    requires 0 < i <= |rows| && (kind.UserChunk? || kind.AgentChunk?) && SameVoice(kind, rows[i - 1].update)
    requires forall e :: e in seen <==> EventBefore(rows, i, e)
    ensures var end := Fragments(rows, i, kind, ctx, seen);
            && (end.Some? ==> Continued(rows, i, end.value, ctx) && !Joined(rows, end.value))
            && (end.None? ==> exists k :: i <= k < |rows| && !RowFits(rows, k, ctx)
                                          && forall j :: i <= j <= k ==> Joined(rows, j))
    decreases |rows| - i
  {
    if i < |rows| && SameSpeaker(kind, rows[i].update) {
      assert Joined(rows, i);
      FragmentFitsExactly(rows, i, kind, ctx, seen);
      if RowFits(rows, i, ctx) {
        EventsNext(rows, i, seen);
        hide RowFits, Identified, EventBefore;
        FragmentsExactly(rows, i + 1, kind, ctx, seen + {rows[i].event});
        var end := Fragments(rows, i + 1, kind, ctx, seen + {rows[i].event});
        if end.None? {
          var k :| i + 1 <= k < |rows| && !RowFits(rows, k, ctx) && forall j :: i + 1 <= j <= k ==> Joined(rows, j);
          assert forall j :: i <= j <= k ==> Joined(rows, j);
        }
      } else {
        assert forall j :: i <= j <= i ==> Joined(rows, j);
      }
    }
  }

  lemma EventsNext(rows: seq<Row>, i: nat, seen: set<string>)
    requires i < |rows| && forall e :: e in seen <==> EventBefore(rows, i, e)
    ensures forall e :: e in seen + {rows[i].event} <==> EventBefore(rows, i + 1, e)
  {
    var m := i + 1;
    forall e
      ensures EventBefore(rows, m, e) <==> EventBefore(rows, i, e) || rows[i].event == e
    {
    }
  }

  lemma FragmentFitsExactly(rows: seq<Row>, i: nat, kind: Update, ctx: Context, seen: set<string>)
    requires 0 < i < |rows| && (kind.UserChunk? || kind.AgentChunk?) && SameSpeaker(kind, rows[i].update)
    requires Joined(rows, i) && forall e :: e in seen <==> EventBefore(rows, i, e)
    ensures RowFits(rows, i, ctx) <==>
            !(!Identified(rows[i], ctx, seen) || !rows[i].plain || !OwnPrompt(rows[i], ctx)
              || TextOf(rows[i].update).None?
              || (kind.UserChunk? && rows[i].update.promptIndex != Some(ctx.modelTurns)))
  {
    BelongsExactly(rows, i, ctx, seen);
    hide BelongsTo, Identified, OwnPrompt;
  }

  lemma BelongsExactly(rows: seq<Row>, i: nat, ctx: Context, seen: set<string>)
    requires i < |rows| && forall e :: e in seen <==> EventBefore(rows, i, e)
    ensures BelongsTo(rows, i, ctx) <==> Identified(rows[i], ctx, seen) && OwnPrompt(rows[i], ctx)
  {
  }

  // ---------------------------------------------------------------- one step

  /** Where the next frame starts. */
  function StartAfter(rows: seq<Row>, i: nat): (end: nat)
    requires i < |rows|
    ensures i < end <= |rows| && !Joined(rows, end)
    ensures forall k :: i < k < end ==> Joined(rows, k)
    decreases |rows| - i
  {
    if i + 1 < |rows| && Joined(rows, i + 1) then StartAfter(rows, i + 1) else i + 1
  }

  /** The row of the frame fits with all its fragments, and so do its event and samples. */
  ghost predicate UnitFits(t: Inner, rows: seq<Row>, i: nat, ctx: Context)
    requires i < |rows|
  {
    && (forall k :: i <= k < StartAfter(rows, i) ==> RowFits(rows, k, ctx))
    && t.events + (if ShowsEvent(rows[i].update) then 1 else 0) <= ctx.lim.events
    && t.usages + SamplesOf(rows[i], ctx) <= ctx.lim.usage && SamplesOf(rows[i], ctx) <= 500
  }

  /** What a step adds: one frame for the row and its fragments. */
  predicate UnitAdds(t: Inner, next: Inner, rows: seq<Row>, i: nat, ctx: Context)
    requires i < |rows|
  {
    && next.frames == t.frames + [Frame(TurnFrame(ctx.prompt, rows[i].event), t.events,
                                        if ShowsEvent(rows[i].update) then 1 else 0, SamplesOf(rows[i], ctx),
                                        Jsons(rows[i..StartAfter(rows, i)]))]
    && next.events == t.events + (if ShowsEvent(rows[i].update) then 1 else 0)
    && next.usages == t.usages + SamplesOf(rows[i], ctx)
  }

  /** When a row that starts a text fits, in the terms of the code. */
  lemma TextFits(t: Inner, ctx: Context, rows: seq<Row>, i: nat)
    requires i < |rows| && !Joined(rows, i) && TurnRead(t, rows, i, ctx)
    requires rows[i].update.UserChunk? || rows[i].update.AgentChunk?
    ensures RowFits(rows, i, ctx) <==>
            Identified(rows[i], ctx, t.seen) && OwnPrompt(rows[i], ctx) && rows[i].plain
            && TextOf(rows[i].update).Some?
            && (if rows[i].update.UserChunk? then UserPlaced(rows[i], ctx, i, t.user) else t.user)
  {
    hide BelongsTo, Identified, OwnPrompt, Joined, EventBefore, CalledBefore, DoneBefore, AnsweredBefore;
    BelongsExactly(rows, i, ctx, t.seen);
  }

  /** The fragments of a text reach to the next frame, or one of them does not fit. */
  lemma TextRun(ctx: Context, rows: seq<Row>, i: nat, seen: set<string>)
    requires i < |rows| && forall e :: e in seen <==> EventBefore(rows, i, e)
    requires rows[i].update.UserChunk? || rows[i].update.AgentChunk?
    ensures var end := Fragments(rows, i + 1, rows[i].update, ctx, seen + {rows[i].event});
            && (end.Some? <==> forall k :: i < k < StartAfter(rows, i) ==> RowFits(rows, k, ctx))
            && (end.Some? ==> end.value == StartAfter(rows, i))
  {
    hide RowFits, EventBefore;
    EventsNext(rows, i, seen);
    FragmentsExactly(rows, i + 1, rows[i].update, ctx, seen + {rows[i].event});
    var end := Fragments(rows, i + 1, rows[i].update, ctx, seen + {rows[i].event});
    if end.Some? {
      SameEnd(rows, i, end.value, ctx);
    } else {
      var k :| i + 1 <= k < |rows| && !RowFits(rows, k, ctx) && forall j :: i + 1 <= j <= k ==> Joined(rows, j);
      assert k < StartAfter(rows, i);
    }
  }

  lemma TextStep(t: Inner, ctx: Context, rows: seq<Row>, i: nat)
    requires i < |rows| && !Joined(rows, i) && TurnRead(t, rows, i, ctx)
    requires rows[i].update.UserChunk? || rows[i].update.AgentChunk?
    ensures RowStep(t, ctx, rows, i).Ok? <==> UnitFits(t, rows, i, ctx)
    ensures RowStep(t, ctx, rows, i).Ok? ==>
              RowStep(t, ctx, rows, i).value.1 == StartAfter(rows, i)
              && UnitAdds(t, RowStep(t, ctx, rows, i).value.0, rows, i, ctx)
  {
    hide RowFits, Joined, Identified, OwnPrompt, UserPlaced, TextOf, Fragments, Jsons, EventBefore, CalledBefore,
         DoneBefore, AnsweredBefore, UserBefore;
    TextFits(t, ctx, rows, i);
    TextRun(ctx, rows, i, t.seen);
  }

  lemma SameEnd(rows: seq<Row>, i: nat, end: nat, ctx: Context)
    requires i < |rows| && i < end <= |rows| && Continued(rows, i + 1, end, ctx) && !Joined(rows, end)
    ensures end == StartAfter(rows, i)
  {
  }

  lemma DoneExactly(t: Inner, rows: seq<Row>, i: nat, ctx: Context)
    requires i <= |rows| && TurnRead(t, rows, i, ctx)
    ensures AllDone(t.calls) <==> forall id :: CalledBefore(rows, i, id) ==> DoneBefore(rows, i, id)
  {
    hide CalledBefore, DoneBefore, EventBefore, UserBefore, AnsweredBefore;
    if forall id :: CalledBefore(rows, i, id) ==> DoneBefore(rows, i, id) {
      forall id | id in t.calls
        ensures t.calls[id]
      {
        assert CalledBefore(rows, i, id);
      }
    }
  }

  /** The row stands alone and its frame fits. */
  ghost predicate AloneFits(t: Inner, rows: seq<Row>, i: nat, ctx: Context)
    requires i < |rows|
  {
    && Identified(rows[i], ctx, t.seen) && OwnPrompt(rows[i], ctx) && StartFits(rows, i, ctx)
    && t.events + (if ShowsEvent(rows[i].update) then 1 else 0) <= ctx.lim.events
    && t.usages + SamplesOf(rows[i], ctx) <= ctx.lim.usage && SamplesOf(rows[i], ctx) <= 500
  }

  /** What a row that stands alone does. */
  ghost predicate StepsAlone(t: Inner, ctx: Context, rows: seq<Row>, i: nat)
    requires i < |rows|
  {
    && (RowStep(t, ctx, rows, i).Ok? <==> AloneFits(t, rows, i, ctx))
    && (RowStep(t, ctx, rows, i).Ok? ==>
          var r := RowStep(t, ctx, rows, i).value;
          && r.1 == i + 1 && r.0.events == t.events + (if ShowsEvent(rows[i].update) then 1 else 0)
          && r.0.usages == t.usages + SamplesOf(rows[i], ctx)
          && r.0.frames == t.frames + [Frame(TurnFrame(ctx.prompt, rows[i].event), t.events,
                                             if ShowsEvent(rows[i].update) then 1 else 0, SamplesOf(rows[i], ctx),
                                             Jsons(rows[i..i + 1]))])
  }

  lemma ToolStep(t: Inner, ctx: Context, rows: seq<Row>, i: nat)
    requires i < |rows| && TurnRead(t, rows, i, ctx) && (rows[i].update.ToolCall? || rows[i].update.ToolUpdate?)
    ensures StepsAlone(t, ctx, rows, i)
  {
    hide Identified, OwnPrompt, EventBefore, CalledBefore, DoneBefore, AnsweredBefore, UserBefore, Jsons, Events,
         AllDone, Fragments;
  }

  lemma EndStep(t: Inner, ctx: Context, rows: seq<Row>, i: nat)
    requires i < |rows| && TurnRead(t, rows, i, ctx) && rows[i].update.TurnCompleted?
    ensures StepsAlone(t, ctx, rows, i)
  {
    hide Identified, OwnPrompt, EventBefore, CalledBefore, DoneBefore, AnsweredBefore, UserBefore, Jsons, Events,
         AllDone, Fragments;
    DoneExactly(t, rows, i, ctx);
  }

  lemma OtherStep(t: Inner, ctx: Context, rows: seq<Row>, i: nat)
    requires i < |rows| && TurnRead(t, rows, i, ctx) && !ShowsEvent(rows[i].update) && !rows[i].update.TurnCompleted?
    ensures StepsAlone(t, ctx, rows, i)
  {
    hide Identified, OwnPrompt, EventBefore, CalledBefore, DoneBefore, AnsweredBefore, UserBefore, Jsons, Events,
         AllDone, Fragments;
  }

  lemma AloneIsUnit(t: Inner, ctx: Context, rows: seq<Row>, i: nat)
    requires i < |rows| && !Joined(rows, i) && TurnRead(t, rows, i, ctx)
    requires !rows[i].update.UserChunk? && !rows[i].update.AgentChunk?
    ensures StartAfter(rows, i) == i + 1 && (UnitFits(t, rows, i, ctx) <==> AloneFits(t, rows, i, ctx))
  {
    hide BelongsTo, StartFits, FragmentFits, Identified, OwnPrompt, SamplesOf, EventBefore, CalledBefore, DoneBefore,
         UserBefore, AnsweredBefore;
    BelongsExactly(rows, i, ctx, t.seen);
    assert RowFits(rows, i, ctx) <==> BelongsTo(rows, i, ctx) && StartFits(rows, i, ctx);
  }

  lemma PlainStep(t: Inner, ctx: Context, rows: seq<Row>, i: nat)
    requires i < |rows| && !Joined(rows, i) && TurnRead(t, rows, i, ctx)
    requires !rows[i].update.UserChunk? && !rows[i].update.AgentChunk?
    ensures RowStep(t, ctx, rows, i).Ok? <==> UnitFits(t, rows, i, ctx)
    ensures RowStep(t, ctx, rows, i).Ok? ==>
              RowStep(t, ctx, rows, i).value.1 == StartAfter(rows, i)
              && UnitAdds(t, RowStep(t, ctx, rows, i).value.0, rows, i, ctx)
  {
    hide RowStep, UnitFits, AloneFits, TurnRead, Joined, SamplesOf;
    AloneIsUnit(t, ctx, rows, i);
    if rows[i].update.ToolCall? || rows[i].update.ToolUpdate? {
      ToolStep(t, ctx, rows, i);
    } else if rows[i].update.TurnCompleted? {
      EndStep(t, ctx, rows, i);
    } else {
      OtherStep(t, ctx, rows, i);
    }
  }

  lemma StepExactly(t: Inner, ctx: Context, rows: seq<Row>, i: nat)
    requires i < |rows| && !Joined(rows, i) && TurnRead(t, rows, i, ctx)
    ensures RowStep(t, ctx, rows, i).Ok? <==> UnitFits(t, rows, i, ctx)
    ensures RowStep(t, ctx, rows, i).Ok? ==>
              RowStep(t, ctx, rows, i).value.1 == StartAfter(rows, i)
              && UnitAdds(t, RowStep(t, ctx, rows, i).value.0, rows, i, ctx)
  {
    hide RowStep, UnitFits, UnitAdds, TurnRead;
    if rows[i].update.UserChunk? || rows[i].update.AgentChunk? {
      TextStep(t, ctx, rows, i);
    } else {
      PlainStep(t, ctx, rows, i);
    }
  }

  /** How a step moves what the turn knows. */
  lemma StepKnows(t: Inner, ctx: Context, rows: seq<Row>, i: nat)
    requires i < |rows| && RowStep(t, ctx, rows, i).Ok?
    ensures var r := RowStep(t, ctx, rows, i).value; var u := rows[i].update;
            && i < r.1 <= |rows| && r.0.seen == t.seen + Events(rows, i, r.1)
            && r.0.calls == (if u.ToolCall? then t.calls[u.toolId := false]
                             else if u.ToolUpdate? then t.calls[u.toolId := u.done] else t.calls)
            && r.0.tools == (if u.ToolCall? then t.tools + {(ctx.prompt, u.toolId)} else t.tools)
            && (r.0.user <==> t.user || u.UserChunk?)
            && (r.0.assistant <==> t.assistant || (u.AgentChunk? && !u.thought))
            && r.0.events <= ctx.lim.events && r.0.usages <= ctx.lim.usage
            && (u.ToolCall? ==> (ctx.prompt, u.toolId) !in t.tools)
            && (u.ToolUpdate? ==> u.toolId in t.calls && !t.calls[u.toolId])
            && (u.AgentChunk? ==> t.user)
  {
    hide Fragments, Identified, OwnPrompt, Jsons, Events, AllDone;
  }

  lemma {:induction false} EventsUnit(rows: seq<Row>, i: nat, end: nat, e: string)
    requires i <= end <= |rows|
    ensures EventBefore(rows, end, e) <==> EventBefore(rows, i, e) || e in Events(rows, i, end)
  {
  }

  ghost predicate Moved(rows: seq<Row>, i: nat, end: nat)
    requires i < end <= |rows|
  {
    var u := rows[i].update;
    && BeforeAgree(rows, i, end)
    && (forall id :: CalledBefore(rows, end, id) <==> CalledBefore(rows, i, id) || (u.ToolCall? && u.toolId == id))
    && (forall id :: DoneBefore(rows, end, id) <==>
          DoneBefore(rows, i, id) || (u.ToolUpdate? && u.toolId == id && u.done))
    && (forall e :: EventBefore(rows, end, e) <==> EventBefore(rows, i, e) || e in Events(rows, i, end))
  }

  lemma UnitMoves(rows: seq<Row>, i: nat)
    requires i < |rows|
    ensures Moved(rows, i, StartAfter(rows, i))
  {
    var end, u := StartAfter(rows, i), rows[i].update;
    VoiceNext(rows, i, end);
    forall id
      ensures CalledBefore(rows, end, id) <==> CalledBefore(rows, i, id) || (u.ToolCall? && u.toolId == id)
      ensures DoneBefore(rows, end, id) <==> DoneBefore(rows, i, id) || (u.ToolUpdate? && u.toolId == id && u.done)
    {
      IdsNext(rows, i, end, id);
    }
    forall e
      ensures EventBefore(rows, end, e) <==> EventBefore(rows, i, e) || e in Events(rows, i, end)
    {
      EventsUnit(rows, i, end, e);
    }
    hide CalledBefore, DoneBefore, EventBefore, UserBefore, AnsweredBefore, Events, StartAfter, Joined;
  }

  lemma StepReads(t: Inner, ctx: Context, rows: seq<Row>, i: nat)
    requires i < |rows| && !Joined(rows, i) && TurnRead(t, rows, i, ctx) && RowStep(t, ctx, rows, i).Ok?
    ensures TurnRead(RowStep(t, ctx, rows, i).value.0, rows, StartAfter(rows, i), ctx)
  {
    hide RowStep, UnitFits, UnitAdds, Joined, CalledBefore, DoneBefore, EventBefore, UserBefore, AnsweredBefore, Events,
         StartAfter;
    StepExactly(t, ctx, rows, i);
    StepKnows(t, ctx, rows, i);
    UnitMoves(rows, i);
  }

  // ---------------------------------------------------------------- the whole turn

  lemma {:induction false} ShownUnit(rows: seq<Row>, i: nat, end: nat)
    requires i <= end <= |rows| && forall k :: i <= k < end ==> Joined(rows, k)
    ensures ShownFrom(rows, i) == ShownFrom(rows, end)
    decreases end - i
  {
    if i < end {
      ShownUnit(rows, i + 1, end);
    }
  }

  lemma {:induction false} SampledUnit(rows: seq<Row>, i: nat, end: nat, ctx: Context)
    requires i <= end <= |rows| && forall k :: i <= k < end ==> Joined(rows, k)
    ensures SampledFrom(rows, i, ctx) == SampledFrom(rows, end, ctx)
    decreases end - i
  {
    if i < end {
      assert Joined(rows, i);
      SampledUnit(rows, i + 1, end, ctx);
    }
  }

  lemma FragmentsHaveNone(rows: seq<Row>, i: nat, ctx: Context)
    requires i < |rows|
    ensures forall k :: i < k < StartAfter(rows, i) ==> SamplesOf(rows[k], ctx) == 0
  {
    forall k | i < k < StartAfter(rows, i)
      ensures SamplesOf(rows[k], ctx) == 0
    {
      assert Joined(rows, k);
    }
  }

  lemma RoomLeft(t: Inner, rows: seq<Row>, i: nat, ctx: Context)
    requires i <= |rows| && TurnRead(t, rows, i, ctx)
    ensures t.events <= ctx.lim.events && t.usages <= ctx.lim.usage
  {
  }

  lemma {:induction false} RowsExactly(t: Inner, ctx: Context, rows: seq<Row>, i: nat)
    requires i <= |rows| && !Joined(rows, i) && TurnRead(t, rows, i, ctx)
    ensures RowsFrom(t, ctx, rows, i).Ok? <==>
            (forall k :: i <= k < |rows| ==> RowFits(rows, k, ctx) && SamplesOf(rows[k], ctx) <= 500)
            && t.events + ShownFrom(rows, i) <= ctx.lim.events
            && t.usages + SampledFrom(rows, i, ctx) <= ctx.lim.usage
    decreases |rows| - i
  {
    hide RowStep, TurnRead, RowFits, SamplesOf, Jsons;
    if i < |rows| {
      var end := StartAfter(rows, i);
      StepExactly(t, ctx, rows, i);
      ShownUnit(rows, i + 1, end);
      SampledUnit(rows, i + 1, end, ctx);
      FragmentsHaveNone(rows, i, ctx);
      if RowStep(t, ctx, rows, i).Ok? {
        StepReads(t, ctx, rows, i);
        RowsExactly(RowStep(t, ctx, rows, i).value.0, ctx, rows, end);
      } else if forall k :: i <= k < end ==> RowFits(rows, k, ctx) {
        assert !UnitFits(t, rows, i, ctx);
      }
    } else {
      RoomLeft(t, rows, i, ctx);
    }
  }

  /** A turn that has not begun: no tool of its prompt is known. */
  predicate NotBegun(t: Inner, ctx: Context) {
    && t.seen == {} && t.calls == map[] && !t.user && !t.assistant
    && (forall p :: p in t.tools ==> p.0 != ctx.prompt)
    && t.events <= ctx.lim.events && t.usages <= ctx.lim.usage
  }

  /** A turn is accepted exactly if each of its rows fits the rows before it and its events and
    * samples fit the budgets. */
  lemma TurnAcceptedExactly(t: Inner, ctx: Context, rows: seq<Row>)
    requires IsTurn(rows) && NotBegun(t, ctx)
    ensures RowsFrom(t, ctx, rows, 0).Ok? <==>
            (forall k :: 0 <= k < |rows| ==> RowFits(rows, k, ctx))
            && t.events + ShownFrom(rows, 0) <= ctx.lim.events
            && t.usages + SampledFrom(rows, 0, ctx) <= ctx.lim.usage && SamplesOf(rows[|rows| - 1], ctx) <= 500
  {
    assert TurnRead(t, rows, 0, ctx);
    RowsExactly(t, ctx, rows, 0);
    hide RowFits;
  }

  // ---------------------------------------------------------------- the frames of a turn

  /** One frame for each row that starts one, with its fragments, numbered from `events`. */
  function FramesFrom(rows: seq<Row>, i: nat, events: nat, ctx: Context): seq<Frame>
    requires i <= |rows|
    decreases |rows| - i
  {
    if i == |rows| then []
    else
      var shown, end := if ShowsEvent(rows[i].update) then 1 else 0, StartAfter(rows, i);
      [Frame(TurnFrame(ctx.prompt, rows[i].event), events, shown, SamplesOf(rows[i], ctx), Jsons(rows[i..end]))]
      + FramesFrom(rows, end, events + shown, ctx)
  }

  lemma {:induction false} RowsShow(t: Inner, ctx: Context, rows: seq<Row>, i: nat)
    requires i <= |rows| && !Joined(rows, i) && TurnRead(t, rows, i, ctx) && RowsFrom(t, ctx, rows, i).Ok?
    ensures var r := RowsFrom(t, ctx, rows, i).value;
            && r.frames == t.frames + FramesFrom(rows, i, t.events, ctx)
            && r.events == t.events + ShownFrom(rows, i) && r.usages == t.usages + SampledFrom(rows, i, ctx)
            && TurnRead(r, rows, |rows|, ctx)
    decreases |rows| - i
  {
    hide RowStep, Joined, StartAfter, TurnRead, RowFits, SamplesOf, Jsons, UnitFits;
    if i < |rows| {
      var end, next := StartAfter(rows, i), RowStep(t, ctx, rows, i).value.0;
      StepExactly(t, ctx, rows, i);
      StepReads(t, ctx, rows, i);
      RowsShow(next, ctx, rows, end);
      ShownUnit(rows, i + 1, end);
      SampledUnit(rows, i + 1, end, ctx);
      FirstFrame(t, next, ctx, rows, i);
    } else {
      assert t.frames + [] == t.frames;
    }
  }

  lemma FirstFrame(t: Inner, next: Inner, ctx: Context, rows: seq<Row>, i: nat)
    requires i < |rows| && UnitAdds(t, next, rows, i, ctx)
    ensures next.frames + FramesFrom(rows, StartAfter(rows, i), next.events, ctx)
            == t.frames + FramesFrom(rows, i, t.events, ctx)
  {
    hide Jsons, SamplesOf, StartAfter;
    var rest := FramesFrom(rows, StartAfter(rows, i), next.events, ctx);
    Assoc(t.frames, next.frames[|t.frames|..], rest);
    assert next.frames == t.frames + next.frames[|t.frames|..];
  }

  /** An accepted turn adds exactly one frame for each row that does not continue a text; texts,
    * calls and call updates show one event, and the completion carries the samples. */
  lemma TurnShows(t: Inner, ctx: Context, rows: seq<Row>)
    requires NotBegun(t, ctx) && RowsFrom(t, ctx, rows, 0).Ok?
    ensures var r := RowsFrom(t, ctx, rows, 0).value;
            && r.frames == t.frames + FramesFrom(rows, 0, t.events, ctx)
            && r.events == t.events + ShownFrom(rows, 0) && r.usages == t.usages + SampledFrom(rows, 0, ctx)
            && r.events <= ctx.lim.events && r.usages <= ctx.lim.usage
  {
    assert TurnRead(t, rows, 0, ctx);
    RowsShow(t, ctx, rows, 0);
    hide FramesFrom;
  }
}
