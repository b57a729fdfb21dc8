/** What every accepted Grok projection satisfies: nothing lost, prompt indices, lineage, keys. */
module GrokFacts {
  import opened Base
  import opened Grok

  // ---------------------------------------------------------------- what one row does

  function RawOf(frames: seq<Frame>): seq<string> {
    if frames == [] then [] else RawOf(frames[..|frames| - 1]) + frames[|frames| - 1].raw
  }

  lemma RawSnoc(frames: seq<Frame>, f: Frame)
    ensures RawOf(frames + [f]) == RawOf(frames) + f.raw
  {
    assert (frames + [f])[..|frames|] == frames;
  }

  /** A row step adds one frame that stands for the rows it consumed. */
  ghost predicate Steps(t: Inner, next: Inner, ctx: Context, rows: seq<Row>, i: nat, end: nat)
    requires i < end <= |rows|
  {
    && |next.frames| == |t.frames| + 1 && next.frames[..|t.frames|] == t.frames
    && var f := next.frames[|t.frames|];
       && f.key == TurnFrame(ctx.prompt, rows[i].event) && f.first == t.events && f.raw == Jsons(rows[i..end])
       && next.events == t.events + f.events && next.usages == t.usages + f.usage
       && next.seen == t.seen + Events(rows, i, end) && rows[i].event !in t.seen
  }

  lemma AdmitSteps(t: Inner, ctx: Context, rows: seq<Row>, i: nat, end: nat, events: nat, usage: nat)
    requires i < end <= |rows| && Admit(t, ctx, rows, i, end, events, usage).Ok? && rows[i].event !in t.seen
    ensures Steps(t, Admit(t, ctx, rows, i, end, events, usage).value, ctx, rows, i, end)
    ensures var next := Admit(t, ctx, rows, i, end, events, usage).value;
            next.calls == t.calls && next.tools == t.tools && next.user == t.user && next.assistant == t.assistant
  {
  }

  /** What a row may do to the user flag: only a user chunk sets it, and nothing else starts a turn. */
  ghost predicate UserRule(t: Inner, next: Inner, ctx: Context, rows: seq<Row>, i: nat)
    requires i < |rows|
  {
    && (t.user ==> next.user)
    && (!t.user && next.user ==> rows[i].update.UserChunk? && UserPlaced(rows[i], ctx, i, false))
    && (rows[i].update.TurnCompleted? ==> t.user)
    && (!t.user && !next.user && ctx.host.NoHost? ==> rows[i].update.Hook?)
  }

  lemma RowStepFacts(t: Inner, ctx: Context, rows: seq<Row>, i: nat)
    requires i < |rows| && RowStep(t, ctx, rows, i).Ok?
    ensures var r := RowStep(t, ctx, rows, i).value; Steps(t, r.0, ctx, rows, i, r.1) && UserRule(t, r.0, ctx, rows, i)
    ensures var end := RowStep(t, ctx, rows, i).value.1; forall k :: i < k < end ==> !rows[k].update.TurnCompleted?
  {
    hide Jsons, Events, AllDone, Admit, Fragments;
    assert rows[i].event !in t.seen;
    var u := rows[i].update;
    forall end, events, usage | i < end <= |rows| && Admit(t, ctx, rows, i, end, events, usage).Ok?
      ensures Steps(t, Admit(t, ctx, rows, i, end, events, usage).value, ctx, rows, i, end)
      ensures Admit(t, ctx, rows, i, end, events, usage).value.user == t.user
    {
      AdmitSteps(t, ctx, rows, i, end, events, usage);
    }
    if u.UserChunk? || u.AgentChunk? {
      FragmentsSpeak(rows, i + 1, u, ctx, t.seen + {rows[i].event});
    }
  }

  lemma {:induction false} FragmentsSpeak(rows: seq<Row>, i: nat, kind: Update, ctx: Context, seen: set<string>)
    requires i <= |rows| && (kind.UserChunk? || kind.AgentChunk?)
    ensures Fragments(rows, i, kind, ctx, seen).Some? ==>
              forall k :: i <= k < Fragments(rows, i, kind, ctx, seen).value ==> !rows[k].update.TurnCompleted?
    decreases |rows| - i
  {
    hide Identified;
    if i < |rows| && Fragments(rows, i, kind, ctx, seen).Some? && SameSpeaker(kind, rows[i].update) {
      FragmentsSpeak(rows, i + 1, kind, ctx, seen + {rows[i].event});
    }
  }

  // ---------------------------------------------------------------- what one turn does

  /** Every row is kept in exactly one frame, in order. */
  lemma {:induction false} TurnKeepsRaw(t: Inner, ctx: Context, rows: seq<Row>, i: nat)
    requires i <= |rows| && RowsFrom(t, ctx, rows, i).Ok?
    ensures RawOf(RowsFrom(t, ctx, rows, i).value.frames) == RawOf(t.frames) + Jsons(rows[i..])
    decreases |rows| - i
  {
    hide RowStep, RawOf, UserRule, Events;
    if i == |rows| {
      assert RawOf(t.frames) + Jsons(rows[i..]) == RawOf(t.frames);
    } else {
      RowStepFacts(t, ctx, rows, i);
      var step := RowStep(t, ctx, rows, i).value;
      TurnKeepsRaw(step.0, ctx, rows, step.1);
      var f := step.0.frames[|t.frames|];
      assert step.0.frames == t.frames + [f];
      RawSnoc(t.frames, f);
      JsonsJoin(rows, i, step.1);
      Assoc(RawOf(t.frames), f.raw, Jsons(rows[step.1..]));
    }
  }

  lemma JsonsJoin(rows: seq<Row>, i: nat, end: nat)
    requires i <= end <= |rows|
    ensures Jsons(rows[i..end]) + Jsons(rows[end..]) == Jsons(rows[i..])
  {
  }

  /** A model turn that has no user by its second row never gets one. */
  lemma {:induction false} UserComesFirst(t: Inner, ctx: Context, rows: seq<Row>, i: nat)
    requires IsTurn(rows) && 0 < i < |rows| && ctx.host.NoHost? && !t.user
    ensures RowsFrom(t, ctx, rows, i).Err?
    decreases |rows| - i
  {
    hide RowStep, Steps;
    if RowStep(t, ctx, rows, i).Ok? {
      RowStepFacts(t, ctx, rows, i);
      var step := RowStep(t, ctx, rows, i).value;
      if step.1 < |rows| {
        UserComesFirst(step.0, ctx, rows, step.1);
      }
    }
  }

  /** A completed model turn opens with its user prompt, numbered by the model turns before it. */
  lemma ModelTurnOpens(t: Inner, ctx: Context, rows: seq<Row>)
    requires IsTurn(rows) && ctx.host.NoHost? && !t.user && RowsFrom(t, ctx, rows, 0).Ok?
    ensures rows[0].update.UserChunk? && rows[0].update.promptIndex == Some(ctx.modelTurns)
  {
    hide RowStep, Steps;
    RowStepFacts(t, ctx, rows, 0);
    var step := RowStep(t, ctx, rows, 0).value;
    if !step.0.user && step.1 < |rows| {
      UserComesFirst(step.0, ctx, rows, step.1);
    }
  }

  predicate NumberedFrom(frames: seq<Frame>, from: nat, n: nat)
    requires n <= |frames|
  {
    if n == 0 then true else NumberedFrom(frames, from, n - 1) && frames[n - 1].first == from + EventSum(frames, n - 1)
  }

  function EventSum(frames: seq<Frame>, n: nat): nat
    requires n <= |frames|
  {
    if n == 0 then 0 else EventSum(frames, n - 1) + frames[n - 1].events
  }

  /** Each frame starts at the number of events before it, and `events` is their number. */
  ghost predicate Numbered(frames: seq<Frame>, events: nat) {
    NumberedFrom(frames, 0, |frames|) && events == EventSum(frames, |frames|)
  }

  lemma {:induction false} SumPrefix(a: seq<Frame>, b: seq<Frame>, n: nat)
    requires n <= |a| && a <= b
    ensures EventSum(b, n) == EventSum(a, n) && NumberedFrom(b, 0, n) == NumberedFrom(a, 0, n)
  {
    if n > 0 {
      SumPrefix(a, b, n - 1);
    }
  }

  lemma NumberedSnoc(frames: seq<Frame>, events: nat, f: Frame)
    requires Numbered(frames, events) && f.first == events
    ensures Numbered(frames + [f], events + f.events)
  {
    SumPrefix(frames, frames + [f], |frames|);
  }

  lemma {:induction false} TurnNumbers(t: Inner, ctx: Context, rows: seq<Row>, i: nat)
    requires i <= |rows| && RowsFrom(t, ctx, rows, i).Ok? && Numbered(t.frames, t.events)
    ensures var r := RowsFrom(t, ctx, rows, i).value; Numbered(r.frames, r.events)
    decreases |rows| - i
  {
    hide RowStep, Numbered, UserRule, Events, Jsons;
    if i < |rows| {
      RowStepFacts(t, ctx, rows, i);
      var step := RowStep(t, ctx, rows, i).value;
      var f := step.0.frames[|t.frames|];
      assert step.0.frames == t.frames + [f];
      NumberedSnoc(t.frames, t.events, f);
      TurnNumbers(step.0, ctx, rows, step.1);
    }
  }

  // ---------------------------------------------------------------- record keys

  ghost predicate KeysDistinct(frames: seq<Frame>) {
    forall i, j :: 0 <= i < j < |frames| ==> frames[i].key != frames[j].key
  }

  /** No frame has the turn's prompt with an event that was not seen in the turn. */
  ghost predicate KeysSeen(frames: seq<Frame>, prompt: string, seen: set<string>) {
    forall k :: 0 <= k < |frames| && frames[k].key.TurnFrame? && frames[k].key.prompt == prompt ==>
      frames[k].key.event in seen
  }

  /** Frames of other prompts and of controls are not added by a turn. */
  ghost predicate KeysOf(frames: seq<Frame>, prompts: set<string>, read: nat) {
    forall k :: 0 <= k < |frames| ==>
      match frames[k].key
      case TurnFrame(p, _) => p in prompts
      case ControlFrame(at, _) => at < read
      case MetadataFrame => false
  }

  lemma {:induction false} TurnKeys(t: Inner, ctx: Context, rows: seq<Row>, i: nat, prompts: set<string>, read: nat)
    requires i <= |rows| && RowsFrom(t, ctx, rows, i).Ok? && KeysDistinct(t.frames)
             && KeysSeen(t.frames, ctx.prompt, t.seen)
    requires KeysOf(t.frames, prompts, read) && ctx.prompt in prompts
    ensures KeysDistinct(RowsFrom(t, ctx, rows, i).value.frames)
            && KeysOf(RowsFrom(t, ctx, rows, i).value.frames, prompts, read)
    decreases |rows| - i
  {
    hide RowStep, UserRule, Jsons;
    if i < |rows| {
      RowStepFacts(t, ctx, rows, i);
      var step := RowStep(t, ctx, rows, i).value;
      KeyAdded(t, step.0, ctx, rows, i, step.1, prompts, read);
      TurnKeys(step.0, ctx, rows, step.1, prompts, read);
    }
  }

  lemma KeyAdded(t: Inner, next: Inner, ctx: Context, rows: seq<Row>, i: nat, end: nat, prompts: set<string>, read: nat)
    requires i < end <= |rows| && Steps(t, next, ctx, rows, i, end)
    requires KeysDistinct(t.frames) && KeysSeen(t.frames, ctx.prompt, t.seen) && KeysOf(t.frames, prompts, read)
             && ctx.prompt in prompts
    ensures KeysDistinct(next.frames) && KeysSeen(next.frames, ctx.prompt, next.seen)
            && KeysOf(next.frames, prompts, read)
  {
    hide Jsons;
    var n := |t.frames|;
    assert rows[i].event in Events(rows, i, end);
    forall k | 0 <= k < n
      ensures next.frames[k] == t.frames[k] && next.frames[k].key != next.frames[n].key
    {
      assert next.frames[k] == next.frames[..n][k];
    }
  }

  // ---------------------------------------------------------------- raw rows of the whole session

  lemma {:induction false} AllRowsSnoc(items: seq<Item>, item: Item)
    ensures AllRows(items + [item]) == AllRows(items) + RowsOf(item)
  {
    if items == [] {
      assert [] + [item] == [item];
      assert RowsOf(item) + [] == RowsOf(item);
    } else {
      AllRowsSnoc(items[1..], item);
      assert (items + [item])[1..] == items[1..] + [item];
      Assoc(RowsOf(items[0]), AllRows(items[1..]), RowsOf(item));
    }
  }

  lemma JsonsAppend(a: seq<Row>, b: seq<Row>)
    ensures Jsons(a + b) == Jsons(a) + Jsons(b)
  {
  }

  lemma ItemKeepsRaw(s: State, src: Source, item: Item, lim: Limits)
    requires OnItem(s, src, item, lim).Ok?
    ensures RawOf(OnItem(s, src, item, lim).value.frames) == RawOf(s.frames) + Jsons(RowsOf(item))
  {
    hide RowsFrom, RawOf, Compaction;
    match item
    case Control(row) =>
      RawSnoc(s.frames, Frame(ControlFrame(s.read, row.event), s.events, 0, 0, [row.json]));
      assert Jsons([row]) == [row.json];
    case Turn(rows) =>
      var terminal := rows[|rows| - 1];
      var ctx := Context(src, terminal.update.prompt, OwnerOf(src, rows), Compaction(rows, s.modelTurns).value,
                         s.modelTurns, lim);
      TurnKeepsRaw(Inner({}, map[], s.tools, false, false, s.events, s.usages, s.frames), ctx, rows, 0);
      assert rows[0..] == rows;
  }

  lemma {:induction false} RunKeepsRaw(src: Source, items: seq<Item>, n: nat, lim: Limits)
    requires n <= |items| && Run(src, items, n, lim).Ok?
    ensures RawOf(Run(src, items, n, lim).value.frames) == Jsons(AllRows(items[..n]))
  {
    hide OnItem, RawOf;
    if n == 0 {
      NoRaw();
    } else {
      RunKeepsRaw(src, items, n - 1, lim);
      ItemKeepsRaw(Run(src, items, n - 1, lim).value, src, items[n - 1], lim);
      assert items[..n] == items[..n - 1] + [items[n - 1]];
      AllRowsSnoc(items[..n - 1], items[n - 1]);
      JsonsAppend(AllRows(items[..n - 1]), RowsOf(items[n - 1]));
    }
  }

  lemma NoRaw()
    ensures RawOf([]) == [] && Jsons([]) == []
  {
  }

  /** Main result. With Raw on, every source row is kept exactly once and in order, joined fragments
    * included; the session's metadata follows. */
  lemma ProjectKeepsRaw(src: Source, lim: Limits)
    requires Project(src, lim).Ok?
    ensures RawOf(Project(src, lim).value) == Jsons(src.records) + [src.metadata]
  {
    hide Run, Segment, RawOf, Final;
    var items := Segment(src.records, 0).value;
    var s := Run(src, items, |items|, lim).value;
    SegmentKeepsRows(src.records, 0);
    RunKeepsRaw(src, items, |items|, lim);
    assert items[..|items|] == items && src.records[0..] == src.records;
    RawSnoc(s.frames, Frame(MetadataFrame, s.events, 0, 0, [src.metadata]));
  }

  // ---------------------------------------------------------------- keys and numbers of the whole session

  lemma TurnParts(s: State, src: Source, rows: seq<Row>, lim: Limits)
    requires IsTurn(rows) && OnTurn(s, src, rows, lim).Ok?
    ensures Compaction(rows, s.modelTurns).Ok? && rows[|rows| - 1].update.prompt !in s.prompts
    ensures var ctx :=
              Context(src, rows[|rows| - 1].update.prompt, OwnerOf(src, rows), Compaction(rows, s.modelTurns).value,
                      s.modelTurns, lim);
            var t := RowsFrom(Inner({}, map[], s.tools, false, false, s.events, s.usages, s.frames), ctx, rows, 0);
            t.Ok? && var next := OnTurn(s, src, rows, lim).value;
                     next.frames == t.value.frames && next.events == t.value.events
                     && next.prompts == s.prompts + {ctx.prompt}
                     && next.read == s.read + |rows|
  {
    hide RowsFrom, Compaction;
  }

  ghost predicate SessionOk(s: State) {
    KeysDistinct(s.frames) && KeysOf(s.frames, s.prompts, s.read) && Numbered(s.frames, s.events)
  }

  lemma ItemOk(s: State, src: Source, item: Item, lim: Limits)
    requires SessionOk(s) && OnItem(s, src, item, lim).Ok?
    ensures SessionOk(OnItem(s, src, item, lim).value)
  {
    hide RowsFrom, Compaction, Numbered, OnTurn;
    match item
    case Control(row) =>
      NumberedSnoc(s.frames, s.events, Frame(ControlFrame(s.read, row.event), s.events, 0, 0, [row.json]));
    case Turn(rows) =>
      TurnParts(s, src, rows, lim);
      var ctx := Context(src, rows[|rows| - 1].update.prompt, OwnerOf(src, rows), Compaction(rows, s.modelTurns).value,
                         s.modelTurns, lim);
      var t := Inner({}, map[], s.tools, false, false, s.events, s.usages, s.frames);
      KeysGrow(s.frames, s.prompts, s.read, ctx.prompt, s.read + |rows|);
      TurnKeys(t, ctx, rows, 0, s.prompts + {ctx.prompt}, s.read + |rows|);
      TurnNumbers(t, ctx, rows, 0);
  }

  lemma KeysGrow(frames: seq<Frame>, prompts: set<string>, read: nat, prompt: string, later: nat)
    requires KeysOf(frames, prompts, read) && prompt !in prompts && read <= later
    ensures KeysOf(frames, prompts + {prompt}, later) && KeysSeen(frames, prompt, {})
  {
  }

  lemma {:induction false} RunOk(src: Source, items: seq<Item>, n: nat, lim: Limits)
    requires n <= |items| && Run(src, items, n, lim).Ok?
    ensures SessionOk(Run(src, items, n, lim).value)
  {
    hide OnItem, SessionOk;
    if n == 0 {
      EmptyOk();
    } else {
      RunOk(src, items, n - 1, lim);
      ItemOk(Run(src, items, n - 1, lim).value, src, items[n - 1], lim);
    }
  }

  lemma EmptyOk()
    ensures SessionOk(Empty)
  {
  }

  /** Main result. Record keys are distinct over the whole session, also across repeated native event
    * ids of background rows, and events are numbered through from 0. */
  lemma ProjectKeys(src: Source, lim: Limits)
    requires Project(src, lim).Ok?
    ensures KeysDistinct(Project(src, lim).value) && NumberedFrom(Project(src, lim).value, 0, |Project(src, lim).value|)
  {
    hide Run, Segment, Final;
    var items := Segment(src.records, 0).value;
    var s := Run(src, items, |items|, lim).value;
    RunOk(src, items, |items|, lim);
    var last := Frame(MetadataFrame, s.events, 0, 0, [src.metadata]);
    NumberedSnoc(s.frames, s.events, last);
    hide Numbered;
  }

  // ---------------------------------------------------------------- prompt indices

  predicate IsHost(rows: seq<Row>) {
    FirstHost(rows) < |rows|
  }

  /** Model turns among the first `n` items. */
  function ModelTurns(items: seq<Item>, n: nat): nat
    requires n <= |items|
  {
    if n == 0 then 0 else ModelTurns(items, n - 1) + if items[n - 1].Turn? && !IsHost(items[n - 1].rows) then 1 else 0
  }

  /** A model turn starts with the user prompt whose index is the number of model turns before it; a
    * completed compaction names that number in its checkpoint. */
  ghost predicate Indexed(rows: seq<Row>, before: nat) {
    if IsHost(rows) then |rows| == 4 ==> rows[0].update.Checkpoint? && rows[0].update.turnsBefore == before
    else rows != [] && rows[0].update.UserChunk? && rows[0].update.promptIndex == Some(before)
  }

  lemma TurnIndexed(s: State, src: Source, rows: seq<Row>, lim: Limits)
    requires IsTurn(rows) && OnTurn(s, src, rows, lim).Ok?
    ensures Indexed(rows, s.modelTurns)
    ensures OnTurn(s, src, rows, lim).value.modelTurns == s.modelTurns + if IsHost(rows) then 0 else 1
  {
    TurnParts(s, src, rows, lim);
    hide RowsFrom;
    var host := Compaction(rows, s.modelTurns).value;
    if host.NoHost? {
      var ctx := Context(src, rows[|rows| - 1].update.prompt, OwnerOf(src, rows), host, s.modelTurns, lim);
      ModelTurnOpens(Inner({}, map[], s.tools, false, false, s.events, s.usages, s.frames), ctx, rows);
    }
  }

  /** Main result. Model prompt indices are 0, 1, 2, ... over the session, whatever host compactions
    * lie between the turns. */
  lemma {:induction false} PromptIndices(src: Source, items: seq<Item>, n: nat, lim: Limits)
    requires n <= |items| && Run(src, items, n, lim).Ok?
    ensures Run(src, items, n, lim).value.modelTurns == ModelTurns(items, n)
    ensures forall k :: 0 <= k < n && items[k].Turn? ==> Indexed(items[k].rows, ModelTurns(items, k))
  {
    hide OnTurn, Indexed, IsHost;
    if n > 0 {
      PromptIndices(src, items, n - 1, lim);
      if items[n - 1].Turn? {
        TurnIndexed(Run(src, items, n - 1, lim).value, src, items[n - 1].rows, lim);
      }
    }
  }

  // ---------------------------------------------------------------- fork lineage

  /** The owners of the turns among the first `n` items. */
  function Owners(src: Source, items: seq<Item>, n: nat): seq<string>
    requires n <= |items|
  {
    if n == 0 then []
    else Owners(src, items, n - 1)
         + if items[n - 1].Turn? && items[n - 1].rows != [] then [OwnerOf(src, items[n - 1].rows)] else []
  }

  /** Owners with repetitions in a row removed. */
  function Blocks(owners: seq<string>): seq<string> {
    if owners == [] then []
    else
      var before, last := Blocks(owners[..|owners| - 1]), owners[|owners| - 1];
      if before != [] && before[|before| - 1] == last then before else before + [last]
  }

  lemma BlocksSnoc(owners: seq<string>, o: string)
    ensures Blocks(owners + [o])
            == if Blocks(owners) != [] && Blocks(owners)[|Blocks(owners)| - 1] == o then Blocks(owners)
               else Blocks(owners) + [o]
  {
    assert (owners + [o])[..|owners|] == owners;
  }

  /** How the state describes the copied prefix. Only the first block can have an empty owner. */
  ghost predicate Lineage(s: State, src: Source, blocks: seq<string>) {
    && Distinct(blocks) && s.previousOwner == (if blocks == [] then "" else blocks[|blocks| - 1])
    && (forall o :: o in s.ancestors ==> o in blocks)
       && (forall k :: 0 <= k < |blocks| ==> blocks[k] in s.ancestors || (k == 0 && blocks[k] == ""))
    && (s.ownTurnSeen ==>
          src.fork.Some? && |blocks| >= 2 && blocks[|blocks| - 1] == src.id
          && blocks[|blocks| - 2] == src.fork.value.parent)
    && (!s.ownTurnSeen ==> src.id !in blocks)
  }

  predicate ForkOk(src: Source) {
    src.fork.Some? && src.id != "" && src.fork.value.parent != ""
  }

  lemma OwnKeepsLineage(s: State, src: Source, blocks: seq<string>, owner: string)
    requires ForkOk(src) && src.fork.Some? && Lineage(s, src, blocks) && !LineageBroken(s, src, owner)
    ensures Lineage(Own(s, src, owner), src,
                    if blocks != [] && blocks[|blocks| - 1] == owner then blocks else blocks + [owner])
  {
    if blocks == [] || blocks[|blocks| - 1] != owner {
      var longer := blocks + [owner];
      if owner == s.previousOwner {
        assert blocks == [] && owner == "";
      }
    }
  }

  lemma TurnLineage(s: State, src: Source, rows: seq<Row>, lim: Limits, blocks: seq<string>)
    requires ForkOk(src) && Lineage(s, src, blocks) && IsTurn(rows) && OnTurn(s, src, rows, lim).Ok?
    ensures var owner := OwnerOf(src, rows);
            Lineage(OnTurn(s, src, rows, lim).value, src,
                    if blocks != [] && blocks[|blocks| - 1] == owner then blocks else blocks + [owner])
  {
    hide OnTurn, Lineage, LineageBroken, Own;
    TurnOwner(s, src, rows, lim);
    OwnKeepsLineage(s, src, blocks, OwnerOf(src, rows));
    SameLineage(Own(s, src, OwnerOf(src, rows)), OnTurn(s, src, rows, lim).value, src,
                if blocks != [] && blocks[|blocks| - 1] == OwnerOf(src, rows) then blocks
                else blocks + [OwnerOf(src, rows)]);
  }

  lemma TurnOwner(s: State, src: Source, rows: seq<Row>, lim: Limits)
    requires IsTurn(rows) && OnTurn(s, src, rows, lim).Ok?
    ensures !LineageBroken(s, src, OwnerOf(src, rows))
    ensures var next, o := OnTurn(s, src, rows, lim).value, Own(s, src, OwnerOf(src, rows));
            next.ancestors == o.ancestors && next.previousOwner == o.previousOwner && next.ownTurnSeen == o.ownTurnSeen
  {
    hide RowsFrom, Compaction, LineageBroken, Own;
  }

  lemma SameLineage(s: State, t: State, src: Source, blocks: seq<string>)
    requires Lineage(s, src, blocks)
    requires t.ancestors == s.ancestors && t.previousOwner == s.previousOwner && t.ownTurnSeen == s.ownTurnSeen
    ensures Lineage(t, src, blocks)
  {
  }

  lemma {:induction false} RunLineage(src: Source, items: seq<Item>, n: nat, lim: Limits)
    requires n <= |items| && ForkOk(src) && Run(src, items, n, lim).Ok?
    ensures Lineage(Run(src, items, n, lim).value, src, Blocks(Owners(src, items, n)))
  {
    hide OnTurn, Lineage, Blocks;
    if n == 0 {
      NoLineage(src);
    } else {
      RunLineage(src, items, n - 1, lim);
      var s, item := Run(src, items, n - 1, lim).value, items[n - 1];
      if item.Turn? {
        TurnLineage(s, src, item.rows, lim, Blocks(Owners(src, items, n - 1)));
        BlocksSnoc(Owners(src, items, n - 1), OwnerOf(src, item.rows));
      } else {
        ControlLineage(s, src, item.row, Blocks(Owners(src, items, n - 1)));
        assert Owners(src, items, n) == Owners(src, items, n - 1);
      }
    }
  }

  lemma NoLineage(src: Source)
    ensures Lineage(Empty, src, Blocks([]))
  {
  }

  lemma ControlLineage(s: State, src: Source, r: Row, blocks: seq<string>)
    requires Lineage(s, src, blocks) && r.update.Background? && OnControl(s, src, r).Ok?
    ensures Lineage(OnControl(s, src, r).value, src, blocks)
  {
  }

  /** Main result. The owners of an accepted fork's turns form blocks a1+ a2+ ... parent+ self+: no
    * owner comes back, the session's own turns come last, right behind its parent's, and every
    * background row between them belongs to one of these owners. */
  lemma ForkLineage(src: Source, items: seq<Item>, lim: Limits)
    requires ForkOk(src) && Run(src, items, |items|, lim).Ok? && Final(Run(src, items, |items|, lim).value, src)
    ensures var blocks := Blocks(Owners(src, items, |items|));
            && Distinct(blocks) && |blocks| >= 2
            && blocks[|blocks| - 1] == src.id && blocks[|blocks| - 2] == src.fork.value.parent
            && forall o :: o in Run(src, items, |items|, lim).value.controlOwners ==> o in blocks
  {
    hide Run, Owners, Blocks;
    RunLineage(src, items, |items|, lim);
  }
}
