/** A whole Grok session, read off its items: which turns and background rows may come next, and
  * when a session is projected. */
module GrokSession {
  import opened Base
  import opened Grok
  import opened GrokFacts
  import opened GrokTurns

  // ---------------------------------------------------------------- cutting the log

  /** A background row alone, or a turn that does not begin with one. */
  predicate IsItem(item: Item) {
    match item
    case Control(row) => row.update.Background?
    case Turn(rows) => IsTurn(rows) && !rows[0].update.Background?
  }

  lemma {:induction false} CutIs(records: seq<Row>, at: nat, items: seq<Item>)
    requires at <= |records| && AllRows(items) == records[at..]
    requires forall k :: 0 <= k < |items| ==> IsItem(items[k])
    ensures Segment(records, at) == Ok(items)
    decreases |items|
  {
    hide IsItem, Segment;
    if items != [] {
      var item, rest := items[0], items[1..];
      FirstCut(records, at, RowsOf(item), AllRows(rest));
      CutIs(records, at + |RowsOf(item)|, rest);
      FirstItem(records, at, item, rest);
      assert [item] + rest == items;
    } else {
      NothingToCut(records, at);
    }
  }

  lemma NothingToCut(records: seq<Row>, at: nat)
    requires at == |records|
    ensures Segment(records, at) == Ok([])
  {
  }

  lemma FirstItem(records: seq<Row>, at: nat, item: Item, rest: seq<Item>)
    requires IsItem(item) && at + |RowsOf(item)| <= |records|
    requires records[at..at + |RowsOf(item)|] == RowsOf(item)
    requires forall k {:trigger records[k]} :: at <= k < at + |RowsOf(item)| ==> RowsOf(item)[k - at] == records[k]
    requires Segment(records, at + |RowsOf(item)|) == Ok(rest)
    ensures Segment(records, at) == Ok([item] + rest)
  {
    var size := |RowsOf(item)|;
    if item.Turn? {
      assert item.rows[0] == records[at] && item.rows[size - 1] == records[at + size - 1];
      EndOfTurn(records, at, size);
    } else {
      assert item.row == records[at];
    }
  }

  lemma FirstCut(records: seq<Row>, at: nat, rows: seq<Row>, rest: seq<Row>)
    requires at <= |records| && rows + rest == records[at..]
    ensures at + |rows| <= |records| && records[at..at + |rows|] == rows && records[at + |rows|..] == rest
    ensures forall k :: 0 <= k < |rows| ==> rows[k] == records[at + k]
    ensures forall k {:trigger records[k]} :: at <= k < at + |rows| ==> rows[k - at] == records[k]
  {
    var tail := records[at..];
    assert tail[..|rows|] == rows && tail[|rows|..] == rest;
    assert records[at..at + |rows|] == tail[..|rows|];
    assert records[at + |rows|..] == tail[|rows|..];
  }

  lemma {:induction false} EndOfTurn(records: seq<Row>, at: nat, size: nat)
    requires 0 < size && at + size <= |records| && records[at + size - 1].update.TurnCompleted?
    requires forall k :: at <= k < at + size - 1 ==> !records[k].update.TurnCompleted?
    ensures TurnEnd(records, at) == at + size - 1
    decreases size
  {
    if size > 1 {
      EndOfTurn(records, at + 1, size - 1);
    }
  }

  lemma {:induction false} CutForms(records: seq<Row>, at: nat)
    requires at <= |records| && Segment(records, at).Ok?
    ensures forall k :: 0 <= k < |Segment(records, at).value| ==> IsItem(Segment(records, at).value[k])
    decreases |records| - at
  {
    if at < |records| {
      if records[at].update.Background? {
        CutForms(records, at + 1);
      } else {
        CutForms(records, TurnEnd(records, at) + 1);
      }
    }
  }

  /** Cutting a log gives the one list of background rows and completed turns that spells it out,
    * and fails exactly if there is none. */
  lemma CutExactly(records: seq<Row>, items: seq<Item>)
    ensures Segment(records, 0) == Ok(items) <==>
            AllRows(items) == records && forall k :: 0 <= k < |items| ==> IsItem(items[k])
  {
    assert records[0..] == records;
    if Segment(records, 0) == Ok(items) {
      SegmentKeepsRows(records, 0);
      CutForms(records, 0);
    }
    if AllRows(items) == records && forall k :: 0 <= k < |items| ==> IsItem(items[k]) {
      CutIs(records, 0, items);
    }
  }

  // ---------------------------------------------------------------- host compactions

  /** The user's compaction command. */
  predicate Command(r: Row) {
    r.host && r.update.UserChunk? && r.update.text.Some? && r.update.command && r.update.promptIndex.None?
  }

  /** A failed compaction: the command and its error, in the order of their clocks. */
  predicate FailedShape(rows: seq<Row>) {
    && |rows| == 2 && Command(rows[0]) && rows[1].update.TurnCompleted?
    && !rows[1].update.hasUsage && rows[1].update.stop.ErrorStop? && rows[1].update.hasResult
    && rows[0].at <= rows[1].at
  }

  /** A completed one: checkpoint, result, command, completion. The command was given first. */
  predicate DoneShape(rows: seq<Row>, before: nat) {
    && |rows| == 4 && !rows[0].host && !rows[1].host && Command(rows[2]) && rows[3].update.TurnCompleted?
    && rows[0].update.Checkpoint? && rows[0].update.supported && rows[0].ext
    && rows[0].update.turnsBefore == before && rows[0].update.createdAt == rows[0].at
    && rows[1].update.AutoCompact? && rows[1].update.supported && rows[1].ext
    && !rows[3].update.hasUsage && rows[3].update.stop.EndTurn?
    && rows[2].at <= rows[0].at && rows[0].at <= rows[1].at && rows[1].at <= rows[3].at
  }

  lemma {:induction false} FirstHostIs(rows: seq<Row>)
    ensures FirstHost(rows) <= |rows|
    ensures forall k :: 0 <= k < FirstHost(rows) ==> !rows[k].host
    ensures FirstHost(rows) < |rows| ==> rows[FirstHost(rows)].host
  {
    if rows != [] && !rows[0].host {
      FirstHostIs(rows[1..]);
      forall k | 0 <= k < FirstHost(rows)
        ensures !rows[k].host
      {
        assert k > 0 ==> rows[k] == rows[1..][k - 1];
      }
    }
  }

  /** Which turns are taken for model turns, failed and completed compactions. */
  lemma CompactionExactly(rows: seq<Row>, before: nat)
    requires IsTurn(rows)
    ensures Compaction(rows, before) == Ok(NoHost) <==> forall k :: 0 <= k < |rows| ==> !rows[k].host
    ensures Compaction(rows, before) == Ok(CompactionFailed) <==> FailedShape(rows)
    ensures Compaction(rows, before) == Ok(CompactionDone) <==> DoneShape(rows, before)
  {
    FirstHostIs(rows);
    hide FirstHost;
  }

  // ---------------------------------------------------------------- the state before an item

  predicate IsTurnItem(items: seq<Item>, n: nat, k: nat) {
    k < n <= |items| && items[k].Turn? && IsTurn(items[k].rows)
  }

  predicate Completes(items: seq<Item>, n: nat, k: nat, prompt: string) {
    IsTurnItem(items, n, k) && items[k].rows[|items[k].rows| - 1].update.prompt == prompt
  }

  /** Item `k` is a completed compaction with this checkpoint. */
  predicate Checkpoints(items: seq<Item>, n: nat, k: nat, id: string) {
    && IsTurnItem(items, n, k) && |items[k].rows| == 4 && IsHost(items[k].rows)
    && items[k].rows[0].update.Checkpoint? && items[k].rows[0].update.checkpointId == id
  }

  predicate Controls(items: seq<Item>, n: nat, k: nat, owner: string) {
    k < n <= |items| && items[k].Control? && items[k].row.owner == owner
  }

  ghost predicate Completed(items: seq<Item>, n: nat, prompt: string) {
    exists k: nat :: Completes(items, n, k, prompt)
  }

  ghost predicate Checkpointed(items: seq<Item>, n: nat, id: string) {
    exists k: nat :: Checkpoints(items, n, k, id)
  }

  ghost predicate Controlled(items: seq<Item>, n: nat, owner: string) {
    exists k: nat :: Controls(items, n, k, owner)
  }

  function TurnCount(items: seq<Item>, n: nat): nat
    requires n <= |items|
  {
    if n == 0 then 0 else TurnCount(items, n - 1) + if items[n - 1].Turn? then 1 else 0
  }

  /** The owner of the last turn; empty before the first. */
  function LastOwner(owners: seq<string>): string {
    if owners == [] then "" else owners[|owners| - 1]
  }

  ghost predicate OwnersRead(s: State, src: Source, owners: seq<string>) {
    if src.fork.None? then s.ancestors == {} && s.previousOwner == "" && !s.ownTurnSeen
    else
      && s.previousOwner == LastOwner(owners)
      && (forall o :: o in s.ancestors ==> o in owners)
      && (forall o :: o in owners && o != "" ==> o in s.ancestors)
      && (s.ownTurnSeen <==> src.id in owners)
  }

  ghost predicate StateRead(s: State, src: Source, items: seq<Item>, n: nat, lim: Limits)
    requires n <= |items|
  {
    && (forall p :: p in s.prompts <==> Completed(items, n, p))
    && (forall c :: c in s.checkpoints <==> Checkpointed(items, n, c))
    && (forall o :: o in s.controlOwners <==> Controlled(items, n, o))
    && s.modelTurns == ModelTurns(items, n) && s.turns == TurnCount(items, n)
    && s.compactions == s.turns - s.modelTurns
    && OwnersRead(s, src, Owners(src, items, n))
    && (forall t :: t in s.tools ==> t.0 in s.prompts)
    && s.events <= lim.events && s.usages <= lim.usage
  }

  // ---------------------------------------------------------------- what may come next

  /** In a fork a new owner is named, never comes back, never follows the fork's own turns, and
    * the fork's own turns follow the parent's. */
  predicate OwnerFits(src: Source, owners: seq<string>, owner: string) {
    src.fork.Some? && owner != LastOwner(owners) ==>
      && owner != "" && src.id !in owners && owner !in owners
      && (owner == src.id ==> LastOwner(owners) == src.fork.value.parent)
  }

  predicate ControlFits(src: Source, r: Row) {
    && r.update.Background? && r.update.empty && r.ext && r.session && r.prompt.None? && r.numeric && r.owner != ""
    && match src.fork
       case None => r.owner == src.id
       case Some(f) => if r.owner == src.id then f.at <= r.at else r.at <= f.at
  }

  function HostOf(rows: seq<Row>, before: nat): HostTurn {
    if DoneShape(rows, before) then CompactionDone else if FailedShape(rows) then CompactionFailed else NoHost
  }

  function TurnContext(src: Source, rows: seq<Row>, before: nat, lim: Limits): Context
    requires IsTurn(rows)
  {
    Context(src, rows[|rows| - 1].update.prompt, OwnerOf(src, rows), HostOf(rows, before), before, lim)
  }

  ghost predicate TurnFits(src: Source, items: seq<Item>, n: nat, rows: seq<Row>, s: State, lim: Limits)
    requires n <= |items|
  {
    && IsTurn(rows)
    && var before, last := ModelTurns(items, n), rows[|rows| - 1];
       var ctx := TurnContext(src, rows, before, lim);
       && (IsHost(rows) ==>
             (DoneShape(rows, before) || FailedShape(rows)) && src.fork.None? && src.headless)
       && (DoneShape(rows, before) ==> !Checkpointed(items, n, rows[0].update.checkpointId))
       && last.ext && (last.update.stop.EndTurn? || FailedShape(rows))
       && !Completed(items, n, last.update.prompt) && OwnerFits(src, Owners(src, items, n), OwnerOf(src, rows))
       && (forall k :: 0 <= k < |rows| ==> RowFits(rows, k, ctx))
       && s.events + ShownFrom(rows, 0) <= lim.events && s.usages + SampledFrom(rows, 0, ctx) <= lim.usage
       && SamplesOf(last, ctx) <= 500
  }

  lemma TurnStart(s: State, src: Source, items: seq<Item>, n: nat, rows: seq<Row>, lim: Limits)
    requires n <= |items| && IsTurn(rows) && StateRead(s, src, items, n, lim)
    requires !Completed(items, n, rows[|rows| - 1].update.prompt)
    ensures NotBegun(Inner({}, map[], s.tools, false, false, s.events, s.usages, s.frames),
                     TurnContext(src, rows, ModelTurns(items, n), lim))
  {
    hide Completed, Checkpointed, Controlled, OwnersRead;
  }

  lemma OwnerExactly(s: State, src: Source, owners: seq<string>, owner: string)
    requires OwnersRead(s, src, owners)
    ensures LineageBroken(s, src, owner) <==> !OwnerFits(src, owners, owner)
  {
  }

  lemma HostExactly(rows: seq<Row>, before: nat)
    requires IsTurn(rows)
    ensures Compaction(rows, before).Ok? <==> (IsHost(rows) ==> DoneShape(rows, before) || FailedShape(rows))
    ensures Compaction(rows, before).Ok? ==> Compaction(rows, before).value == HostOf(rows, before)
    ensures DoneShape(rows, before) || FailedShape(rows) ==> IsHost(rows)
  {
    CompactionExactly(rows, before);
    FirstHostIs(rows);
    hide Compaction, FirstHost;
  }

  /** A turn is taken exactly if it fits the items before it. */
  lemma TurnTakenExactly(s: State, src: Source, items: seq<Item>, n: nat, rows: seq<Row>, lim: Limits)
    requires n <= |items| && IsTurn(rows) && StateRead(s, src, items, n, lim)
    ensures OnTurn(s, src, rows, lim).Ok? <==> TurnFits(src, items, n, rows, s, lim)
  {
    var before := ModelTurns(items, n);
    HostExactly(rows, before);
    OwnerExactly(s, src, Owners(src, items, n), OwnerOf(src, rows));
    if !Completed(items, n, rows[|rows| - 1].update.prompt) {
      TurnStart(s, src, items, n, rows, lim);
      TurnAcceptedExactly(Inner({}, map[], s.tools, false, false, s.events, s.usages, s.frames),
                          TurnContext(src, rows, before, lim), rows);
    }
    hide Compaction, RowsFrom, RowFits, LineageBroken, OwnerFits, Completed, Checkpointed, Controlled, OwnersRead,
         IsHost,
         ShownFrom, SampledFrom;
  }

  // ---------------------------------------------------------------- one item later

  /** How a turn moves the state. */
  lemma TurnMoves(s: State, src: Source, rows: seq<Row>, lim: Limits)
    requires IsTurn(rows) && OnTurn(s, src, rows, lim).Ok?
    ensures Compaction(rows, s.modelTurns).Ok?
    ensures var next := OnTurn(s, src, rows, lim).value;
            var host := Compaction(rows, s.modelTurns).value;
            var o := Own(s, src, OwnerOf(src, rows));
            var ctx := Context(src, rows[|rows| - 1].update.prompt, OwnerOf(src, rows), host, s.modelTurns, lim);
            var t := RowsFrom(Inner({}, map[], s.tools, false, false, s.events, s.usages, s.frames), ctx, rows, 0);
            && next.prompts == s.prompts + {rows[|rows| - 1].update.prompt}
            && next.checkpoints == (if host.CompactionDone? then s.checkpoints + {rows[0].update.checkpointId}
                                    else s.checkpoints)
            && next.controlOwners == s.controlOwners && next.turns == s.turns + 1
            && next.modelTurns == s.modelTurns + (if host.NoHost? then 1 else 0)
            && next.compactions == s.compactions + (if host.NoHost? then 0 else 1)
            && next.ancestors == o.ancestors && next.previousOwner == o.previousOwner &&
            next.ownTurnSeen == o.ownTurnSeen
            && t.Ok? && next.tools == t.value.tools && next.events == t.value.events && next.usages == t.value.usages
            && next.frames == t.value.frames
  {
    hide RowsFrom, Compaction, LineageBroken;
  }

  lemma OwnersMove(s: State, src: Source, owners: seq<string>, owner: string)
    requires OwnersRead(s, src, owners) && (src.fork.Some? ==> OwnerFits(src, owners, owner))
    ensures OwnersRead(Own(s, src, owner), src, owners + [owner])
  {
    var more := owners + [owner];
    assert forall o :: o in more <==> o in owners || o == owner;
    assert LastOwner(more) == owner;
  }

  lemma {:induction false} ToolsOf(t: Inner, ctx: Context, rows: seq<Row>, i: nat)
    requires i <= |rows| && RowsFrom(t, ctx, rows, i).Ok?
    ensures forall p :: p in RowsFrom(t, ctx, rows, i).value.tools ==> p in t.tools || p.0 == ctx.prompt
    decreases |rows| - i
  {
    hide RowStep;
    if i < |rows| {
      StepKnows(t, ctx, rows, i);
      ToolsOf(RowStep(t, ctx, rows, i).value.0, ctx, rows, RowStep(t, ctx, rows, i).value.1);
    }
  }

  lemma CompletedNext(items: seq<Item>, n: nat, prompt: string, id: string, owner: string)
    requires n < |items|
    ensures var m, item := n + 1, items[n];
            && (Completed(items, m, prompt) <==> Completed(items, n, prompt) || Completes(items, m, n, prompt))
            && (Checkpointed(items, m, id) <==> Checkpointed(items, n, id) || Checkpoints(items, m, n, id))
            && (Controlled(items, m, owner) <==> Controlled(items, n, owner) || Controls(items, m, n, owner))
  {
    var m := n + 1;
    if k: nat :| Completes(items, n, k, prompt) {
      assert Completes(items, m, k, prompt);
    }
    if k: nat :| Checkpoints(items, n, k, id) {
      assert Checkpoints(items, m, k, id);
    }
    if k: nat :| Controls(items, n, k, owner) {
      assert Controls(items, m, k, owner);
    }
    if k: nat :| Completes(items, m, k, prompt) {
      assert k == n || Completes(items, n, k, prompt);
    }
    if k: nat :| Checkpoints(items, m, k, id) {
      assert k == n || Checkpoints(items, n, k, id);
    }
    if k: nat :| Controls(items, m, k, owner) {
      assert k == n || Controls(items, n, k, owner);
    }
  }

  lemma TurnHistory(items: seq<Item>, n: nat, before: nat)
    requires n < |items| && items[n].Turn? && IsTurn(items[n].rows)
    requires IsHost(items[n].rows) ==> DoneShape(items[n].rows, before) || FailedShape(items[n].rows)
    ensures var rows, m := items[n].rows, n + 1;
            && (forall p :: Completed(items, m, p) <==>
                  Completed(items, n, p) || p == rows[|rows| - 1].update.prompt)
            && (forall c :: Checkpointed(items, m, c) <==>
                  Checkpointed(items, n, c) || (DoneShape(rows, before) && c == rows[0].update.checkpointId))
            && (forall o :: Controlled(items, m, o) <==> Controlled(items, n, o))
  {
    hide Completed, Checkpointed, Controlled, IsHost, FailedShape;
    var rows, m := items[n].rows, n + 1;
    OneDone(rows, before);
    forall p
      ensures Completed(items, m, p) <==> Completed(items, n, p) || p == rows[|rows| - 1].update.prompt
    {
      CompletedNext(items, n, p, "", "");
    }
    forall c
      ensures Checkpointed(items, m, c) <==>
              Checkpointed(items, n, c) || (DoneShape(rows, before) && c == rows[0].update.checkpointId)
    {
      CompletedNext(items, n, "", c, "");
    }
    forall o
      ensures Controlled(items, m, o) <==> Controlled(items, n, o)
    {
      CompletedNext(items, n, "", "", o);
    }
  }

  /** Budgets and tools behind a turn. */
  lemma TurnSpends(s: State, src: Source, items: seq<Item>, n: nat, rows: seq<Row>, lim: Limits)
    requires n <= |items| && IsTurn(rows) && StateRead(s, src, items, n, lim) && OnTurn(s, src, rows, lim).Ok?
    ensures var next := OnTurn(s, src, rows, lim).value;
            && next.events <= lim.events && next.usages <= lim.usage
            && (forall t :: t in next.tools ==> t in s.tools || t.0 == rows[|rows| - 1].update.prompt)
            && next.events == s.events + ShownFrom(rows, 0)
            && next.usages == s.usages + SampledFrom(rows, 0, TurnContext(src, rows, s.modelTurns, lim))
            && next.frames == s.frames + FramesFrom(rows, 0, s.events, TurnContext(src, rows, s.modelTurns, lim))
  {
    hide RowsFrom, Compaction, Completed, Checkpointed, Controlled, RowFits, FramesFrom, Own, IsTurn, IsHost,
         DoneShape, FailedShape, ShownFrom, SampledFrom, OnTurn, OwnerFits, OwnersRead;
    TurnTakenExactly(s, src, items, n, rows, lim);
    TurnMoves(s, src, rows, lim);
    HostExactly(rows, s.modelTurns);
    TurnStart(s, src, items, n, rows, lim);
    var t := Inner({}, map[], s.tools, false, false, s.events, s.usages, s.frames);
    var ctx := TurnContext(src, rows, s.modelTurns, lim);
    TurnShows(t, ctx, rows);
    ToolsOf(t, ctx, rows, 0);
  }

  lemma TurnReads(s: State, src: Source, items: seq<Item>, n: nat, lim: Limits)
    requires n < |items| && items[n].Turn? && IsTurn(items[n].rows) && StateRead(s, src, items, n, lim)
    requires OnTurn(s, src, items[n].rows, lim).Ok?
    ensures StateRead(OnTurn(s, src, items[n].rows, lim).value, src, items, n + 1, lim)
  {
    hide OnTurn, RowsFrom, Compaction, Completed, Checkpointed, Controlled, RowFits, FramesFrom, OwnerFits, Own, IsTurn,
         IsHost, DoneShape, FailedShape, OwnersRead, ShownFrom, SampledFrom;
    var rows, m := items[n].rows, n + 1;
    TurnTakenExactly(s, src, items, n, rows, lim);
    TurnMoves(s, src, rows, lim);
    HostExactly(rows, s.modelTurns);
    TurnSpends(s, src, items, n, rows, lim);
    TurnHistory(items, n, s.modelTurns);
    TurnHasRows(rows);
    OwnersMove(s, src, Owners(src, items, n), OwnerOf(src, rows));
    assert Owners(src, items, m) == Owners(src, items, n) + [OwnerOf(src, rows)];
    OwnersSame(Own(s, src, OwnerOf(src, rows)), OnTurn(s, src, rows, lim).value, src, Owners(src, items, m));
  }

  lemma TurnHasRows(rows: seq<Row>)
    requires IsTurn(rows)
    ensures rows != []
  {
  }

  lemma OneDone(rows: seq<Row>, before: nat)
    requires IsTurn(rows)
    requires IsHost(rows) ==> DoneShape(rows, before) || FailedShape(rows)
    ensures DoneShape(rows, before) <==> |rows| == 4 && IsHost(rows) && rows[0].update.Checkpoint?
  {
    FirstHostIs(rows);
  }

  lemma OwnersSame(s: State, t: State, src: Source, owners: seq<string>)
    requires OwnersRead(s, src, owners)
    requires t.ancestors == s.ancestors && t.previousOwner == s.previousOwner && t.ownTurnSeen == s.ownTurnSeen
    ensures OwnersRead(t, src, owners)
  {
  }

  lemma ControlReads(s: State, src: Source, items: seq<Item>, n: nat, lim: Limits)
    requires n < |items| && items[n].Control? && items[n].row.update.Background? && StateRead(s, src, items, n, lim)
    ensures OnControl(s, src, items[n].row).Ok? <==> ControlFits(src, items[n].row)
    ensures OnControl(s, src, items[n].row).Ok? ==>
              StateRead(OnControl(s, src, items[n].row).value, src, items, n + 1, lim)
  {
    hide Completed, Checkpointed, Controlled;
    var m := n + 1;
    forall p
      ensures Completed(items, m, p) <==> Completed(items, n, p)
    {
      CompletedNext(items, n, p, "", "");
    }
    forall c
      ensures Checkpointed(items, m, c) <==> Checkpointed(items, n, c)
    {
      CompletedNext(items, n, "", c, "");
    }
    forall o
      ensures Controlled(items, m, o) <==> Controlled(items, n, o) || o == items[n].row.owner
    {
      CompletedNext(items, n, "", "", o);
    }
    assert Owners(src, items, m) == Owners(src, items, n);
  }

  /** The item fits the items before it and the budgets that they left. */
  ghost predicate ItemFits(src: Source, items: seq<Item>, n: nat, s: State, lim: Limits)
    requires n < |items|
  {
    match items[n]
    case Control(row) => ControlFits(src, row)
    case Turn(rows) => TurnFits(src, items, n, rows, s, lim)
  }

  /** After any accepted items the state is what the items say. */
  lemma {:induction false} StateIsRead(src: Source, items: seq<Item>, n: nat, lim: Limits)
    requires n <= |items| && Run(src, items, n, lim).Ok?
    ensures StateRead(Run(src, items, n, lim).value, src, items, n, lim)
  {
    hide OnTurn, OnControl, StateRead;
    if n == 0 {
      EmptyRead(src, items, lim);
    } else {
      StateIsRead(src, items, n - 1, lim);
      var s := Run(src, items, n - 1, lim).value;
      if items[n - 1].Turn? {
        TurnReads(s, src, items, n - 1, lim);
      } else {
        ControlReads(s, src, items, n - 1, lim);
      }
    }
  }

  lemma EmptyRead(src: Source, items: seq<Item>, lim: Limits)
    ensures StateRead(Empty, src, items, 0, lim)
  {
  }

  /** The next item is taken exactly if it fits. */
  lemma ItemTakenExactly(src: Source, items: seq<Item>, n: nat, lim: Limits)
    requires n < |items| && Run(src, items, n, lim).Ok?
    ensures Run(src, items, n + 1, lim).Ok? <==> ItemFits(src, items, n, Run(src, items, n, lim).value, lim)
  {
    hide OnTurn, OnControl, StateRead, TurnFits;
    StateIsRead(src, items, n, lim);
    var s := Run(src, items, n, lim).value;
    match items[n]
    case Control(row) =>
      if row.update.Background? {
        ControlReads(s, src, items, n, lim);
      }
    case Turn(rows) =>
      if IsTurn(rows) {
        TurnTakenExactly(s, src, items, n, rows, lim);
      } else {
        TurnNeedsForm(src, items, n, rows, s, lim);
      }
  }

  lemma TurnNeedsForm(src: Source, items: seq<Item>, n: nat, rows: seq<Row>, s: State, lim: Limits)
    requires n <= |items|
    ensures TurnFits(src, items, n, rows, s, lim) ==> IsTurn(rows)
  {
  }

  /** What a projected session must have at its end. */
  ghost predicate Complete(src: Source, items: seq<Item>) {
    var n := |items|;
    && ModelTurns(items, n) > 0 && src.turnCount == TurnCount(items, n) && src.userMessages == TurnCount(items, n)
    && src.compactions == TurnCount(items, n) - ModelTurns(items, n)
    && (src.fork.Some? ==> src.id in Owners(src, items, n))
    && forall o :: Controlled(items, n, o) ==> o == src.id || (src.fork.Some? && o in Owners(src, items, n))
  }

  /** A log is projected exactly if it can be cut into items, each item fits those before it, and
    * the session's own counters agree with what was read. */
  lemma ProjectedExactly(src: Source, lim: Limits)
    ensures Project(src, lim).Ok? <==>
            Segment(src.records, 0).Ok?
            && var items := Segment(src.records, 0).value;
               Run(src, items, |items|, lim).Ok? && Complete(src, items)
  {
    hide Run, Segment, StateRead;
    if Segment(src.records, 0).Ok? {
      var items := Segment(src.records, 0).value;
      if Run(src, items, |items|, lim).Ok? {
        StateIsRead(src, items, |items|, lim);
        ControlsHaveOwners(src, items, lim);
        FinalExactly(Run(src, items, |items|, lim).value, src, items, lim);
      }
    }
  }

  lemma FinalExactly(s: State, src: Source, items: seq<Item>, lim: Limits)
    requires StateRead(s, src, items, |items|, lim) && forall o :: Controlled(items, |items|, o) ==> o != ""
    ensures Final(s, src) <==> Complete(src, items)
  {
    hide Completed, Checkpointed, Controlled, Owners, ModelTurns, TurnCount;
  }

  lemma ControlsHaveOwners(src: Source, items: seq<Item>, lim: Limits)
    requires Run(src, items, |items|, lim).Ok?
    ensures forall o :: Controlled(items, |items|, o) ==> o != ""
  {
    forall o | Controlled(items, |items|, o)
      ensures o != ""
    {
      var k: nat :| Controls(items, |items|, k, o);
      RunEarlier(src, items, k, |items|, lim);
      RunEarlier(src, items, k + 1, |items|, lim);
      ItemTakenExactly(src, items, k, lim);
    }
    hide Run;
  }

  lemma RunEarlier(src: Source, items: seq<Item>, m: nat, n: nat, lim: Limits)
    requires m <= n <= |items| && Run(src, items, n, lim).Ok?
    ensures Run(src, items, m, lim).Ok?
  {
    if Run(src, items, m, lim).Err? {
      RunFails(src, items, m, n, lim);
    }
    hide Run;
  }
}
