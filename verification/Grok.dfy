/** The Grok Build projection: turns, forks of forks, host compactions and joined text fragments. */
module Grok {
  import opened Base

  datatype Stop = EndTurn | ErrorStop | OtherStop

  /** Decoded updates. Checks on one row alone are booleans; `models` is None when the usage does not
    * add up. */
  datatype Update =
    | UserChunk(text: Option<string>, command: bool, promptIndex: Option<nat>)
    | AgentChunk(thought: bool, text: Option<string>)
    | ToolCall(toolId: string, supported: bool)
    | ToolUpdate(toolId: string, supported: bool, done: bool)
    | TurnCompleted(prompt: string, stop: Stop, hasUsage: bool, models: Option<nat>, hasResult: bool)
    | Hook
    | Retry(supported: bool)
    | Background(empty: bool)
    | Checkpoint(checkpointId: string, supported: bool, turnsBefore: nat, createdAt: nat)
    | AutoCompact(supported: bool)
    | Unknown

  /** `ext` is the extension method and `plain` the ordinary one; `owner` is the event id up to its
    * last dash and `numeric` says that digits follow; `ownPrefix` that the id starts with the
    * session's id; `host` marks a host command. */
  datatype Row = Row(update: Update, ext: bool, plain: bool, session: bool, event: string, owner: string, numeric: bool,
                     ownPrefix: bool, prompt: Option<string>, host: bool, at: nat, json: string)

  datatype Fork = Fork(parent: string, at: nat)

  datatype Source = Source(id: string, records: seq<Row>, fork: Option<Fork>, headless: bool,
                           turnCount: nat, userMessages: nat, compactions: nat, metadata: string)

  datatype Limits = Limits(events: nat, usage: nat)

  // ---------------------------------------------------------------- segmentation

  datatype Item = Control(row: Row) | Turn(rows: seq<Row>)

  /** The row that completes the turn that starts at `at`. */
  function TurnEnd(records: seq<Row>, at: nat): (end: nat)
    requires at <= |records|
    ensures at <= end <= |records|
    ensures end < |records| ==> records[end].update.TurnCompleted?
    ensures forall k :: at <= k < end ==> !records[k].update.TurnCompleted?
    decreases |records| - at
  {
    if at == |records| || records[at].update.TurnCompleted? then at else TurnEnd(records, at + 1)
  }

  /** Background rows between turns stand alone; everything else belongs to a completed turn. */
  function Segment(records: seq<Row>, at: nat): Result<seq<Item>>
    requires at <= |records|
    decreases |records| - at
  {
    if at == |records| then Ok([])
    else if records[at].update.Background? then
      var rest :- Segment(records, at + 1);
      Ok([Control(records[at])] + rest)
    else
      var end := TurnEnd(records, at);
      if end == |records| then Err(Format)
      else
        var rest :- Segment(records, end + 1);
        Ok([Turn(records[at..end + 1])] + rest)
  }

  function RowsOf(item: Item): seq<Row> {
    match item case Control(row) => [row] case Turn(rows) => rows
  }

  function AllRows(items: seq<Item>): seq<Row> {
    if items == [] then [] else RowsOf(items[0]) + AllRows(items[1..])
  }

  lemma {:induction false} SegmentKeepsRows(records: seq<Row>, at: nat)
    requires at <= |records| && Segment(records, at).Ok?
    ensures AllRows(Segment(records, at).value) == records[at..]
    decreases |records| - at
  {
    if at < |records| {
      if records[at].update.Background? {
        SegmentKeepsRows(records, at + 1);
        assert [records[at]] + records[at + 1..] == records[at..];
      } else {
        var end := TurnEnd(records, at);
        SegmentKeepsRows(records, end + 1);
        assert records[at..end + 1] + records[end + 1..] == records[at..];
      }
    }
  }

  /** A turn is closed by its only completion row. */
  predicate IsTurn(rows: seq<Row>) {
    rows != [] && rows[|rows| - 1].update.TurnCompleted?
    && forall k :: 0 <= k < |rows| - 1 ==> !rows[k].update.TurnCompleted?
  }

  /** Cutting closes every turn by its only completion row, so no turn is refused for its form. */
  lemma {:induction false} SegmentTurns(records: seq<Row>, at: nat)
    requires at <= |records| && Segment(records, at).Ok?
    ensures forall k :: 0 <= k < |Segment(records, at).value| && Segment(records, at).value[k].Turn? ==>
              IsTurn(Segment(records, at).value[k].rows)
    decreases |records| - at
  {
    if at < |records| {
      if records[at].update.Background? {
        SegmentTurns(records, at + 1);
      } else {
        SegmentTurns(records, TurnEnd(records, at) + 1);
      }
    }
  }

  // ---------------------------------------------------------------- host compactions

  datatype HostTurn = NoHost | CompactionFailed | CompactionDone

  function FirstHost(rows: seq<Row>): nat {
    if rows == [] || rows[0].host then 0 else 1 + FirstHost(rows[1..])
  }

  /** `compactionTurn`: a failed command of two rows, or the four-row sequence checkpoint, result,
    * command, completion in the order of its clocks. */
  function Compaction(rows: seq<Row>, modelTurns: nat): Result<HostTurn>
    requires IsTurn(rows)
  {
    var h := FirstHost(rows);
    if h >= |rows| then Ok(NoHost)
    else
      var host, terminal := rows[h].update, rows[|rows| - 1].update;
      if !(host.UserChunk? && host.text.Some? && host.command && host.promptIndex.None?) || terminal.hasUsage then
        Err(Unsupported)
      else if |rows| == 2 && h == 0 && terminal.stop.ErrorStop? && terminal.hasResult && rows[0].at <= rows[1].at then
        Ok(CompactionFailed)
      else if |rows| != 4 || h != 2 || !terminal.stop.EndTurn? || !rows[0].update.Checkpoint?
             || !rows[1].update.AutoCompact?
              || !rows[0].ext || !rows[1].ext then Err(Unsupported)
      else
        var c := rows[0].update;
        if !c.supported || c.turnsBefore != modelTurns || !rows[1].update.supported || c.createdAt != rows[0].at
           || !(rows[2].at <= rows[0].at <= rows[1].at <= rows[3].at) then Err(Unsupported)
        else Ok(CompactionDone)
  }

  // ---------------------------------------------------------------- one turn

  datatype FrameKey = TurnFrame(prompt: string, event: string) | ControlFrame(at: nat, event: string) | MetadataFrame

  /** `raw` holds the source rows that the frame stands for. */
  datatype Frame = Frame(key: FrameKey, first: nat, events: nat, usage: nat, raw: seq<string>)

  /** What a turn knows throughout. */
  datatype Context = Context(src: Source, prompt: string, owner: string, host: HostTurn, modelTurns: nat, lim: Limits)

  /** The mutable locals inside a turn, and the counters and tools it shares with the others. */
  datatype Inner = Inner(seen: set<string>, calls: map<string, bool>, tools: set<(string, string)>, user: bool,
                         assistant: bool, events: nat, usages: nat, frames: seq<Frame>)

  /** `checkIdentity`. */
  predicate Identified(r: Row, ctx: Context, seen: set<string>) {
    && r.session && r.event !in seen
    && if ctx.src.fork.None? then r.ownPrefix
       else r.owner == ctx.owner && r.numeric && OnItsSide(r, ctx.owner, ctx.src)
  }

  /** A fork's own rows come after its creation, copied ones before. */
  predicate OnItsSide(r: Row, owner: string, src: Source) {
    src.fork.Some? ==> if owner == src.id then r.at >= src.fork.value.at else r.at <= src.fork.value.at
  }

  predicate SameSpeaker(a: Update, b: Update) {
    (a.UserChunk? && b.UserChunk?) || (a.AgentChunk? && b.AgentChunk? && a.thought == b.thought)
  }

  predicate OwnPrompt(r: Row, ctx: Context) {
    r.prompt.Some? ==> r.prompt.value == ctx.prompt
  }

  function TextOf(u: Update): Option<string>
    requires u.UserChunk? || u.AgentChunk?
  {
    u.text
  }

  /** The fragments behind row `i` that continue its text; None when one of them is inconsistent. */
  function Fragments(rows: seq<Row>, i: nat, kind: Update, ctx: Context, seen: set<string>): (r: Option<nat>)
    requires i <= |rows| && (kind.UserChunk? || kind.AgentChunk?)
    ensures r.Some? ==> i <= r.value <= |rows|
    decreases |rows| - i
  {
    if i == |rows| || !SameSpeaker(kind, rows[i].update) then Some(i)
    else if !Identified(rows[i], ctx, seen) || !rows[i].plain || !OwnPrompt(rows[i], ctx)
           || TextOf(rows[i].update).None?
            || (kind.UserChunk? && rows[i].update.promptIndex != Some(ctx.modelTurns)) then None
    else Fragments(rows, i + 1, kind, ctx, seen + {rows[i].event})
  }

  function Events(rows: seq<Row>, i: nat, end: nat): set<string>
    requires i <= end <= |rows|
  {
    set k | i <= k < end :: rows[k].event
  }

  function Jsons(rows: seq<Row>): (r: seq<string>)
    ensures |r| == |rows| && forall k :: 0 <= k < |rows| ==> r[k] == rows[k].json
  {
    seq(|rows|, k requires 0 <= k < |rows| => rows[k].json)
  }

  /** `admit`, for the row at `i` and the fragments up to `end`. */
  function Admit(t: Inner, ctx: Context, rows: seq<Row>, i: nat, end: nat, events: nat, usage: nat): Result<Inner>
    requires i < end <= |rows|
  {
    if t.events + events > ctx.lim.events || t.usages + usage > ctx.lim.usage || usage > 500 then Err(Limit)
    else
      var frame := Frame(TurnFrame(ctx.prompt, rows[i].event), t.events, events, usage, Jsons(rows[i..end]));
      Ok(t.(seen := t.seen + Events(rows, i, end), events := t.events + events, usages := t.usages + usage,
            frames := t.frames + [frame]))
  }

  predicate AllDone(calls: map<string, bool>) {
    forall c :: c in calls ==> calls[c]
  }

  predicate UserPlaced(r: Row, ctx: Context, i: nat, user: bool)
    requires r.update.UserChunk?
  {
    !user && if ctx.host.NoHost? then i == 0 && r.update.promptIndex == Some(ctx.modelTurns) else r.host
  }

  /** One row, with the fragments it is joined with: the new state and the next row. */
  function RowStep(t: Inner, ctx: Context, rows: seq<Row>, i: nat): (r: Result<(Inner, nat)>)
    requires i < |rows|
    ensures r.Ok? ==> i < r.value.1 <= |rows|
  {
    var row, u := rows[i], rows[i].update;
    if !Identified(row, ctx, t.seen) || !OwnPrompt(row, ctx) then Err(Unsupported)
    else if !ctx.host.NoHost? && u.TurnCompleted? then
      if !t.user then Err(Format) else var next :- Admit(t, ctx, rows, i, i + 1, 0, 0); Ok((next, i + 1))
    else if !ctx.host.NoHost? && (u.Checkpoint? || u.AutoCompact?) then
      var next :- Admit(t, ctx, rows, i, i + 1, 0, 0); Ok((next, i + 1))
    else if u.TurnCompleted? then
      if !t.user || !t.assistant || !AllDone(t.calls) then Err(Format)
      else if u.models.None? then Err(Unsupported)
      else var next :- Admit(t, ctx, rows, i, i + 1, 0, u.models.value); Ok((next, i + 1))
    else if u.Hook? && row.ext then var next :- Admit(t, ctx, rows, i, i + 1, 0, 0); Ok((next, i + 1))
    else if u.Retry? && t.user && ctx.host.NoHost? then
      if !u.supported || !row.ext then Err(Unsupported)
      else var next :- Admit(t, ctx, rows, i, i + 1, 0, 0); Ok((next, i + 1))
    else if !row.plain then Err(Unsupported)
    else if u.UserChunk? || u.AgentChunk? then
      if (if u.UserChunk? then !UserPlaced(row, ctx, i, t.user) else !t.user) || TextOf(u).None? then Err(Unsupported)
      else
        var end := Fragments(rows, i + 1, u, ctx, t.seen + {row.event});
        if end.None? then Err(Unsupported)
        else
          var next :- Admit(t, ctx, rows, i, end.value, 1, 0);
          Ok((next.(user := true, assistant := t.assistant || (u.AgentChunk? && !u.thought)), end.value))
    else if u.ToolCall? then
      if !t.user then Err(Format)
      else if !u.supported then Err(Unsupported)
      else if (ctx.prompt, u.toolId) in t.tools then Err(Format)
      else
        var next :- Admit(t, ctx, rows, i, i + 1, 1, 0);
        Ok((next.(tools := t.tools + {(ctx.prompt, u.toolId)}, calls := t.calls[u.toolId := false]), i + 1))
    else if u.ToolUpdate? then
      if !t.user || u.toolId !in t.calls || t.calls[u.toolId] then Err(Format)
      else if !u.supported then Err(Unsupported)
      else
        var next :- Admit(t, ctx, rows, i, i + 1, 1, 0);
        Ok((next.(calls := t.calls[u.toolId := u.done]), i + 1))
    else Err(Unsupported)
  }

  function RowsFrom(t: Inner, ctx: Context, rows: seq<Row>, i: nat): Result<Inner>
    requires i <= |rows|
    decreases |rows| - i
  {
    if i == |rows| then Ok(t)
    else
      var step :- RowStep(t, ctx, rows, i);
      RowsFrom(step.0, ctx, rows, step.1)
  }

  // ---------------------------------------------------------------- the session

  /** The mutable locals of `project`. */
  datatype State = State(frames: seq<Frame>, prompts: set<string>, tools: set<(string, string)>, ancestors: set<string>,
                         controlOwners: set<string>, checkpoints: set<string>, previousOwner: string, ownTurnSeen: bool,
                         read: nat, events: nat, usages: nat, turns: nat, modelTurns: nat, compactions: nat)

  const Empty := State([], {}, {}, {}, {}, {}, "", false, 0, 0, 0, 0, 0, 0)

  /** A background row between turns. */
  function OnControl(s: State, src: Source, r: Row): Result<State>
    requires r.update.Background?
  {
    if !r.ext || !r.update.empty || !r.session || r.prompt.Some? || !r.numeric || r.owner == ""
       || (if src.fork.Some? then !OnItsSide(r, r.owner, src) else r.owner != src.id) then Err(Unsupported)
    else
      Ok(s.(controlOwners := s.controlOwners + {r.owner}, read := s.read + 1,
            frames := s.frames + [Frame(ControlFrame(s.read, r.event), s.events, 0, 0, [r.json])]))
  }

  predicate FirstOwn(s: State, src: Source, owner: string) {
    src.fork.Some? && !s.ownTurnSeen && owner == src.id
  }

  /** The copied-prefix rule: owners change at turns, never back, and the parent comes last. */
  predicate LineageBroken(s: State, src: Source, owner: string) {
    && src.fork.Some? && owner != s.previousOwner
    && (owner == "" || s.ownTurnSeen || owner in s.ancestors
        || (FirstOwn(s, src, owner) && s.previousOwner != src.fork.value.parent))
  }

  function Own(s: State, src: Source, owner: string): State {
    var moved :=
      if src.fork.Some? && owner != s.previousOwner then
        s.(ancestors := s.ancestors + {owner}, previousOwner := owner) else s;
    moved.(ownTurnSeen := s.ownTurnSeen || FirstOwn(s, src, owner))
  }

  function OwnerOf(src: Source, rows: seq<Row>): string
    requires rows != []
  {
    if src.fork.Some? then rows[0].owner else src.id
  }

  function OnTurn(s: State, src: Source, rows: seq<Row>, lim: Limits): Result<State>
    requires IsTurn(rows)
  {
    var terminal := rows[|rows| - 1];
    var host :- Compaction(rows, s.modelTurns);
    if !host.NoHost? && (src.fork.Some? || !src.headless) then Err(Unsupported)
    else if host.CompactionDone? && rows[0].update.checkpointId in s.checkpoints then Err(Unsupported)
    else if !terminal.ext || (!terminal.update.stop.EndTurn? && !host.CompactionFailed?)
           || terminal.update.prompt in s.prompts then Err(Unsupported)
    else
      var owner := OwnerOf(src, rows);
      if LineageBroken(s, src, owner) then Err(Unsupported)
      else
        var o := Own(s, src, owner);
        var ctx := Context(src, terminal.update.prompt, owner, host, s.modelTurns, lim);
        var t :- RowsFrom(Inner({}, map[], s.tools, false, false, s.events, s.usages, s.frames), ctx, rows, 0);
        Ok(o.(frames := t.frames, tools := t.tools, events := t.events, usages := t.usages, read := s.read + |rows|,
              prompts := s.prompts + {terminal.update.prompt},
              checkpoints :=
                if host.CompactionDone? then s.checkpoints + {rows[0].update.checkpointId} else s.checkpoints,
              turns := s.turns + 1,
              modelTurns := if host.NoHost? then s.modelTurns + 1 else s.modelTurns,
              compactions := if host.NoHost? then s.compactions else s.compactions + 1))
  }

  function OnItem(s: State, src: Source, item: Item, lim: Limits): Result<State> {
    match item
    case Control(row) => if row.update.Background? then OnControl(s, src, row) else Err(Format)
    case Turn(rows) => if IsTurn(rows) then OnTurn(s, src, rows, lim) else Err(Format)
  }

  function Run(src: Source, items: seq<Item>, n: nat, lim: Limits): Result<State>
    requires n <= |items|
  {
    if n == 0 then Ok(Empty)
    else
      var before :- Run(src, items, n - 1, lim);
      OnItem(before, src, items[n - 1], lim)
  }

  predicate Final(s: State, src: Source) {
    && (src.fork.Some? ==> s.ownTurnSeen) && s.modelTurns > 0
    && (forall o :: o in s.controlOwners ==> o == src.id || o in s.ancestors)
    && src.compactions == s.compactions && src.turnCount == s.turns && src.userMessages == s.turns
  }

  /** `project` with Raw on. */
  function Project(src: Source, lim: Limits): Result<seq<Frame>> {
    var items :- Segment(src.records, 0);
    var s :- Run(src, items, |items|, lim);
    if !Final(s, src) then Err(Format)
    else Ok(s.frames + [Frame(MetadataFrame, s.events, 0, 0, [src.metadata])])
  }

  // ---------------------------------------------------------------- the loops of the source

  /** The rows of one turn, a text joined with its fragments at a time. */
  method ProjectTurn(t: Inner, ctx: Context, rows: seq<Row>) returns (r: Result<Inner>)
    ensures r == RowsFrom(t, ctx, rows, 0)
  {
    hide RowStep;
    var state, index := t, 0;
    while index < |rows|
      invariant 0 <= index <= |rows| && RowsFrom(t, ctx, rows, 0) == RowsFrom(state, ctx, rows, index)
      decreases |rows| - index
    {
      var step := RowStep(state, ctx, rows, index);
      if step.Err? {
        return Err(step.reason);
      }
      state, index := step.value.0, step.value.1;
    }
    r := Ok(state);
  }

  lemma {:induction false} RunPrefix(src: Source, a: seq<Item>, b: seq<Item>, n: nat, lim: Limits)
    requires n <= |a| && a <= b
    ensures Run(src, b, n, lim) == Run(src, a, n, lim)
  {
    hide OnItem;
    if n > 0 {
      RunPrefix(src, a, b, n - 1, lim);
    }
  }

  lemma {:induction false} RunFails(src: Source, items: seq<Item>, m: nat, n: nat, lim: Limits)
    requires m <= n <= |items| && Run(src, items, m, lim).Err?
    ensures Run(src, items, n, lim).Err?
    decreases n - m
  {
    hide OnItem;
    if m < n {
      RunFails(src, items, m, n - 1, lim);
    }
  }

  /** The items behind `at`, or the reason why they cannot be cut. */
  ghost predicate Ahead(src: Source, done: seq<Item>, at: nat)
    requires at <= |src.records|
  {
    var all, rest := Segment(src.records, 0), Segment(src.records, at);
    if rest.Err? then all.Err? else all == Ok(done + rest.value)
  }

  lemma NextItem(src: Source, done: seq<Item>, at: nat, item: Item, next: nat)
    requires at < |src.records| && at < next <= |src.records| && Ahead(src, done, at)
    requires var rest := Segment(src.records, next);
             Segment(src.records, at) == if rest.Err? then Err(rest.reason) else Ok([item] + rest.value)
    ensures Ahead(src, done + [item], next)
  {
    hide Segment;
    var rest := Segment(src.records, next);
    if rest.Ok? {
      Assoc(done, [item], rest.value);
    }
  }

  /** A state that is reached or a failure that shows decide the projection. */
  lemma ItemFails(src: Source, done: seq<Item>, at: nat, lim: Limits)
    requires at <= |src.records| && Ahead(src, done, at) && Run(src, done, |done|, lim).Err?
    ensures Project(src, lim).Err?
  {
    hide Segment, Run;
    var all := Segment(src.records, 0);
    if all.Ok? {
      RunPrefix(src, done, all.value, |done|, lim);
      RunFails(src, all.value, |done|, |all.value|, lim);
    }
  }

  /** `project`: one pass that cuts the log into turns while it projects them. */
  method ProjectSession(src: Source, lim: Limits) returns (r: Result<seq<Frame>>)
    ensures r.Ok? <==> Project(src, lim).Ok?
    ensures r.Ok? ==> r == Project(src, lim)
  {
    hide Run, OnItem, Ahead, Final;
    var at, s := 0, Empty;
    ghost var done: seq<Item> := [];
    StartAhead(src, lim);
    while at < |src.records|
      invariant 0 <= at <= |src.records| && Ahead(src, done, at) && Run(src, done, |done|, lim) == Ok(s)
      decreases |src.records| - at
    {
      var next: Result<State>;
      var item: Item;
      var end := at;
      if src.records[at].update.Background? {
        item := Control(src.records[at]);
      } else {
        while end < |src.records| && !src.records[end].update.TurnCompleted?
          invariant at <= end <= |src.records| && TurnEnd(src.records, at) == TurnEnd(src.records, end)
        {
          end := end + 1;
        }
        if end == |src.records| {
          Unfinished(src, done, at, lim);
          return Err(Format);
        }
        item := Turn(src.records[at..end + 1]);
      }
      NextItem(src, done, at, item, end + 1);
      RunOn(src, done, item, s, lim);
      next := OnItem(s, src, item, lim);
      done := done + [item];
      at := end + 1;
      if next.Err? {
        ItemFails(src, done, at, lim);
        return Err(next.reason);
      }
      s := next.value;
    }
    EndAhead(src, done, lim);
    if !Final(s, src) {
      return Err(Format);
    }
    r := Ok(s.frames + [Frame(MetadataFrame, s.events, 0, 0, [src.metadata])]);
  }

  lemma StartAhead(src: Source, lim: Limits)
    ensures Ahead(src, [], 0) && Run(src, [], 0, lim) == Ok(Empty)
  {
    var all := Segment(src.records, 0);
    assert all.Ok? ==> [] + all.value == all.value;
  }

  lemma Unfinished(src: Source, done: seq<Item>, at: nat, lim: Limits)
    requires at <= |src.records| && Ahead(src, done, at) && Segment(src.records, at).Err?
    ensures Project(src, lim).Err?
  {
  }

  lemma RunOn(src: Source, done: seq<Item>, item: Item, s: State, lim: Limits)
    requires Run(src, done, |done|, lim) == Ok(s)
    ensures Run(src, done + [item], |done| + 1, lim) == OnItem(s, src, item, lim)
  {
    hide OnItem;
    RunPrefix(src, done, done + [item], |done|, lim);
  }

  lemma EndAhead(src: Source, done: seq<Item>, lim: Limits)
    requires Ahead(src, done, |src.records|)
    ensures Segment(src.records, 0) == Ok(done)
  {
    assert done + [] == done;
  }
}
