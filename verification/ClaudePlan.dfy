/** Planning walks the selected path backwards from the leaf; emission reads the file
  * forwards. Both project the same records with the same call table, so the numbers they
  * compute agree. */
module ClaudePlan {
  import opened Base
  import opened ClaudeRecords
  import opened ClaudeProjection
  import opened ClaudeHistory

  /** The node whose record occupies a physical line (`byStart`). */
  function NodeOf(file: seq<Line>, nodes: map<string, Node>, at: Position): Option<Node> {
    if IsRow(file, at) && file[at].record.uuid.Valid? && file[at].record.uuid.id in nodes
       && nodes[file[at].record.uuid.id].ref == at
    then Some(nodes[file[at].record.uuid.id]) else None
  }

  predicate Visible(file: seq<Line>, nodes: map<string, Node>, at: Position) {
    NodeOf(file, nodes, at).Some? && !NodeOf(file, nodes, at).value.rawOnly
  }

  // ---------------------------------------------------------------- planning

  datatype Plan = Plan(selected: set<Position>, latestUsage: map<string, Position>, events: nat)

  const NoPlan := Plan({}, map[], 0)

  /** One chain node of the planning loop. */
  function PlanNode(file: seq<Line>, nodes: map<string, Node>, at: Position, calls: map<string, Call>, plan: Plan)
    : Result<(map<string, Call>, Plan)>
  {
    var chosen := plan.(selected := plan.selected + {at});
    if !Visible(file, nodes, at) then Ok((calls, chosen))
    else
      var r := file[at].record;
      var out :- Project(r, calls);
      var usage := UsageOf(r);
      Ok((out.1, chosen.(events := plan.events + |out.0|,
                         latestUsage := if usage.Some? then plan.latestUsage[usage.value := at] else plan.latestUsage)))
  }

  /** The planning loop over the chain, oldest node first: its state after `path`. */
  function PlanPath(file: seq<Line>, nodes: map<string, Node>, path: seq<Position>): Result<(map<string, Call>, Plan)> {
    if path == [] then Ok((map[], NoPlan))
    else var before :- PlanPath(file, nodes, path[..|path| - 1]);
         PlanNode(file, nodes, path[|path| - 1], before.0, before.1)
  }

  // ---------------------------------------------------------------- emission

  datatype Event = Event(draft: Draft, index: nat)

  /** What one physical line contributes. */
  datatype LineOut = LineOut(at: Position, events: seq<Event>, usage: seq<string>)

  datatype Emission = Emission(calls: map<string, Call>, order: nat, usage: nat)

  function Number(drafts: seq<Draft>, from: nat): (events: seq<Event>)
    ensures |events| == |drafts|
    ensures forall i :: 0 <= i < |drafts| ==> events[i] == Event(drafts[i], from + i)
  {
    seq(|drafts|, i requires 0 <= i < |drafts| => Event(drafts[i], from + i))
  }

  /** The semantic part of `makeFrames` for one line. */
  function EmitLine(file: seq<Line>, nodes: map<string, Node>, plan: Plan, at: Position, e: Emission)
    : Result<(LineOut, Emission)>
  {
    if !(at in plan.selected && Visible(file, nodes, at)) then Ok((LineOut(at, [], []), e))
    else
      var r := file[at].record;
      var out :- Project(r, e.calls);
      var sample := UsageOf(r);
      var counts := sample.Some? && sample.value in plan.latestUsage && plan.latestUsage[sample.value] == at;
      Ok((LineOut(at, Number(out.0, e.order), if counts then [sample.value] else []),
          Emission(out.1, e.order + |out.0|, e.usage + if counts then 1 else 0)))
  }

  const NoEmission := Emission(map[], 0, 0)

  /** The first `n` physical lines, in file order, and the counters after them. */
  function EmitUpTo(file: seq<Line>, nodes: map<string, Node>, plan: Plan, n: nat,
                    e: Emission): Result<(seq<LineOut>, Emission)>
    requires n <= |file|
  {
    if n == 0 then Ok(([], e))
    else
      var before :- EmitUpTo(file, nodes, plan, n - 1, e);
      var last :- EmitLine(file, nodes, plan, n - 1, before.1);
      Ok((before.0 + [last.0], last.1))
  }

  // ---------------------------------------------------------------- planning never fails

  /** The call table a record's projection leaves is the one its commit leaves. */
  lemma {:induction false} BlocksAddCalls(r: Record, uuid: string, slot: nat, blocks: seq<Block>,
                                          calls: map<string, Call>, pending: map<string, Call>)
    requires r.kind == Assistant && ProjectBlocks(r, uuid, slot, blocks, calls).Ok?
    ensures AddCalls(uuid, blocks, calls, pending).Ok?
    ensures AddCalls(uuid, blocks, calls, pending).value.0 == ProjectBlocks(r, uuid, slot, blocks, calls).value.1
    decreases |blocks|
  {
    if blocks != [] {
      var b := blocks[0];
      var first := ProjectBlock(r, uuid, slot, b, calls).value;
      BlocksAddCalls(r, uuid, slot + 1, blocks[1..], first.1,
                     if b.ToolUseBlock? then pending[b.id := Call(uuid, b.name, b.path, b.background)] else pending);
    }
  }

  lemma {:induction false} UserBlocksKeepCalls(r: Record, uuid: string, slot: nat, blocks: seq<Block>,
                                               calls: map<string, Call>)
    requires r.kind == User && ProjectBlocks(r, uuid, slot, blocks, calls).Ok?
    ensures ProjectBlocks(r, uuid, slot, blocks, calls).value.1 == calls
    decreases |blocks|
  {
    if blocks != [] {
      UserBlocksKeepCalls(r, uuid, slot + 1, blocks[1..], calls);
    }
  }

  /** The action of a record that is not a replay copy keeps rows without a role raw. */
  lemma OrdinaryHasRole(file: seq<Line>, r: Record, ctx: Norm)
    requires Normalize(file, r, ctx).Ok? && !Normalize(file, r, ctx).value.rawOnly
    ensures r.uuid.Valid? && !r.isMeta
    ensures r.kind == User || r.kind == Assistant ==> r.message.Some? && r.message.value.role == r.kind
  {
  }

  lemma CommitCalls(file: seq<Line>, r: Record, ctx: Norm, at: Position)
    requires Admit(file, ctx, r, at).Ok? && r.uuid.Valid? && r.uuid.id !in ctx.records
    requires r.notification ==> NotificationShape(r)
    ensures var a := Normalize(file, r, ctx).value;
            var next := Admit(file, ctx, r, at).value;
            if a.rawOnly || r.notification then next.calls == ctx.calls
            else Project(r, ctx.calls).Ok? ==> Project(r, ctx.calls).value.1 == next.calls
  {
    var a := Normalize(file, r, ctx).value;
    if !a.rawOnly && Project(r, ctx.calls).Ok? {
      OrdinaryHasRole(file, r, ctx);
      hide Normalize;
      if r.kind == Assistant {
        var entered := Enter(ctx, r, at, a);
        var m := r.message.value;
        var open := OpenResponse(entered.response, if m.id.Some? then m.id.value else r.uuid.id, m.model);
        BlocksAddCalls(r, r.uuid.id, 0, Blocks(r), ctx.calls, open.pending);
      } else if r.kind == User {
        UserBlocksKeepCalls(r, r.uuid.id, 0, Blocks(r), ctx.calls);
      }
    }
  }

  /** A node projects with the calls of its own path, and leaves the calls of its replay. */
  ghost predicate Projects(file: seq<Line>, nodes: map<string, Node>, u: string)
    requires Rooted(nodes) && u in nodes
  {
    assert Anchored(nodes, u);
    var before := Replay(file, Path(nodes, nodes[u].predecessor));
    var after := Replay(file, Path(nodes, Some(u)));
    && before.Ok? && after.Ok? && IsRow(file, nodes[u].ref)
    && if nodes[u].rawOnly then after.value.calls == before.value.calls
       else
         var out := Project(file[nodes[u].ref].record, before.value.calls);
         out.Ok? && out.value.1 == after.value.calls
  }

  /** What the new node of an admitted record looks like. */
  lemma NewNodeFacts(file: seq<Line>, root: Root, ix: Index, context: Norm, r: Record, at: Position)
    requires AdmitNew(file, root, ix, context, r, at).Ok? && r.uuid.Valid? && r.uuid.id !in context.records
    requires r.notification ==> NotificationShape(r)
    ensures var next := AdmitNew(file, root, ix, context, r, at).value;
            && Admit(file, context, r, at) == Ok(next.context)
            && r.uuid.id in next.nodes
            && var node := next.nodes[r.uuid.id];
               && next.nodes == ix.nodes[r.uuid.id := node] && node.ref == at && node.predecessor == context.leaf
               && if node.rawOnly then next.context.calls == context.calls
                  else Project(r, context.calls).Ok? && Project(r, context.calls).value.1 == next.context.calls
  {
    hide Commit, Project, Normalize;
    CommitCalls(file, r, context, at);
  }

  lemma NewNodeProjects(file: seq<Line>, root: Root, n: nat, ix: Index, context: Norm, r: Record)
    requires Inv(file, n, ix.(context := context)) && n < |file| && file[n] == Row(r)
    requires r.uuid.Valid? && r.uuid.id !in ix.nodes && (r.notification ==> NotificationShape(r))
    requires AdmitNew(file, root, ix, context, r, n).Ok?
    ensures var next := AdmitNew(file, root, ix, context, r, n).value;
            Rooted(next.nodes) && r.uuid.id in next.nodes && Projects(file, next.nodes, r.uuid.id)
  {
    hide Normalize, Commit, Project, AdmitNew, Admit;
    var next := AdmitNew(file, root, ix, context, r, n).value;
    assert Rooted(ix.nodes);
    LiveRecords(file, ix.nodes, context);
    NewNodeFacts(file, root, ix, context, r, n);
    var node := next.nodes[r.uuid.id];
    GrowLeaf(file, n, ix.nodes, context, r, node, next.context);
    PathStable(ix.nodes, next.nodes, context.leaf);
    hide Replay, Path, Rooted, Tree;
  }

  /** Every indexed node can be projected again. */
  lemma {:induction false} NodesProject(file: seq<Line>, root: Root, n: nat, u: string)
    requires n <= |file| && Run(file, root, n).Ok? && u in Run(file, root, n).value.nodes
    ensures Rooted(Run(file, root, n).value.nodes) && Projects(file, Run(file, root, n).value.nodes, u)
  {
    hide Run, Step, Inv, Rooted, Projects;
    var before := RunBefore(file, root, n, u);
    RunKeepsInv(file, root, n);
    RunKeepsInv(file, root, n - 1);
    InvIsRooted(file, n, Run(file, root, n).value);
    InvIsRooted(file, n - 1, before);
    if u in before.nodes {
      NodesProject(file, root, n - 1, u);
      if file[n - 1].Row? {
        StepNodes(file, root, n - 1, before, file[n - 1].record);
        ProjectsStable(file, before.nodes, Run(file, root, n).value.nodes, u);
      }
    } else {
      LastNodeProjects(file, root, n - 1, before, file[n - 1].record, u);
    }
  }

  lemma InvIsRooted(file: seq<Line>, n: nat, ix: Index)
    requires Inv(file, n, ix)
    ensures Rooted(ix.nodes)
  {
  }

  /** The run up to the last line, which either repeats it or takes a step. */
  lemma RunBefore(file: seq<Line>, root: Root, n: nat, u: string) returns (before: Index)
    requires n <= |file| && Run(file, root, n).Ok? && u in Run(file, root, n).value.nodes
    ensures n > 0 && Run(file, root, n - 1) == Ok(before)
    ensures if file[n - 1].Row? then Run(file, root, n) == Step(file, root, before, file[n - 1].record, n - 1)
            else Run(file, root, n) == Ok(before)
  {
    hide Step;
    before := Run(file, root, n - 1).value;
  }

  lemma ProjectsStable(file: seq<Line>, nodes: map<string, Node>, more: map<string, Node>, u: string)
    requires Rooted(nodes) && Rooted(more) && u in nodes && Projects(file, nodes, u)
    requires forall v :: v in nodes ==> v in more && more[v] == nodes[v]
    ensures Projects(file, more, u)
  {
    hide Replay, Project;
    assert Anchored(nodes, u);
    PathStable(nodes, more, nodes[u].predecessor);
    PathStable(nodes, more, Some(u));
    hide Path, Rooted;
  }

  lemma LastNodeProjects(file: seq<Line>, root: Root, n: nat, ix: Index, r: Record, u: string)
    requires Inv(file, n, ix) && n < |file| && file[n] == Row(r) && Step(file, root, ix, r, n).Ok?
    requires u !in ix.nodes && u in Step(file, root, ix, r, n).value.nodes
    ensures var next := Step(file, root, ix, r, n).value; Rooted(next.nodes) && Projects(file, next.nodes, u)
  {
    assert r.notification ==> NotificationShape(r);
    if r.kind == LastPrompt || (r.uuid.Valid? && r.uuid.id in ix.originals) {
      hide Step, Inv;
      SameNodes(file, root, n, ix, r);
      assert false;
    } else {
      assert ix.nodes.Keys == ix.originals.Keys;
      hide Branch, Live, Tree;
      var context := StepBranches(file, root, n, ix, r);
      BranchLands(file, root, n, ix, r);
      assert Inv(file, n, ix.(context := context));
      hide Step, Inv, Projects, Rooted, Normalize, Commit, Admit, Project;
      assert r.uuid.Valid? && r.uuid.id == u;
      NewNodeProjects(file, root, n, ix, context, r);
    }
  }

  ghost predicate Plannable(file: seq<Line>, n: nat, nodes: map<string, Node>) {
    && Tree(file, n, nodes)
    && (forall u {:trigger Projects(file, nodes, u)} :: u in nodes ==> Projects(file, nodes, u))
  }

  lemma RunPlannable(file: seq<Line>, root: Root, n: nat)
    requires n <= |file| && Run(file, root, n).Ok?
    ensures Plannable(file, n, Run(file, root, n).value.nodes)
  {
    RunKeepsInv(file, root, n);
    hide Run, Projects;
    forall u | u in Run(file, root, n).value.nodes
      ensures Projects(file, Run(file, root, n).value.nodes, u)
    {
      NodesProject(file, root, n, u);
    }
  }

  lemma ByStartFindsNode(file: seq<Line>, n: nat, nodes: map<string, Node>, u: string)
    requires Tree(file, n, nodes) && u in nodes
    ensures NodeOf(file, nodes, nodes[u].ref) == Some(nodes[u])
  {
    NodeLine(file, n, nodes, u);
  }

  lemma PlanSnoc(file: seq<Line>, nodes: map<string, Node>, path: seq<Position>, at: Position)
    requires PlanPath(file, nodes, path).Ok?
    ensures PlanPath(file, nodes, path + [at])
            == PlanNode(file, nodes, at, PlanPath(file, nodes, path).value.0, PlanPath(file, nodes, path).value.1)
  {
    assert (path + [at])[..|path|] == path;
  }

  /** Planning any admitted leaf succeeds, with the calls its replay leaves. */
  lemma {:induction false} PlanFollowsReplay(file: seq<Line>, n: nat, nodes: map<string, Node>, leaf: Option<string>)
    requires Plannable(file, n, nodes) && InTree(nodes, leaf)
    ensures PlanPath(file, nodes, Path(nodes, leaf)).Ok?
    ensures leaf.Some? ==> Replay(file, Path(nodes, leaf)).Ok?
    ensures PlanPath(file, nodes, Path(nodes, leaf)).value.0
            == if leaf.Some? then Replay(file, Path(nodes, leaf)).value.calls else map[]
    decreases if leaf.None? then 0 else 1 + nodes[leaf.value].ref
  {
    match leaf
    case None =>
      assert Path(nodes, leaf) == [];
    case Some(u) =>
      hide Project, Admit;
      assert Anchored(nodes, u) && Projects(file, nodes, u);
      var older := nodes[u].predecessor;
      PlanFollowsReplay(file, n, nodes, older);
      assert older.None? ==> Path(nodes, older) == [] && Replay(file, Path(nodes, older)) == Ok(EmptyNorm);
      PlanSnoc(file, nodes, Path(nodes, older), nodes[u].ref);
      ByStartFindsNode(file, n, nodes, u);
      hide Tree, Replay, Rooted;
  }

  lemma {:induction false} PlanSelects(file: seq<Line>, nodes: map<string, Node>, path: seq<Position>)
    requires PlanPath(file, nodes, path).Ok?
    ensures PlanPath(file, nodes, path).value.1.selected == set k | k in path
    ensures forall id :: id in PlanPath(file, nodes, path).value.1.latestUsage ==>
              var at := PlanPath(file, nodes, path).value.1.latestUsage[id];
              at in path && Visible(file, nodes, at) && UsageOf(file[at].record) == Some(id)
  {
    hide Project;
    if path != [] {
      PlanSelects(file, nodes, path[..|path| - 1]);
      assert path == path[..|path| - 1] + [path[|path| - 1]];
    }
  }

  /** Emission at a line stands where planning stood after the selected lines before it. */
  predicate InStep(e: Emission, order: nat, planned: (map<string, Call>, Plan)) {
    e.calls == planned.0 && e.order == order + planned.1.events
  }

  lemma EmitSelected(file: seq<Line>, nodes: map<string, Node>, plan: Plan, at: Position, e: Emission, order: nat,
                     planned: (map<string, Call>, Plan))
    requires InStep(e, order, planned) && at in plan.selected && PlanNode(file, nodes, at, planned.0, planned.1).Ok?
    ensures EmitLine(file, nodes, plan, at, e).Ok?
    ensures InStep(EmitLine(file, nodes, plan, at, e).value.1, order,
                   PlanNode(file, nodes, at, planned.0, planned.1).value)
  {
    hide Project;
  }

  lemma EmitUnselected(file: seq<Line>, nodes: map<string, Node>, plan: Plan, at: Position, e: Emission)
    requires at !in plan.selected
    ensures EmitLine(file, nodes, plan, at, e) == Ok((LineOut(at, [], []), e))
  {
  }

  lemma {:induction false} EmissionTracksPlan(file: seq<Line>, nodes: map<string, Node>, path: seq<Position>,
                                              plan: Plan, n: nat, k: nat, order: nat, usage: nat)
    requires n <= |file| && k <= |path| && PlanPath(file, nodes, path).Ok?
             && PlanPath(file, nodes, path).value.1 == plan
    requires Increasing(path) && Splits(path, n, k)
    ensures PlanPath(file, nodes, path[..k]).Ok?
    ensures var out := EmitUpTo(file, nodes, plan, n, Emission(map[], order, usage));
            out.Ok? && InStep(out.value.1, order, PlanPath(file, nodes, path[..k]).value)
  {
    hide EmitLine, PlanNode, InStep, Splits, Increasing;
    PlanPrefix(file, nodes, path, k);
    if n == 0 {
      assert path[..k] == [] by { SplitsNone(path, k); }
      assert InStep(Emission(map[], order, usage), order, (map[], NoPlan)) by { InStepStart(order, usage); }
    } else {
      var start := Emission(map[], order, usage);
      PlanSelects(file, nodes, path);
      SplitsBefore(path, n, k);
      if k > 0 && path[k - 1] == n - 1 {
        EmissionTracksPlan(file, nodes, path, plan, n - 1, k - 1, order, usage);
        assert path[..k] == path[..k - 1] + [n - 1];
        PlanSnoc(file, nodes, path[..k - 1], n - 1);
        EmitSelected(file, nodes, plan, n - 1, EmitUpTo(file, nodes, plan, n - 1, start).value.1, order,
                     PlanPath(file, nodes, path[..k - 1]).value);
      } else {
        EmissionTracksPlan(file, nodes, path, plan, n - 1, k, order, usage);
        EmitUnselected(file, nodes, plan, n - 1, EmitUpTo(file, nodes, plan, n - 1, start).value.1);
      }
    }
  }

  /** The first `k` lines of the path are those before line `n`. */
  predicate Splits(path: seq<Position>, n: nat, k: nat) {
    k <= |path| && forall i :: 0 <= i < |path| ==> (path[i] < n <==> i < k)
  }

  lemma SplitsBefore(path: seq<Position>, n: nat, k: nat)
    requires Increasing(path) && Splits(path, n, k) && n > 0
    ensures if k > 0 && path[k - 1] == n - 1 then Splits(path, n - 1, k - 1)
            else Splits(path, n - 1, k) && n - 1 !in path
  {
  }

  lemma SplitsNone(path: seq<Position>, k: nat)
    requires Splits(path, 0, k)
    ensures k == 0
  {
    if path != [] {
      assert !(path[0] < 0);
    }
  }

  lemma InStepStart(order: nat, usage: nat)
    ensures InStep(Emission(map[], order, usage), order, (map[], NoPlan))
  {
  }

  lemma {:induction false} PlanPrefix(file: seq<Line>, nodes: map<string, Node>, path: seq<Position>, k: nat)
    requires k <= |path| && PlanPath(file, nodes, path).Ok?
    ensures PlanPath(file, nodes, path[..k]).Ok?
    decreases |path| - k
  {
    if k < |path| {
      PlanPrefix(file, nodes, path, k + 1);
      assert path[..k + 1][..k] == path[..k];
    } else {
      assert path[..k] == path;
    }
  }

  // ---------------------------------------------------------------- exactly once

  function UsageBefore(plan: Plan, n: nat): set<string> {
    set id | id in plan.latestUsage && plan.latestUsage[id] < n
  }

  /** Every line's usage slot is the one the plan chose, and the counter counts them. */
  ghost predicate UsagePlaced(plan: Plan, lines: seq<LineOut>) {
    forall at :: 0 <= at < |lines| ==>
      && |lines[at].usage| <= 1
      && forall id :: id in lines[at].usage <==> id in plan.latestUsage && plan.latestUsage[id] == at
  }

  lemma EmitLineUsage(file: seq<Line>, nodes: map<string, Node>, path: seq<Position>, plan: Plan, at: Position,
                      e: Emission)
    requires PlanPath(file, nodes, path).Ok? && PlanPath(file, nodes, path).value.1 == plan
    requires EmitLine(file, nodes, plan, at, e).Ok?
    ensures var out := EmitLine(file, nodes, plan, at, e).value;
            && |out.0.usage| <= 1 && out.1.usage == e.usage + |out.0.usage|
            && forall id :: id in out.0.usage <==> id in plan.latestUsage && plan.latestUsage[id] == at
  {
    PlanSelects(file, nodes, path);
    hide Project, PlanPath;
  }

  lemma {:induction false} UsageOnce(file: seq<Line>, nodes: map<string, Node>, path: seq<Position>, plan: Plan, n: nat,
                                     e: Emission)
    requires n <= |file| && PlanPath(file, nodes, path).Ok? && PlanPath(file, nodes, path).value.1 == plan
    requires EmitUpTo(file, nodes, plan, n, e).Ok?
    ensures var out := EmitUpTo(file, nodes, plan, n, e).value;
            |out.0| == n && UsagePlaced(plan, out.0) && out.1.usage == e.usage + |UsageBefore(plan, n)|
  {
    hide EmitLine, PlanPath;
    if n == 0 {
      assert UsageBefore(plan, 0) == {};
    } else {
      UsageOnce(file, nodes, path, plan, n - 1, e);
      var before := EmitUpTo(file, nodes, plan, n - 1, e).value;
      EmitLineUsage(file, nodes, path, plan, n - 1, before.1);
      var out := EmitLine(file, nodes, plan, n - 1, before.1).value.0;
      if out.usage == [] {
        assert UsageBefore(plan, n) == UsageBefore(plan, n - 1);
      } else {
        var id := out.usage[0];
        assert id in out.usage;
        assert forall other :: other in out.usage ==> other == id;
        assert UsageBefore(plan, n) == UsageBefore(plan, n - 1) + {id};
      }
    }
  }

  function AllEvents(lines: seq<LineOut>): seq<Event> {
    if lines == [] then [] else AllEvents(lines[..|lines| - 1]) + lines[|lines| - 1].events
  }

  /** Consecutive event numbers. */
  predicate Numbered(from: nat, events: seq<Event>) {
    forall i :: 0 <= i < |events| ==> events[i].index == from + i
  }

  lemma NumberedAppend(from: nat, a: seq<Event>, b: seq<Event>)
    requires Numbered(from, a) && Numbered(from + |a|, b)
    ensures Numbered(from, a + b)
  {
    forall i | 0 <= i < |a + b|
      ensures (a + b)[i].index == from + i
    {
      if i >= |a| {
        assert (a + b)[i] == b[i - |a|];
      }
    }
  }

  lemma EmitLineNumbers(file: seq<Line>, nodes: map<string, Node>, plan: Plan, at: Position, e: Emission)
    requires EmitLine(file, nodes, plan, at, e).Ok?
    ensures var out := EmitLine(file, nodes, plan, at, e).value;
            out.0.at == at && out.1.order == e.order + |out.0.events| && Numbered(e.order, out.0.events)
  {
    hide Project, Visible;
  }

  /** Events are numbered in file order without a gap. */
  lemma {:induction false} EventsNumbered(file: seq<Line>, nodes: map<string, Node>, plan: Plan, n: nat, e: Emission)
    requires n <= |file| && EmitUpTo(file, nodes, plan, n, e).Ok?
    ensures var out := EmitUpTo(file, nodes, plan, n, e).value;
            out.1.order == e.order + |AllEvents(out.0)| && Numbered(e.order, AllEvents(out.0))
  {
    hide EmitLine;
    if n > 0 {
      hide Numbered;
      EventsNumbered(file, nodes, plan, n - 1, e);
      var before := EmitUpTo(file, nodes, plan, n - 1, e).value;
      EmitLineNumbers(file, nodes, plan, n - 1, before.1);
      var last := EmitLine(file, nodes, plan, n - 1, before.1).value;
      assert (before.0 + [last.0])[..|before.0|] == before.0;
      NumberedAppend(e.order, AllEvents(before.0), last.0.events);
    }
  }

  lemma AllBefore(file: seq<Line>, n: nat, nodes: map<string, Node>, leaf: Option<string>)
    requires Tree(file, n, nodes) && InTree(nodes, leaf)
    ensures Splits(Path(nodes, leaf), n, |Path(nodes, leaf)|)
  {
    PathIncreases(nodes, leaf);
    if leaf.Some? {
      NodeLine(file, n, nodes, leaf.value);
    }
    hide Tree, Path, Rooted;
  }

  lemma AllUsage(file: seq<Line>, plan: Plan, path: seq<Position>)
    requires Splits(path, |file|, |path|)
    requires forall id :: id in plan.latestUsage ==> plan.latestUsage[id] in path
    ensures |UsageBefore(plan, |file|)| == |plan.latestUsage|
  {
    assert UsageBefore(plan, |file|) == plan.latestUsage.Keys;
  }

  /** `indexCaptureStream`'s planning of the leaf it ended on. */
  function PlanLeaf(file: seq<Line>, nodes: map<string, Node>, leaf: Option<string>): Result<Plan> {
    var path :- Chain(nodes, leaf, {});
    var planned :- PlanPath(file, nodes, path);
    Ok(planned.1)
  }

  /** Both passes over an unchanged file succeed and agree: the event numbers run on from
    * `order` without a gap, the counters end where planning said they would, and each
    * usage sample is emitted on exactly one line. */
  lemma PassesAgree(file: seq<Line>, root: Root, order: nat, usage: nat)
    requires Run(file, root, |file|).Ok?
    ensures var ix := Run(file, root, |file|).value;
            var plan := PlanLeaf(file, ix.nodes, ix.context.leaf);
            && plan.Ok?
            && var out := EmitUpTo(file, ix.nodes, plan.value, |file|, Emission(map[], order, usage));
               && out.Ok?
               && out.value.1.order == order + plan.value.events
               && out.value.1.usage == usage + |plan.value.latestUsage|
               && |AllEvents(out.value.0)| == plan.value.events
               && Numbered(order, AllEvents(out.value.0))
               && UsagePlaced(plan.value, out.value.0)
  {
    var ix := Run(file, root, |file|).value;
    RunPlannable(file, root, |file|);
    RunKeepsInv(file, root, |file|);
    hide Run, EmitLine, Projects, PlanNode, Visible;
    var leaf, path := ix.context.leaf, Path(ix.nodes, ix.context.leaf);
    ChainIsPath(ix.nodes, leaf, {});
    PlanFollowsReplay(file, |file|, ix.nodes, leaf);
    PathIncreases(ix.nodes, leaf);
    var plan := PlanPath(file, ix.nodes, path).value.1;
    var e := Emission(map[], order, usage);
    AllBefore(file, |file|, ix.nodes, leaf);
    EmissionTracksPlan(file, ix.nodes, path, plan, |file|, |path|, order, usage);
    assert path[..|path|] == path;
    EventsNumbered(file, ix.nodes, plan, |file|, e);
    UsageOnce(file, ix.nodes, path, plan, |file|, e);
    PlanSelects(file, ix.nodes, path);
    AllUsage(file, plan, path);
  }
}
