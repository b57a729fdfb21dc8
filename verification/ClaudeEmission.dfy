/** What a selected Claude path shows: which row carries the usage of a response, which lines
  * carry events, and which blocks of a record they are. */
module ClaudeEmission {
  import opened Base
  import opened ClaudeRecords
  import opened ClaudeProjection
  import opened ClaudeHistory
  import opened ClaudePlan

  // ---------------------------------------------------------------- usage

  /** An assistant row with a complete sample of the response `id`. */
  predicate Samples(r: Record, id: string) {
    r.kind == Assistant && r.usage == Some(id)
  }

  predicate ShowsSample(file: seq<Line>, nodes: map<string, Node>, at: Position, id: string) {
    Visible(file, nodes, at) && Samples(file[at].record, id)
  }

  /** The last row of the path that samples `id`. */
  predicate LastSample(file: seq<Line>, nodes: map<string, Node>, path: seq<Position>, k: nat, id: string) {
    && k < |path| && ShowsSample(file, nodes, path[k], id)
    && forall i :: k < i < |path| ==> !ShowsSample(file, nodes, path[i], id)
  }

  /** Planning keeps a response exactly if some visible row samples it, and keeps the last one. */
  lemma {:induction false} PlanKeepsLast(file: seq<Line>, nodes: map<string, Node>, path: seq<Position>, id: string)
    requires PlanPath(file, nodes, path).Ok?
    ensures var latest := PlanPath(file, nodes, path).value.1.latestUsage;
            && (id in latest <==> exists k :: 0 <= k < |path| && ShowsSample(file, nodes, path[k], id))
            && (id in latest ==> exists k: nat :: LastSample(file, nodes, path, k, id) && path[k] == latest[id])
  {
    if path != [] {
      var n := |path| - 1;
      var older := path[..n];
      PlanKeepsLast(file, nodes, older, id);
      var before, latest := PlanPath(file, nodes, older).value.1.latestUsage,
                            PlanPath(file, nodes, path).value.1.latestUsage;
      hide PlanPath, Project, Visible;
      assert forall k :: 0 <= k < n ==> older[k] == path[k];
      if ShowsSample(file, nodes, path[n], id) {
        assert LastSample(file, nodes, path, n, id);
      } else if id in latest {
        assert id in before;
        var k: nat :| LastSample(file, nodes, older, k, id) && older[k] == before[id];
        assert LastSample(file, nodes, path, k, id);
      }
    }
  }

  /** The sample of a response is shown on the last selected row that carries it, and on no
    * other line. */
  lemma UsageOnLastRow(file: seq<Line>, nodes: map<string, Node>, path: seq<Position>, plan: Plan, n: nat,
                       e: Emission, at: Position, id: string)
    requires at < n <= |file| && Increasing(path)
    requires PlanPath(file, nodes, path).Ok? && PlanPath(file, nodes, path).value.1 == plan
    requires EmitUpTo(file, nodes, plan, n, e).Ok?
    ensures |EmitUpTo(file, nodes, plan, n, e).value.0| == n
    ensures id in EmitUpTo(file, nodes, plan, n, e).value.0[at].usage
            <==> at in path && ShowsSample(file, nodes, at, id)
                 && forall p :: p in path && at < p ==> !ShowsSample(file, nodes, p, id)
  {
    UsageOnce(file, nodes, path, plan, n, e);
    PlanKeepsLast(file, nodes, path, id);
    hide PlanPath, EmitUpTo, ShowsSample;
    if id in plan.latestUsage {
      var k: nat :| LastSample(file, nodes, path, k, id) && path[k] == plan.latestUsage[id];
      assert path[k] in path;
    }
  }

  // ---------------------------------------------------------------- events

  function Drafts(events: seq<Event>): (drafts: seq<Draft>)
    ensures |drafts| == |events|
  {
    seq(|events|, i requires 0 <= i < |events| => events[i].draft)
  }

  lemma NumberedDrafts(drafts: seq<Draft>, from: nat)
    ensures Drafts(Number(drafts, from)) == drafts
  {
  }

  lemma EmittedLine(file: seq<Line>, nodes: map<string, Node>, plan: Plan, at: Position, e: Emission)
    requires EmitLine(file, nodes, plan, at, e).Ok?
    ensures var drafts := Drafts(EmitLine(file, nodes, plan, at, e).value.0.events);
            if at in plan.selected && Visible(file, nodes, at)
            then Project(file[at].record, e.calls).Ok? && drafts == Project(file[at].record, e.calls).value.0
            else drafts == []
  {
    if at in plan.selected && Visible(file, nodes, at) {
      NumberedDrafts(Project(file[at].record, e.calls).value.0, e.order);
    }
    hide Project, Visible;
  }

  /** Lines off the path and Raw-only lines show no event. A visible line of the path shows what
    * its record projects to with the calls made on the path before it. */
  lemma {:induction false} EventsOfPath(file: seq<Line>, nodes: map<string, Node>, path: seq<Position>, plan: Plan,
                                        n: nat, k: nat, order: nat, usage: nat, at: Position)
    requires at < n <= |file| && k <= |path| && Increasing(path) && Splits(path, n, k)
    requires PlanPath(file, nodes, path).Ok? && PlanPath(file, nodes, path).value.1 == plan
    ensures var out := EmitUpTo(file, nodes, plan, n, Emission(map[], order, usage));
            && out.Ok? && |out.value.0| == n && out.value.0[at].at == at
            && var drafts := Drafts(out.value.0[at].events);
               && (!(at in path && Visible(file, nodes, at)) ==> drafts == [])
               && (forall i :: 0 <= i < |path| && path[i] == at && Visible(file, nodes, at) ==>
                     && PlanPath(file, nodes, path[..i]).Ok?
                     && var shown := Project(file[at].record, PlanPath(file, nodes, path[..i]).value.0);
                        shown.Ok? && drafts == shown.value.0)
  {
    hide PlanPath, EmitLine, Project, Visible;
    var start := Emission(map[], order, usage);
    EmissionTracksPlan(file, nodes, path, plan, n, k, order, usage);
    UsageOnce(file, nodes, path, plan, n, start);
    PlanSelects(file, nodes, path);
    SplitsBefore(path, n, k);
    var older := if k > 0 && path[k - 1] == n - 1 then k - 1 else k;
    EmissionTracksPlan(file, nodes, path, plan, n - 1, older, order, usage);
    UsageOnce(file, nodes, path, plan, n - 1, start);
    var before := EmitUpTo(file, nodes, plan, n - 1, start).value;
    assert EmitUpTo(file, nodes, plan, n, start).value.0[..n - 1] == before.0;
    if at < n - 1 {
      EventsOfPath(file, nodes, path, plan, n - 1, older, order, usage, at);
      assert EmitUpTo(file, nodes, plan, n, start).value.0[at] == before.0[at];
    } else {
      EmittedLine(file, nodes, plan, at, before.1);
      EmitLineNumbers(file, nodes, plan, at, before.1);
      assert EmitUpTo(file, nodes, plan, n, start).value.0[at]
             == EmitLine(file, nodes, plan, at, before.1).value.0;
      forall i | 0 <= i < |path| && path[i] == at
        ensures i == older
      {
        assert i < k && k > 0;
        assert path[k - 1] <= at;
      }
    }
  }

  /** The text pieces, thoughts, calls and results of a block that become events. */
  predicate ShowsPart(r: Record, b: Block, part: Option<nat>) {
    match b
    case TextBlock(command, chunks) =>
      !(r.kind == User && command) && if chunks == 1 then part == None else part.Some? && part.value < chunks
    case ThinkingBlock(bodies) =>
      r.kind == Assistant
      && if |bodies| == 1 then part == None && bodies[0]
         else part.Some? && part.value < |bodies| && bodies[part.value]
    case ToolUseBlock(_, _, _, _) => r.kind == Assistant && part == None
    case ToolResultBlock(callId, _) => r.kind == User && callId.Some? && part == None
    case OtherBlock => false
  }

  /** Drafts stand in the order of blocks, and of pieces within a block. */
  predicate Behind(a: Draft, b: Draft) {
    a.slot < b.slot || (a.slot == b.slot && a.part.Some? && b.part.Some? && a.part.value < b.part.value)
  }

  predicate InOrder(drafts: seq<Draft>) {
    forall i, j :: 0 <= i < j < |drafts| ==> Behind(drafts[i], drafts[j])
  }

  lemma {:induction false} PiecesShown(uuid: string, slot: nat, bodies: seq<bool>, at: nat, d: Draft)
    requires at <= |bodies|
    ensures d in Pieces(uuid, slot, bodies, at)
            <==> d.uuid == uuid && d.slot == slot
                 && if |bodies| == 1 then at == 0 && d.part == None && bodies[0]
                    else d.part.Some? && at <= d.part.value < |bodies| && bodies[d.part.value]
    ensures InOrder(Pieces(uuid, slot, bodies, at))
    decreases |bodies| - at
  {
    if at < |bodies| {
      var rest := Pieces(uuid, slot, bodies, at + 1);
      PiecesShown(uuid, slot, bodies, at + 1, d);
      forall e | e in rest
        ensures e.slot == slot && e.part.Some? && at < e.part.value
      {
        PiecesShown(uuid, slot, bodies, at + 1, e);
      }
    }
  }

  lemma BlockShown(r: Record, uuid: string, slot: nat, b: Block, calls: map<string, Call>, d: Draft)
    requires ProjectBlock(r, uuid, slot, b, calls).Ok?
    ensures var drafts := ProjectBlock(r, uuid, slot, b, calls).value.0;
            InOrder(drafts) && (d in drafts <==> d.uuid == uuid && d.slot == slot && ShowsPart(r, b, d.part))
  {
    match b
    case TextBlock(_, chunks) => PiecesShown(uuid, slot, seq(chunks, _ => true), 0, d);
    case ThinkingBlock(bodies) => PiecesShown(uuid, slot, bodies, 0, d);
    case _ =>
  }

  lemma InOrderAppend(a: seq<Draft>, b: seq<Draft>)
    requires InOrder(a) && InOrder(b) && forall d, e :: d in a && e in b ==> Behind(d, e)
    ensures InOrder(a + b)
  {
    forall i, j | 0 <= i < j < |a + b|
      ensures Behind((a + b)[i], (a + b)[j])
    {
      if i < |a| <= j {
        assert a[i] in a && b[j - |a|] in b;
      }
    }
  }

  lemma {:induction false} BlocksShown(r: Record, uuid: string, from: nat, blocks: seq<Block>,
                                       calls: map<string, Call>, d: Draft)
    requires ProjectBlocks(r, uuid, from, blocks, calls).Ok?
    ensures var drafts := ProjectBlocks(r, uuid, from, blocks, calls).value.0;
            InOrder(drafts)
            && (d in drafts <==> d.uuid == uuid && from <= d.slot < from + |blocks|
                                 && ShowsPart(r, blocks[d.slot - from], d.part))
    decreases |blocks|
  {
    if blocks != [] {
      var first := ProjectBlock(r, uuid, from, blocks[0], calls).value;
      var rest := ProjectBlocks(r, uuid, from + 1, blocks[1..], first.1).value;
      BlockShown(r, uuid, from, blocks[0], calls, d);
      BlocksShown(r, uuid, from + 1, blocks[1..], first.1, d);
      hide ProjectBlock, ShowsPart;
      forall e, f | e in first.0 && f in rest.0
        ensures Behind(e, f)
      {
        BlockShown(r, uuid, from, blocks[0], calls, e);
        BlocksShown(r, uuid, from + 1, blocks[1..], first.1, f);
      }
      InOrderAppend(first.0, rest.0);
    }
  }

  /** A conversation record shows exactly its text pieces, thoughts, calls and results, each once
    * and in the order of its blocks; any other record shows nothing. */
  lemma RecordShows(r: Record, calls: map<string, Call>, d: Draft)
    requires Project(r, calls).Ok?
    ensures var drafts := Project(r, calls).value.0;
            InOrder(drafts)
            && (d in drafts <==>
                  && r.uuid == Valid(d.uuid) && !r.isMeta && (r.kind == User || r.kind == Assistant)
                  && r.message.Some? && r.message.value.role == r.kind
                  && d.slot < |Blocks(r)| && ShowsPart(r, Blocks(r)[d.slot], d.part))
  {
    if r.uuid.Valid? {
      if !r.isMeta && (r.kind == User || r.kind == Assistant) && r.message.Some? && r.message.value.role == r.kind {
        BlocksShown(r, r.uuid.id, 0, Blocks(r), calls, d);
      }
    }
    hide ProjectBlocks, ShowsPart;
  }

  // ---------------------------------------------------------------- the whole stream

  /** An indexed stream shows the sample of a response on the last row of the selected path that
    * carries it, and on no other line. */
  lemma StreamUsage(file: seq<Line>, root: Root, order: nat, usage: nat, at: Position, id: string)
    requires Run(file, root, |file|).Ok? && at < |file|
    ensures var ix := Run(file, root, |file|).value;
            var path := Chain(ix.nodes, ix.context.leaf, {});
            var plan := PlanLeaf(file, ix.nodes, ix.context.leaf);
            && path.Ok? && plan.Ok?
            && var out := EmitUpTo(file, ix.nodes, plan.value, |file|, Emission(map[], order, usage));
               && out.Ok? && |out.value.0| == |file|
               && (id in out.value.0[at].usage <==>
                     at in path.value && ShowsSample(file, ix.nodes, at, id)
                     && forall p :: p in path.value && at < p ==> !ShowsSample(file, ix.nodes, p, id))
  {
    PassesAgree(file, root, order, usage);
    RunKeepsInv(file, root, |file|);
    var ix := Run(file, root, |file|).value;
    hide Run, EmitUpTo, ShowsSample, Increasing;
    ChainIsPath(ix.nodes, ix.context.leaf, {});
    PathIncreases(ix.nodes, ix.context.leaf);
    hide Inv, Path, Chain, PlanPath;
    var path := Chain(ix.nodes, ix.context.leaf, {}).value;
    var plan := PlanLeaf(file, ix.nodes, ix.context.leaf).value;
    UsageOnLastRow(file, ix.nodes, path, plan, |file|, Emission(map[], order, usage), at, id);
  }
}
