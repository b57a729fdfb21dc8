/** Indexing one Claude stream: the tree of admitted records, the jumps a branch or an
  * explicit leaf selector makes in it, and the replay that rebuilds the history of a node.
  *
  * Main result: `ReplayRebuildsHistory`. However a file wanders between branches, replay
  * copies and bookkeeping rows, restoring any admitted record rebuilds exactly the
  * history that held when that record was first committed.
  */
module ClaudeHistory {
  import opened Base
  import opened ClaudeRecords
  import opened ClaudeProjection

  datatype Node = Node(ref: Position, predecessor: Option<string>, rawOnly: bool, kind: ControlKind)

  datatype Root = Root(uuid: string, delegated: bool)

  /** The mutable locals of the indexing loop. */
  datatype Index = Index(nodes: map<string, Node>, originals: map<string, Position>, context: Norm, explicitEmpty: bool)

  const EmptyIndex := Index(map[], map[], EmptyNorm, false)

  /** The predecessor chain of a leaf, oldest first; a missing or repeated node is an error. */
  function Chain(nodes: map<string, Node>, leaf: Option<string>, visited: set<string>): Result<seq<Position>>
    decreases nodes.Keys - visited
  {
    match leaf
    case None => Ok([])
    case Some(u) =>
      if u !in nodes || u in visited then Err(Unsupported)
      else var older :- Chain(nodes, nodes[u].predecessor, visited + {u});
           Ok(older + [nodes[u].ref])
  }

  /** Admits the records at the given lines, in order, from nothing. */
  function Replay(file: seq<Line>, path: seq<Position>): Result<Norm> {
    if path == [] then Ok(EmptyNorm)
    else var before :- Replay(file, path[..|path| - 1]);
         var at := path[|path| - 1];
         if IsRow(file, at) then Admit(file, before, file[at].record, at) else Err(Changed)
  }

  function Restore(file: seq<Line>, nodes: map<string, Node>, leaf: Option<string>): Result<Norm> {
    var path :- Chain(nodes, leaf, {});
    Replay(file, path)
  }

  /** A typed task notification is a user row whose content is plain text. */
  predicate NotificationShape(r: Record) {
    r.notificationOk && r.kind == User && Results(r) == []
  }

  predicate GenuineUser(r: Record) {
    r.kind == User && !r.isMeta && !r.notification && Results(r) == [] && !r.summaryFlags
  }

  function Select(file: seq<Line>, root: Root, ix: Index, s: Selector): Result<Index> {
    if !s.explicit then Ok(ix)
    else if s.leaf.Missing? || (s.leaf.Named? && s.leaf.id !in ix.nodes) || root.delegated then Err(Unsupported)
    else var context :- Restore(file, ix.nodes, if s.leaf.Named? then Some(s.leaf.id) else None);
         Ok(ix.(context := context, explicitEmpty := s.leaf.Null?))
  }

  /** A user turn that does not follow the leaf branches off an earlier node. */
  function Branch(file: seq<Line>, root: Root, ix: Index, r: Record): Result<Norm> {
    if GenuineUser(r) && !AtLeaf(r.parent, ix.context.leaf) then
      if root.delegated || !r.parent.Named? || r.parent.id !in ix.nodes then Err(Unsupported)
      else Restore(file, ix.nodes, Some(r.parent.id))
    else Ok(ix.context)
  }

  /** A record that was never seen before, on the path the branch rule chose for it. */
  function AdmitNew(file: seq<Line>, root: Root, ix: Index, context: Norm, r: Record, at: Position): Result<Index> {
    var next :- Admit(file, context, r, at);
    if r.uuid.Absent? then Ok(ix.(context := next))
    else if !r.uuid.Valid? || (ix.nodes == map[] && (r.uuid.id != root.uuid || !r.creationOk)) then Err(Changed)
    else
      var a := Normalize(file, r, context).value;
      var rawOnly := a.rawOnly || r.notification;
      var _ :- if rawOnly then Ok(([], context.calls)) else Project(r, context.calls);
      Ok(Index(ix.nodes[r.uuid.id := Node(at, context.leaf, rawOnly, a.kind)],
               ix.originals[r.uuid.id := at], next, false))
  }

  /** A physical repetition of an admitted record. */
  function AdmitCopy(file: seq<Line>, ix: Index, r: Record, at: Position): Result<Index>
    requires r.uuid.Valid?
  {
    if r.uuid.id !in ix.context.records then Err(Unsupported)
    else var a :- Normalize(file, r, ix.context);
         if !a.copy then Err(Unsupported)
         else var context :- Admit(file, ix.context, r, at);
              Ok(ix.(context := context, originals := ix.originals[r.uuid.id := at]))
  }

  /** One physical record of the indexing loop. */
  function Step(file: seq<Line>, root: Root, ix: Index, r: Record, at: Position): Result<Index> {
    if (r.notification && !NotificationShape(r)) || !r.sessionOk then Err(Unsupported)
    else if r.kind == LastPrompt then
      if !r.bookkeeping || r.selector.None? || !r.selector.value.shape then Err(Unsupported)
      else Select(file, root, ix, r.selector.value)
    else if r.uuid.Valid? && r.uuid.id in ix.originals then AdmitCopy(file, ix, r, at)
    else
      var context :- Branch(file, root, ix, r);
      if GenuineUser(r) && r.parent == Null && ix.nodes != map[] && !ix.explicitEmpty then Err(Unsupported)
      else AdmitNew(file, root, ix, context, r, at)
  }

  /** The index after the first `n` lines. */
  function Run(file: seq<Line>, root: Root, n: nat): Result<Index>
    requires n <= |file|
  {
    if n == 0 then Ok(EmptyIndex)
    else var ix :- Run(file, root, n - 1);
         match file[n - 1]
         case Blank => Ok(ix)
         case Row(r) => Step(file, root, ix, r, n - 1)
  }

  // ---------------------------------------------------------------- equality of histories

  /** Same records in the same order and of the same kinds, same calls, same leaf. */
  predicate SameRecords(a: Norm, b: Norm) {
    && a.recordOrder == b.recordOrder && a.records.Keys == b.records.Keys
    && (forall u :: u in a.records ==> a.records[u].kind == b.records[u].kind)
    && a.calls == b.calls && a.leaf == b.leaf
  }

  /** Everything the next decision can depend on, except which replay copy was seen last. */
  predicate SameHistory(a: Norm, b: Norm) {
    SameRecords(a, b) && a.continuation == b.continuation && a.response == b.response
  }

  /** A live context against the replay of its own path: equal, unless replay copies are
    * being skipped, which only a compaction boundary can end. */
  predicate Tracks(live: Norm, base: Norm) {
    && SameRecords(live, base)
    && (SameHistory(live, base)
        || (live.continuation == Some(Copies) && !(base.continuation.Some? && base.continuation.value.AwaitSummary?)))
  }

  lemma TracksDecision(file: seq<Line>, r: Record, live: Norm, base: Norm)
    requires Tracks(live, base) && r.uuid.Valid? && r.uuid.id !in live.records
    requires Normalize(file, r, live).Ok?
    ensures Normalize(file, r, base) == Normalize(file, r, live)
    ensures !Normalize(file, r, live).value.copy
    ensures live.continuation == Some(Copies) ==>
              var a := Normalize(file, r, live).value; a.kind == Boundary && a.rawOnly
  {
    if r.boundary.Some? {
      assert SourceBoundary(r, live) == SourceBoundary(r, base);
    } else if SameHistory(live, base) {
      assert OrdinaryParent(r, live) == OrdinaryParent(r, base);
    }
  }

  lemma TracksCommit(r: Record, at: Position, a: Action, live: Norm, base: Norm)
    requires Tracks(live, base) && r.uuid.Valid? && r.uuid.id !in live.records && !a.copy
    requires live.continuation == Some(Copies) ==> a.kind == Boundary && a.rawOnly
    requires Commit(live, r, at, a).Ok?
    ensures Commit(base, r, at, a).Ok?
    ensures SameHistory(Commit(live, r, at, a).value, Commit(base, r, at, a).value)
  {
    hide AddCalls, Blocks, OpenResponse, CloseCalls, Results;
    var l, b := Enter(live, r, at, a), Enter(base, r, at, a);
    assert SameHistory(l, b);
  }

  /** Admitting a new record to a live context and to the replay of its path agree. */
  lemma TracksAdmit(file: seq<Line>, r: Record, at: Position, live: Norm, base: Norm)
    requires Tracks(live, base) && r.uuid.Valid? && r.uuid.id !in live.records
    requires Admit(file, live, r, at).Ok?
    ensures Admit(file, base, r, at).Ok?
    ensures SameHistory(Admit(file, live, r, at).value, Admit(file, base, r, at).value)
  {
    TracksDecision(file, r, live, base);
    TracksCommit(r, at, Normalize(file, r, live).value, live, base);
  }

  // ---------------------------------------------------------------- the predecessor tree

  predicate Anchored(nodes: map<string, Node>, u: string)
    requires u in nodes
  {
    nodes[u].predecessor.Some? ==>
      var p := nodes[u].predecessor.value; p in nodes && nodes[p].ref < nodes[u].ref
  }

  ghost predicate Rooted(nodes: map<string, Node>) {
    forall u {:trigger Anchored(nodes, u)} :: u in nodes ==> Anchored(nodes, u)
  }

  ghost predicate InTree(nodes: map<string, Node>, leaf: Option<string>) {
    leaf.Some? ==> leaf.value in nodes
  }

  /** The chain without its run-time guards. */
  ghost function Path(nodes: map<string, Node>, leaf: Option<string>): (p: seq<Position>)
    requires Rooted(nodes) && InTree(nodes, leaf)
    decreases if leaf.None? then 0 else 1 + nodes[leaf.value].ref
  {
    match leaf
    case None => []
    case Some(u) => assert Anchored(nodes, u); Path(nodes, nodes[u].predecessor) + [nodes[u].ref]
  }

  lemma {:induction false} ChainIsPath(nodes: map<string, Node>, leaf: Option<string>, visited: set<string>)
    requires Rooted(nodes) && InTree(nodes, leaf)
    requires leaf.Some? ==> forall v :: v in visited ==> v in nodes && nodes[leaf.value].ref < nodes[v].ref
    ensures Chain(nodes, leaf, visited) == Ok(Path(nodes, leaf))
    decreases if leaf.None? then 0 else 1 + nodes[leaf.value].ref
  {
    if leaf.Some? {
      assert Anchored(nodes, leaf.value);
      ChainIsPath(nodes, nodes[leaf.value].predecessor, visited + {leaf.value});
    }
  }

  /** Later nodes do not disturb the path of an earlier one. */
  lemma {:induction false} PathStable(nodes: map<string, Node>, more: map<string, Node>, leaf: Option<string>)
    requires Rooted(nodes) && Rooted(more) && InTree(nodes, leaf)
    requires forall u :: u in nodes ==> u in more && more[u] == nodes[u]
    ensures Path(more, leaf) == Path(nodes, leaf)
    decreases if leaf.None? then 0 else 1 + nodes[leaf.value].ref
  {
    if leaf.Some? {
      assert Anchored(nodes, leaf.value);
      PathStable(nodes, more, nodes[leaf.value].predecessor);
    }
  }

  /** Predecessor offsets strictly decrease: a chain visits physical lines in file order. */
  lemma {:induction false} PathIncreases(nodes: map<string, Node>, leaf: Option<string>)
    requires Rooted(nodes) && InTree(nodes, leaf)
    ensures Increasing(Path(nodes, leaf))
    ensures leaf.Some? ==> AtMost(Path(nodes, leaf), nodes[leaf.value].ref)
    ensures leaf.None? ==> Path(nodes, leaf) == []
    decreases if leaf.None? then 0 else 1 + nodes[leaf.value].ref
  {
    if leaf.Some? {
      assert Anchored(nodes, leaf.value);
      PathIncreases(nodes, nodes[leaf.value].predecessor);
    }
  }

  // ---------------------------------------------------------------- the indexing invariant

  /** The replay of one node succeeds and ends at that node, over known records only. */
  ghost predicate Replayable(file: seq<Line>, nodes: map<string, Node>, leaf: Option<string>)
    requires Rooted(nodes) && InTree(nodes, leaf)
  {
    var r := Replay(file, Path(nodes, leaf));
    r.Ok? && r.value.leaf == leaf && r.value.records.Keys <= nodes.Keys
  }

  /** Every node names its line, hangs under an earlier node and can be replayed. */
  ghost predicate Tree(file: seq<Line>, n: nat, nodes: map<string, Node>) {
    && Rooted(nodes)
    && (forall u :: u in nodes ==>
          nodes[u].ref < n && IsRow(file, nodes[u].ref) && file[nodes[u].ref].record.uuid == Valid(u))
    && (forall u {:trigger Replayable(file, nodes, Some(u))} :: u in nodes ==> Replayable(file, nodes, Some(u)))
  }

  /** The live context sits on a node of the tree and tracks the replay of its path. */
  ghost predicate Live(file: seq<Line>, nodes: map<string, Node>, context: Norm)
    requires Rooted(nodes)
  {
    && InTree(nodes, context.leaf) && Replayable(file, nodes, context.leaf)
    && Tracks(context, Replay(file, Path(nodes, context.leaf)).value)
  }

  ghost predicate Inv(file: seq<Line>, n: nat, ix: Index) {
    && Tree(file, n, ix.nodes) && Live(file, ix.nodes, ix.context)
    && ix.originals.Keys == ix.nodes.Keys
    && (ix.context.leaf.None? && ix.nodes != map[] ==> ix.explicitEmpty)
  }

  lemma RestoreIsReplay(file: seq<Line>, nodes: map<string, Node>, leaf: Option<string>)
    requires Rooted(nodes) && InTree(nodes, leaf)
    ensures Restore(file, nodes, leaf) == Replay(file, Path(nodes, leaf))
  {
    hide Replay, Path;
    ChainIsPath(nodes, leaf, {});
    hide Rooted, Chain;
  }

  lemma ReplayableAt(file: seq<Line>, n: nat, nodes: map<string, Node>, leaf: Option<string>)
    requires Tree(file, n, nodes) && InTree(nodes, leaf)
    ensures Replayable(file, nodes, leaf)
  {
    hide Rooted, Admit;
    if leaf.Some? {
      hide Replay, Path;
      assert Replayable(file, nodes, Some(leaf.value));
    } else {
      assert Path(nodes, leaf) == [];
    }
  }

  /** A jump lands exactly on the replay of its target. */
  lemma JumpLands(file: seq<Line>, n: nat, nodes: map<string, Node>, leaf: Option<string>)
    requires Tree(file, n, nodes) && InTree(nodes, leaf)
    ensures Restore(file, nodes, leaf) == Replay(file, Path(nodes, leaf))
    ensures Restore(file, nodes, leaf).Ok? && Restore(file, nodes, leaf).value.leaf == leaf
    ensures Live(file, nodes, Restore(file, nodes, leaf).value)
  {
    RestoreIsReplay(file, nodes, leaf);
    ReplayableAt(file, n, nodes, leaf);
    var landed := Restore(file, nodes, leaf).value;
    TracksSelf(landed, landed);
    hide Tree, Rooted, Restore, Replay, Path, Tracks;
  }

  lemma RootedGrow(nodes: map<string, Node>, u: string, node: Node)
    requires Rooted(nodes) && u !in nodes && InTree(nodes, node.predecessor)
    requires node.predecessor.Some? ==> nodes[node.predecessor.value].ref < node.ref
    ensures Rooted(nodes[u := node])
  {
    var more := nodes[u := node];
    forall v {:trigger Anchored(more, v)} | v in more
      ensures Anchored(more, v)
    {
      assert v in nodes ==> Anchored(nodes, v);
    }
  }

  /** The replay of a new node equals the live context right after its commit. */
  lemma GrowLeaf(file: seq<Line>, n: nat, nodes: map<string, Node>, context: Norm, r: Record, node: Node, next: Norm)
    requires Tree(file, n, nodes) && Live(file, nodes, context) && n < |file| && file[n] == Row(r)
    requires r.uuid.Valid? && r.uuid.id !in nodes
    requires node.ref == n && node.predecessor == context.leaf
    requires Admit(file, context, r, n) == Ok(next)
    ensures var more := nodes[r.uuid.id := node];
            && Rooted(more) && Replayable(file, more, Some(r.uuid.id))
            && next.leaf == Some(r.uuid.id)
            && SameHistory(next, Replay(file, Path(more, Some(r.uuid.id))).value)
            && Live(file, more, next)
  {
    var u := r.uuid.id;
    var more := nodes[u := node];
    var path := Path(nodes, context.leaf);
    var base := Replay(file, path).value;
    assert u !in context.records by { assert context.records.Keys == base.records.Keys; }
    TracksAdmit(file, r, n, context, base);
    AdmitLists(file, context, r, n);
    AdmitLists(file, base, r, n);
    RootedGrow(nodes, u, node);
    PathStable(nodes, more, context.leaf);
    assert Path(more, Some(u)) == path + [n];
    ReplaySnoc(file, path, n);
    TracksSelf(Replay(file, path + [n]).value, next);
    hide Admit, Replay, Path, Tracks, SameHistory;
  }

  lemma TracksSelf(base: Norm, live: Norm)
    ensures SameHistory(live, base) ==> Tracks(live, base) && live.leaf == base.leaf
  {
  }

  lemma AdmitLists(file: seq<Line>, ctx: Norm, r: Record, at: Position)
    requires r.uuid.Valid? && r.uuid.id !in ctx.records && Admit(file, ctx, r, at).Ok?
    ensures var next := Admit(file, ctx, r, at).value;
            && next.leaf == Some(r.uuid.id) && next.records.Keys == ctx.records.Keys + {r.uuid.id}
            && next.recordOrder == ctx.recordOrder + [r.uuid.id]
  {
    assert !Normalize(file, r, ctx).value.copy;
  }

  lemma ReplaySnoc(file: seq<Line>, path: seq<Position>, at: Position)
    requires Replay(file, path).Ok? && IsRow(file, at)
    ensures Replay(file, path + [at]) == Admit(file, Replay(file, path).value, file[at].record, at)
  {
    hide Admit;
    assert (path + [at])[..|path|] == path;
  }

  lemma GrowTree(file: seq<Line>, n: nat, nodes: map<string, Node>, r: Record, node: Node)
    requires Tree(file, n, nodes) && n < |file| && file[n] == Row(r)
    requires r.uuid.Valid? && r.uuid.id !in nodes && node.ref == n
    requires Rooted(nodes[r.uuid.id := node]) && Replayable(file, nodes[r.uuid.id := node], Some(r.uuid.id))
    ensures Tree(file, n + 1, nodes[r.uuid.id := node])
  {
    hide Replay;
    var more := nodes[r.uuid.id := node];
    forall v | v in more
      ensures Replayable(file, more, Some(v))
    {
      if v in nodes {
        PathStable(nodes, more, Some(v));
        assert Replayable(file, nodes, Some(v));
      }
    }
  }

  /** Rows without an identity leave the path alone, and so do replay copies. */
  lemma Linger(file: seq<Line>, ctx: Norm, base: Norm, r: Record, at: Position)
    requires r.uuid.Absent? || (r.uuid.Valid? && r.uuid.id in ctx.records)
    requires Tracks(ctx, base) && Admit(file, ctx, r, at).Ok?
    ensures Tracks(Admit(file, ctx, r, at).value, base)
    ensures Admit(file, ctx, r, at).value.leaf == ctx.leaf
  {
    if r.uuid.Absent? {
      assert Normalize(file, r, ctx) == Ok(Action(true, false, Ordinary, ctx.continuation));
    } else {
      assert Normalize(file, r, ctx) == Ok(Action(true, true, ctx.records[r.uuid.id].kind, Some(Copies)));
    }
  }

  lemma LingerLive(file: seq<Line>, nodes: map<string, Node>, ctx: Norm, r: Record, at: Position)
    requires Rooted(nodes) && Live(file, nodes, ctx)
    requires r.uuid.Absent? || (r.uuid.Valid? && r.uuid.id in ctx.records)
    requires Admit(file, ctx, r, at).Ok?
    ensures Admit(file, ctx, r, at).value.leaf == ctx.leaf
    ensures Live(file, nodes, Admit(file, ctx, r, at).value)
  {
    hide Replay, Path;
    Linger(file, ctx, Replay(file, Path(nodes, ctx.leaf)).value, r, at);
    hide Admit, Tracks;
  }

  lemma BranchLands(file: seq<Line>, root: Root, n: nat, ix: Index, r: Record)
    requires Inv(file, n, ix) && Branch(file, root, ix, r).Ok?
    ensures Rooted(ix.nodes)
    ensures var context := Branch(file, root, ix, r).value;
            Live(file, ix.nodes, context) && (ix.nodes != map[] && context.leaf.None? ==> ix.explicitEmpty)
  {
    hide Restore, Replay, Live;
    if GenuineUser(r) && !AtLeaf(r.parent, ix.context.leaf) {
      JumpLands(file, n, ix.nodes, Some(r.parent.id));
    }
  }

  lemma TreeLater(file: seq<Line>, n: nat, nodes: map<string, Node>)
    requires Tree(file, n, nodes)
    ensures Tree(file, n + 1, nodes)
  {
    hide Replayable, Rooted;
  }

  lemma NewKeepsInv(file: seq<Line>, root: Root, n: nat, ix: Index, context: Norm, r: Record)
    requires Inv(file, n, ix.(context := context)) && n < |file| && file[n] == Row(r)
    requires !(r.uuid.Valid? && r.uuid.id in ix.originals)
    requires AdmitNew(file, root, ix, context, r, n).Ok?
    ensures Inv(file, n + 1, AdmitNew(file, root, ix, context, r, n).value)
  {
    hide Normalize, Commit, Project, Live, Replayable, Admit;
    var next := Admit(file, context, r, n).value;
    TreeLater(file, n, ix.nodes);
    assert Rooted(ix.nodes);
    if r.uuid.Absent? {
      LingerLive(file, ix.nodes, context, r, n);
      hide Tree;
    } else {
      var node := AdmitNew(file, root, ix, context, r, n).value.nodes[r.uuid.id];
      GrowLeaf(file, n, ix.nodes, context, r, node, next);
      GrowTree(file, n, ix.nodes, r, node);
      hide Tree;
    }
  }

  lemma CopyKeepsInv(file: seq<Line>, n: nat, ix: Index, r: Record)
    requires Inv(file, n, ix) && r.uuid.Valid? && r.uuid.id in ix.originals
    requires AdmitCopy(file, ix, r, n).Ok?
    ensures Inv(file, n + 1, AdmitCopy(file, ix, r, n).value)
  {
    hide Normalize, Commit, Admit, Live, Replayable;
    TreeLater(file, n, ix.nodes);
    assert Rooted(ix.nodes);
    hide Tree, Rooted;
    LingerLive(file, ix.nodes, ix.context, r, n);
  }

  lemma SelectKeepsInv(file: seq<Line>, root: Root, n: nat, ix: Index, s: Selector)
    requires Inv(file, n, ix) && Select(file, root, ix, s).Ok?
    ensures Inv(file, n + 1, Select(file, root, ix, s).value)
  {
    TreeLater(file, n, ix.nodes);
    if s.explicit {
      JumpLands(file, n, ix.nodes, if s.leaf.Named? then Some(s.leaf.id) else None);
    }
    hide Tree, Live, Restore;
  }

  lemma StepKeepsInv(file: seq<Line>, root: Root, n: nat, ix: Index, r: Record)
    requires Inv(file, n, ix) && n < |file| && file[n] == Row(r)
    requires Step(file, root, ix, r, n).Ok?
    ensures Inv(file, n + 1, Step(file, root, ix, r, n).value)
  {
    if r.kind == LastPrompt {
      SelectKeepsInv(file, root, n, ix, r.selector.value);
    } else if r.uuid.Valid? && r.uuid.id in ix.originals {
      CopyKeepsInv(file, n, ix, r);
    } else {
      BranchLands(file, root, n, ix, r);
      NewKeepsInv(file, root, n, ix, Branch(file, root, ix, r).value, r);
    }
    hide Tree, Live, AdmitNew, AdmitCopy, Select, Branch;
  }

  lemma StartInv(file: seq<Line>)
    ensures Inv(file, 0, EmptyIndex)
  {
    assert Tracks(EmptyNorm, Replay(file, []).value);
  }

  lemma BlankKeepsInv(file: seq<Line>, n: nat, ix: Index)
    requires Inv(file, n, ix)
    ensures Inv(file, n + 1, ix)
  {
    TreeLater(file, n, ix.nodes);
    hide Tree, Live;
  }

  lemma {:induction false} RunKeepsInv(file: seq<Line>, root: Root, n: nat)
    requires n <= |file| && Run(file, root, n).Ok?
    ensures Inv(file, n, Run(file, root, n).value)
  {
    hide Step, Inv;
    if n == 0 {
      StartInv(file);
    } else {
      RunKeepsInv(file, root, n - 1);
      var ix := Run(file, root, n - 1).value;
      if file[n - 1].Row? {
        StepKeepsInv(file, root, n - 1, ix, file[n - 1].record);
      } else {
        BlankKeepsInv(file, n - 1, ix);
      }
    }
  }

  // ---------------------------------------------------------------- main results

  /** A new record never leaves the history in the middle of replay copies. */
  lemma FreshEndsCopies(file: seq<Line>, ctx: Norm, r: Record, at: Position)
    requires r.uuid.Valid? && r.uuid.id !in ctx.records && Admit(file, ctx, r, at).Ok?
    ensures Admit(file, ctx, r, at).value.continuation != Some(Copies)
  {
    var a := Normalize(file, r, ctx).value;
    assert a.continuation != Some(Copies);
    hide Normalize;
  }

  /** Nothing is removed, and a new node names line `n` and is where the history now stands. */
  predicate AddsAtMost(n: nat, ix: Index, next: Index) {
    && (forall u :: u in ix.nodes ==> u in next.nodes && next.nodes[u] == ix.nodes[u])
    && (forall u :: u in next.nodes && u !in ix.nodes ==>
          next.nodes[u].ref == n && next.context.leaf == Some(u) && next.context.continuation != Some(Copies))
  }

  lemma NewNodes(file: seq<Line>, root: Root, n: nat, ix: Index, context: Norm, r: Record)
    requires context.records.Keys <= ix.nodes.Keys && !(r.uuid.Valid? && r.uuid.id in ix.nodes)
    requires AdmitNew(file, root, ix, context, r, n).Ok?
    ensures AddsAtMost(n, ix, AdmitNew(file, root, ix, context, r, n).value)
  {
    hide Normalize, Commit, Admit, Project;
    if r.uuid.Valid? {
      FreshEndsCopies(file, context, r, n);
      AdmitLists(file, context, r, n);
    }
  }

  lemma SameNodes(file: seq<Line>, root: Root, n: nat, ix: Index, r: Record)
    requires Step(file, root, ix, r, n).Ok?
    requires r.kind == LastPrompt || (r.uuid.Valid? && r.uuid.id in ix.originals)
    ensures Step(file, root, ix, r, n).value.nodes == ix.nodes
  {
    hide AdmitNew, Branch, Admit, Normalize, Restore;
  }

  lemma StepBranches(file: seq<Line>, root: Root, n: nat, ix: Index, r: Record) returns (context: Norm)
    requires Step(file, root, ix, r, n).Ok? && r.kind != LastPrompt && !(r.uuid.Valid? && r.uuid.id in ix.originals)
    ensures Branch(file, root, ix, r) == Ok(context)
    ensures Step(file, root, ix, r, n) == AdmitNew(file, root, ix, context, r, n)
  {
    hide Branch, AdmitNew;
    context := Branch(file, root, ix, r).value;
  }

  lemma NewRecordNodes(file: seq<Line>, root: Root, n: nat, ix: Index, r: Record)
    requires Inv(file, n, ix) && Step(file, root, ix, r, n).Ok?
    requires r.kind != LastPrompt && !(r.uuid.Valid? && r.uuid.id in ix.originals)
    ensures AddsAtMost(n, ix, Step(file, root, ix, r, n).value)
  {
    assert ix.nodes.Keys == ix.originals.Keys;
    hide Inv, AddsAtMost, AdmitNew, Branch, Step;
    var context := StepBranches(file, root, n, ix, r);
    hide *;
    BranchLands(file, root, n, ix, r);
    LiveRecords(file, ix.nodes, context);
    NewNodes(file, root, n, ix, context, r);
  }

  lemma StepNodes(file: seq<Line>, root: Root, n: nat, ix: Index, r: Record)
    requires Inv(file, n, ix) && Step(file, root, ix, r, n).Ok?
    ensures AddsAtMost(n, ix, Step(file, root, ix, r, n).value)
  {
    hide Step, Inv;
    if r.kind == LastPrompt || (r.uuid.Valid? && r.uuid.id in ix.originals) {
      SameNodes(file, root, n, ix, r);
    } else {
      NewRecordNodes(file, root, n, ix, r);
    }
  }

  lemma LiveRecords(file: seq<Line>, nodes: map<string, Node>, context: Norm)
    requires Rooted(nodes) && Live(file, nodes, context)
    ensures context.records.Keys <= nodes.Keys
  {
    hide Replay, Path;
  }

  lemma NodeLine(file: seq<Line>, n: nat, nodes: map<string, Node>, u: string)
    requires Tree(file, n, nodes) && u in nodes
    ensures nodes[u].ref < n && IsRow(file, nodes[u].ref) && file[nodes[u].ref].record.uuid == Valid(u)
  {
  }

  /** Restoring any admitted record, at any later time, succeeds and rebuilds the history
    * that held right after that record was first committed. */
  lemma {:induction false} ReplayRebuildsHistory(file: seq<Line>, root: Root, n: nat, u: string)
    requires n <= |file| && Run(file, root, n).Ok? && u in Run(file, root, n).value.nodes
    ensures var nodes := Run(file, root, n).value.nodes;
            var k := nodes[u].ref;
            && k < n && file[k].Row? && file[k].record.uuid == Valid(u)
            && Run(file, root, k + 1).Ok?
            && var then_ := Run(file, root, k + 1).value.context;
               var again := Restore(file, nodes, Some(u));
               then_.leaf == Some(u) && again.Ok? && SameHistory(then_, again.value)
  {
    hide Step, Tree, Live, Restore, Normalize, Commit;
    var ix := Run(file, root, n).value;
    RunKeepsInv(file, root, n);
    NodeLine(file, n, ix.nodes, u);
    var before := Run(file, root, n - 1).value;
    RunKeepsInv(file, root, n - 1);
    if file[n - 1].Row? {
      StepNodes(file, root, n - 1, before, file[n - 1].record);
    }
    if u in before.nodes {
      ReplayRebuildsHistory(file, root, n - 1, u);
      RestoreStable(file, n - 1, before.nodes, n, ix.nodes, u);
    } else {
      LiveAtLeaf(file, n, ix);
    }
  }

  lemma RestoreStable(file: seq<Line>, n: nat, nodes: map<string, Node>, m: nat, more: map<string, Node>, u: string)
    requires Tree(file, n, nodes) && Tree(file, m, more) && u in nodes
    requires forall v :: v in nodes ==> v in more && more[v] == nodes[v]
    ensures Restore(file, more, Some(u)) == Restore(file, nodes, Some(u))
  {
    hide Replay, Replayable;
    ChainIsPath(nodes, Some(u), {});
    ChainIsPath(more, Some(u), {});
    PathStable(nodes, more, Some(u));
  }

  lemma LiveAtLeaf(file: seq<Line>, n: nat, ix: Index)
    requires Inv(file, n, ix) && ix.context.continuation != Some(Copies)
    ensures Restore(file, ix.nodes, ix.context.leaf).Ok?
    ensures SameHistory(ix.context, Restore(file, ix.nodes, ix.context.leaf).value)
  {
    hide Replay;
    JumpLands(file, n, ix.nodes, ix.context.leaf);
  }

  /** A branch or an explicit selector that names an admitted record can always be
    * followed, and moves the history exactly to that record. */
  lemma JumpsSucceed(file: seq<Line>, root: Root, n: nat, leaf: Option<string>)
    requires n <= |file| && Run(file, root, n).Ok? && InTree(Run(file, root, n).value.nodes, leaf)
    ensures Restore(file, Run(file, root, n).value.nodes, leaf).Ok?
    ensures Restore(file, Run(file, root, n).value.nodes, leaf).value.leaf == leaf
  {
    RunKeepsInv(file, root, n);
    JumpLands(file, n, Run(file, root, n).value.nodes, leaf);
  }

  /** The "new root has no explicit empty rewind" check never fires: an empty leaf beside
    * known nodes only ever comes from an explicit empty selector. */
  lemma EmptyLeafIsExplicit(file: seq<Line>, root: Root, n: nat)
    requires n <= |file| && Run(file, root, n).Ok?
    ensures var ix := Run(file, root, n).value; ix.context.leaf.None? && ix.nodes != map[] ==> ix.explicitEmpty
  {
    hide Step;
    RunKeepsInv(file, root, n);
  }
}
