/** Which physical lines a Claude stream may go on with, and what each does to the index. */
module ClaudeMoves {
  import opened Base
  import opened ClaudeRecords
  import opened ClaudeProjection
  import opened ClaudeHistory
  import opened ClaudePlan
  import opened ClaudeCalls
  import opened ClaudeRows
  import opened ClaudeCopies

  // ---------------------------------------------------------------- leaf selectors

  /** A last-prompt line moves the history only by an explicit selector, and exactly to the
    * record it names; delegated streams have none. */
  lemma SelectorTakenExactly(file: seq<Line>, root: Root, n: nat, ix: Index, r: Record)
    requires Inv(file, n, ix) && r.kind == LastPrompt
    ensures Step(file, root, ix, r, n).Ok? <==>
            && !r.notification && r.sessionOk && r.bookkeeping && r.selector.Some? && r.selector.value.shape
            && (r.selector.value.explicit ==>
                  !root.delegated && !r.selector.value.leaf.Missing?
                  && (r.selector.value.leaf.Named? ==> r.selector.value.leaf.id in ix.nodes))
    ensures Step(file, root, ix, r, n).Ok? ==>
              var next := Step(file, root, ix, r, n).value;
              var s := r.selector.value;
              if s.explicit then
                && next.nodes == ix.nodes && next.originals == ix.originals && (next.explicitEmpty <==> s.leaf.Null?)
                && next.context.leaf == (if s.leaf.Named? then Some(s.leaf.id) else None)
                && Rooted(ix.nodes) && InTree(ix.nodes, next.context.leaf)
                && Replay(file, Path(ix.nodes, next.context.leaf)) == Ok(next.context)
              else next == ix
  {
    hide Restore, Replay, Live;
    if r.selector.Some? {
      var s := r.selector.value;
      if s.explicit && (s.leaf.Named? ==> s.leaf.id in ix.nodes) {
        JumpLands(file, n, ix.nodes, if s.leaf.Named? then Some(s.leaf.id) else None);
      }
    }
  }

  // ---------------------------------------------------------------- lines without an identity

  /** A line without an identity is taken exactly if nothing in it calls for one and, inside
    * compaction scaffolding, it is bookkeeping. It is counted and changes nothing else. */
  lemma PlainLineTakenExactly(file: seq<Line>, root: Root, n: nat, ix: Index, r: Record)
    requires r.kind != LastPrompt && r.uuid.Absent?
    ensures Step(file, root, ix, r, n).Ok? <==>
            && !r.notification && r.sessionOk && r.kind != User && r.kind != Assistant && r.boundary.None?
            && !r.summaryFlags && (ix.context.continuation.Some? ==> r.bookkeeping)
    ensures Step(file, root, ix, r, n).Ok? ==>
              Step(file, root, ix, r, n).value == ix.(context := ix.context.(order := ix.context.order + 1))
  {
    hide OrdinaryParent, SourceBoundary, Restore, Project, Results;
  }

  // ---------------------------------------------------------------- new records

  /** The live history decides as the replay of its path does, except that while it skips
    * copies it takes nothing but a compaction boundary. */
  lemma LiveDecision(file: seq<Line>, r: Record, live: Norm, base: Norm)
    requires Tracks(live, base) && r.uuid.Valid? && r.uuid.id !in live.records
    requires base.continuation != Some(Copies)
    ensures Normalize(file, r, live).Ok? <==>
            Normalize(file, r, base).Ok? && (live.continuation == Some(Copies) ==> r.boundary.Some?)
    ensures Normalize(file, r, live).Ok? ==> Normalize(file, r, live) == Normalize(file, r, base)
  {
    if r.boundary.Some? {
      assert SourceBoundary(r, live) == SourceBoundary(r, base);
      hide OrdinaryParent, SourceBoundary;
    } else if SameHistory(live, base) {
      assert OrdinaryParent(r, live) == OrdinaryParent(r, base);
      hide OrdinaryParent;
    } else {
      hide OrdinaryParent;
    }
  }

  lemma LiveCommit(file: seq<Line>, r: Record, at: Position, live: Norm, base: Norm)
    requires Tracks(live, base) && r.uuid.Valid? && r.uuid.id !in live.records
    requires base.continuation != Some(Copies)
    ensures Admit(file, live, r, at).Ok? <==>
            Admit(file, base, r, at).Ok? && (live.continuation == Some(Copies) ==> r.boundary.Some?)
  {
    LiveDecision(file, r, live, base);
    if Normalize(file, r, live).Ok? {
      CommitSucceeds(file, live, r, at);
      CommitSucceeds(file, base, r, at);
    }
    hide Normalize, Commit;
  }

  lemma {:induction false} UsesProject(r: Record, uuid: string, slot: nat, blocks: seq<Block>, calls: map<string, Call>)
    requires r.kind == Assistant && UsesAreNew(blocks, calls)
    ensures ProjectBlocks(r, uuid, slot, blocks, calls).Ok?
    decreases |blocks|
  {
    if blocks != [] {
      var rest := blocks[1..];
      assert blocks[0] in blocks;
      assert forall i :: 0 <= i < |rest| ==> rest[i] == blocks[i + 1] && rest[i] in blocks;
      hide Pieces;
      var first := ProjectBlock(r, uuid, slot, blocks[0], calls).value;
      UsesProject(r, uuid, slot + 1, rest, first.1);
    }
  }

  lemma {:induction false} ResultsProject(r: Record, uuid: string, slot: nat, blocks: seq<Block>,
                                       calls: map<string, Call>)
    requires r.kind == User
    requires forall b :: b in blocks && b.ToolResultBlock? && b.callId.Some? ==>
               b.callId.value in calls &&
               (r.assistantUuid.Some? ==> r.assistantUuid.value == calls[b.callId.value].uuid)
    ensures ProjectBlocks(r, uuid, slot, blocks, calls).Ok?
    decreases |blocks|
  {
    if blocks != [] {
      var rest := blocks[1..];
      assert blocks[0] in blocks;
      assert forall i :: 0 <= i < |rest| ==> rest[i] in blocks;
      hide Pieces;
      ResultsProject(r, uuid, slot + 1, rest, calls);
    }
  }

  lemma PendingIsListed(file: seq<Line>, path: seq<Position>, id: string, c: Call)
    requires Replay(file, path).Ok? && Pending(Replay(file, path).value, id, c)
    ensures Listed(Replay(file, path).value, id, c)
  {
    hide Replay, Calls, Keeps, Pending, Listed;
    PendingExactly(file, path, id, c);
    var j: nat :| OpenCall(file, path, j, |path|, id, c);
    assert Made(file, path, |path|, id, c);
  }

  /** A conversation row whose calls are new can be projected exactly if it is stamped. */
  lemma ProjectsExactly(file: seq<Line>, r: Record, path: seq<Position>)
    requires Replay(file, path).Ok? && r.uuid.Valid?
    requires var a := Normalize(file, r, Replay(file, path).value); a.Ok? && !a.value.rawOnly
    requires Speaks(r) ==> UsesAreNew(Blocks(r), Replay(file, path).value.calls)
    ensures Project(r, Replay(file, path).value.calls).Ok? <==> (r.kind in {User, Assistant} ==> r.stamped)
  {
    var ctx := Replay(file, path).value;
    OrdinaryHasRole(file, r, ctx);
    hide Replay;
    if r.kind == Assistant {
      UsesProject(r, r.uuid.id, 0, Blocks(r), ctx.calls);
    } else if r.kind == User {
      forall b | b in Blocks(r) && b.ToolResultBlock?
        ensures b.callId.Some? && b.callId.value in ctx.calls
        ensures r.assistantUuid.Some? ==> r.assistantUuid.value == ctx.calls[b.callId.value].uuid
      {
        SpokenResult(file, r, ctx, b);
        PendingIsListed(file, path, b.callId.value, ctx.response.value.pending[b.callId.value]);
      }
      ResultsProject(r, r.uuid.id, 0, Blocks(r), ctx.calls);
    }
    hide Normalize, ProjectBlocks;
  }

  /** The record the history stands at when it looks at a new row: the parent that a genuine
    * user turn names, and otherwise its leaf. */
  function Above(ix: Index, r: Record): Option<string> {
    if GenuineUser(r) && !AtLeaf(r.parent, ix.context.leaf) && r.parent.Named? then Some(r.parent.id)
    else ix.context.leaf
  }

  predicate BranchesOff(ix: Index, r: Record) {
    GenuineUser(r) && !AtLeaf(r.parent, ix.context.leaf)
  }

  /** What the stream asks of a new row, whatever its path. */
  predicate Allowed(root: Root, ix: Index, r: Record)
    requires r.uuid.Valid?
  {
    && (r.notification ==> NotificationShape(r)) && r.sessionOk
    && (BranchesOff(ix, r) ==> !root.delegated && r.parent.Named? && r.parent.id in ix.nodes)
    && (ix.nodes == map[] ==> r.uuid.id == root.uuid && r.creationOk)
    && (GenuineUser(r) && r.parent == Null && ix.nodes != map[] ==> ix.explicitEmpty)
    && (ix.context.continuation == Some(Copies) && !BranchesOff(ix, r) ==> r.boundary.Some?)
  }

  /** What the path of the row asks of it. */
  ghost predicate Joins(file: seq<Line>, path: seq<Position>, n: nat)
    requires Fresh(file, path) && IsRow(file, n) && (path + [n])[|path|] == n
  {
    var r := file[n].record;
    && Continues(file, path, r)
    && (!Hidden(file, path + [n], |path|) ==>
          && (Speaks(r) ==> CallsAreNew(file, path, r))
          && (!r.notification && r.kind in {User, Assistant} ==> r.stamped))
  }

  lemma JoinsExactly(file: seq<Line>, path: seq<Position>, n: nat)
    requires Fresh(file, path) && Replay(file, path).Ok?
    requires IsRow(file, n) && file[n].record.uuid.Valid? && !OnPath(file, path, |path|, file[n].record.uuid.id)
    ensures (path + [n])[|path|] == n
    ensures var r := file[n].record; var base := Replay(file, path).value;
            && r.uuid.id !in base.records && base.continuation != Some(Copies)
            && (Joins(file, path, n) <==>
                  Admit(file, base, r, n).Ok?
                  && (!Normalize(file, r, base).value.rawOnly && !r.notification ==> Project(r, base.calls).Ok?))
  {
    var r := file[n].record;
    var base := Replay(file, path).value;
    LeafRead(file, path);
    hide Replay, Continues, Hidden, Class, Fresh;
    RowAdmittedExactly(file, path, r);
    hide Normalize;
    if Normalize(file, r, base).Ok? {
      RawIsHidden(file, path, n);
      CommitSucceeds(file, base, r, n);
      CallsRead(file, path, r);
      if !Normalize(file, r, base).value.rawOnly && (Speaks(r) ==> UsesAreNew(Blocks(r), base.calls)) {
        ProjectsExactly(file, r, path);
      }
    }
    hide Commit, Project, CallsAreNew, UsesAreNew;
  }

  lemma AboveLands(file: seq<Line>, root: Root, n: nat, ix: Index, r: Record)
    requires Inv(file, n, ix)
    ensures Branch(file, root, ix, r).Ok? <==>
            (BranchesOff(ix, r) ==> !root.delegated && r.parent.Named? && r.parent.id in ix.nodes)
    ensures Rooted(ix.nodes)
    ensures Branch(file, root, ix, r).Ok? ==>
              && InTree(ix.nodes, Above(ix, r)) && Replay(file, Path(ix.nodes, Above(ix, r))).Ok?
              && Branch(file, root, ix, r).value.leaf == Above(ix, r)
              && Tracks(Branch(file, root, ix, r).value, Replay(file, Path(ix.nodes, Above(ix, r))).value)
              && Branch(file, root, ix, r).value.records.Keys <= ix.nodes.Keys
    ensures BranchesOff(ix, r) && Branch(file, root, ix, r).Ok? ==>
              Branch(file, root, ix, r) == Replay(file, Path(ix.nodes, Above(ix, r)))
    ensures !BranchesOff(ix, r) && Branch(file, root, ix, r).Ok? ==> Branch(file, root, ix, r) == Ok(ix.context)
  {
    hide Replay, Restore, Tracks, Path, Tree;
    InvIsRooted(file, n, ix);
    if BranchesOff(ix, r) && r.parent.Named? && r.parent.id in ix.nodes {
      JumpLands(file, n, ix.nodes, Some(r.parent.id));
      LiveRecords(file, ix.nodes, Restore(file, ix.nodes, Some(r.parent.id)).value);
    } else {
      LiveRecords(file, ix.nodes, ix.context);
    }
    hide Live;
  }

  lemma CallsAgree(live: Norm, base: Norm)
    ensures Tracks(live, base) ==> live.calls == base.calls
  {
  }

  lemma AdmitNewExactly(file: seq<Line>, root: Root, ix: Index, context: Norm, r: Record, n: nat)
    requires r.uuid.Valid?
    ensures AdmitNew(file, root, ix, context, r, n).Ok? <==>
            && Admit(file, context, r, n).Ok?
            && (ix.nodes == map[] ==> r.uuid.id == root.uuid && r.creationOk)
            && (!Normalize(file, r, context).value.rawOnly && !r.notification ==> Project(r, context.calls).Ok?)
  {
    hide Normalize, Commit, Project;
  }

  /** A line with a new identity is taken exactly if the stream allows it and it joins the path
    * of the record above it. */
  lemma NewLineTakenExactly(file: seq<Line>, root: Root, n: nat, ix: Index)
    requires Inv(file, n, ix) && n < |file| && file[n].Row?
    requires var r := file[n].record; r.kind != LastPrompt && r.uuid.Valid? && r.uuid.id !in ix.nodes
    ensures Rooted(ix.nodes)
    ensures Allowed(root, ix, file[n].record) ==>
              InTree(ix.nodes, Above(ix, file[n].record))
              && Fresh(file, Path(ix.nodes, Above(ix, file[n].record)))
              && (Path(ix.nodes, Above(ix, file[n].record)) + [n])[|Path(ix.nodes, Above(ix, file[n].record))|] == n
    ensures var r := file[n].record;
            Step(file, root, ix, r, n).Ok? <==>
            Allowed(root, ix, r) && Joins(file, Path(ix.nodes, Above(ix, r)), n)
  {
    hide AdmitNew, Branch, Joins, Replay, Fresh, Path, Tree, Tracks;
    var r := file[n].record;
    assert ix.originals.Keys == ix.nodes.Keys;
    AboveLands(file, root, n, ix, r);
    if Branch(file, root, ix, r).Ok? {
      PathIsFresh(file, n, ix.nodes, Above(ix, r));
      var path := Path(ix.nodes, Above(ix, r));
      assert !OnPath(file, path, |path|, r.uuid.id);
      JoinsExactly(file, path, n);
      var context, base := Branch(file, root, ix, r).value, Replay(file, path).value;
      LiveDecision(file, r, context, base);
      LiveCommit(file, r, n, context, base);
      CallsAgree(context, base);
      AdmitNewExactly(file, root, ix, context, r, n);
    }
    hide OnPath;
  }

  /** A taken line with a new identity becomes the leaf, and a node below the record above it, of
    * the class its path gives it; nothing else of the index changes. */
  lemma NewLineBecomesNode(file: seq<Line>, root: Root, n: nat, ix: Index)
    requires Inv(file, n, ix) && n < |file| && file[n].Row?
    requires var r := file[n].record; r.kind != LastPrompt && r.uuid.Valid? && r.uuid.id !in ix.nodes
    requires Step(file, root, ix, file[n].record, n).Ok?
    ensures Rooted(ix.nodes) && InTree(ix.nodes, Above(ix, file[n].record))
    ensures var r := file[n].record; var u := r.uuid.id;
            var path := Path(ix.nodes, Above(ix, r)); var k := |path|;
            var next := Step(file, root, ix, r, n).value;
            && Fresh(file, path + [n]) && (path + [n])[k] == n
            && next.nodes == ix.nodes[u := Node(n, Above(ix, r), Hidden(file, path + [n], k) || r.notification,
                                                Class(file, path + [n], k))]
            && next.originals == ix.originals[u := n] && next.context.leaf == Some(u) && !next.explicitEmpty
  {
    hide Joins, Replay, Fresh, Path, Tracks, Hidden, Class;
    var r := file[n].record;
    assert ix.originals.Keys == ix.nodes.Keys;
    var context := StepBranches(file, root, n, ix, r);
    AboveLands(file, root, n, ix, r);
    PathIsFresh(file, n, ix.nodes, Above(ix, r));
    var path := Path(ix.nodes, Above(ix, r));
    assert !OnPath(file, path, |path|, r.uuid.id);
    hide Step, Tree, Branch, OnPath;
    NewLeaves(file, root, n, ix, context, r);
    var base := Replay(file, path).value;
    JoinsExactly(file, path, n);
    LiveDecision(file, r, context, base);
    NodeDecided(file, root, n, ix, context, r);
    RawIsHidden(file, path, n);
    hide AdmitNew;
  }

  lemma NodeDecided(file: seq<Line>, root: Root, n: nat, ix: Index, context: Norm, r: Record)
    requires AdmitNew(file, root, ix, context, r, n).Ok? && r.uuid.Valid?
    ensures Normalize(file, r, context).Ok?
    ensures var a := Normalize(file, r, context).value;
            var node := AdmitNew(file, root, ix, context, r, n).value.nodes[r.uuid.id];
            node.kind == a.kind && (node.rawOnly <==> a.rawOnly || r.notification)
  {
    hide Normalize, Commit, Project;
  }
}
