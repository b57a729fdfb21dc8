/** What each physical line of a Claude stream does to the index: replay copies repeat their
  * originals, and a line moves the history only where it says so. */
module ClaudeCopies {
  import opened Base
  import opened ClaudeRecords
  import opened ClaudeProjection
  import opened ClaudeHistory
  import opened ClaudeCalls
  import opened ClaudeRows

  // ---------------------------------------------------------------- replay copies

  /** The same row again; where the original has no slug, a copy may carry one. */
  predicate Repeats(copy: Record, original: Record) {
    copy == original || (original.slug.Absent? && copy.slug.Valid? && copy.(slug := Absent) == original)
  }

  /** Line `k` repeats the record that node `u` was made from. */
  predicate RepeatsNode(file: seq<Line>, n: nat, nodes: map<string, Node>, u: string, k: Position)
    requires u in nodes
  {
    && k < n && IsRow(file, k) && IsRow(file, nodes[u].ref)
    && Repeats(file[k].record, file[nodes[u].ref].record)
  }

  /** What the history holds of a record, and the latest line of it, repeat the original. */
  ghost predicate Copied(file: seq<Line>, n: nat, ix: Index) {
    && ix.originals.Keys == ix.nodes.Keys && ix.context.records.Keys <= ix.nodes.Keys
    && (forall u :: u in ix.nodes ==> RepeatsNode(file, n, ix.nodes, u, ix.originals[u]))
    && (forall u :: u in ix.context.records ==> RepeatsNode(file, n, ix.nodes, u, ix.context.records[u].value))
  }

  lemma RepeatsIsReplay(copy: Record, original: Record)
    ensures SameReplay(copy, original) <==> Repeats(copy, original)
  {
  }

  lemma CopyDecision(file: seq<Line>, r: Record, ctx: Norm)
    requires r.uuid.Valid? && r.uuid.id in ctx.records && IsRow(file, ctx.records[r.uuid.id].value)
    ensures Normalize(file, r, ctx).Ok? <==>
            r.sessionOk && r.threadOk && Repeats(r, file[ctx.records[r.uuid.id].value].record)
            && !(ctx.continuation.Some? && ctx.continuation.value.AwaitSummary?)
    ensures Normalize(file, r, ctx).Ok? ==>
              Normalize(file, r, ctx).value == Action(true, true, ctx.records[r.uuid.id].kind, Some(Copies))
  {
    RepeatsIsReplay(r, file[ctx.records[r.uuid.id].value].record);
    hide OrdinaryParent, SourceBoundary, SameReplay, Repeats;
  }

  /** A line with a known identity is taken exactly if its record is on the current path, no
    * summary is awaited, and it repeats the latest copy there. Then only that copy moves on. */
  lemma CopyTakenExactly(file: seq<Line>, root: Root, n: nat, ix: Index, r: Record)
    requires r.kind != LastPrompt && r.uuid.Valid? && r.uuid.id in ix.originals
    requires r.uuid.id in ix.context.records ==> IsRow(file, ix.context.records[r.uuid.id].value)
    ensures var u := r.uuid.id;
            Step(file, root, ix, r, n).Ok? <==>
            && (r.notification ==> NotificationShape(r)) && r.sessionOk && r.threadOk
            && u in ix.context.records && Repeats(r, file[ix.context.records[u].value].record)
            && !(ix.context.continuation.Some? && ix.context.continuation.value.AwaitSummary?)
    ensures Step(file, root, ix, r, n).Ok? ==>
              var next := Step(file, root, ix, r, n).value;
              && next.nodes == ix.nodes && next.originals == ix.originals[r.uuid.id := n]
              && next.explicitEmpty == ix.explicitEmpty && next.context.continuation == Some(Copies)
              && r.uuid.id in ix.context.records
              && next.context.records == ix.context.records[r.uuid.id := ix.context.records[r.uuid.id].(value := n)]
              && next.context.leaf == ix.context.leaf && next.context.calls == ix.context.calls
  {
    if r.uuid.id in ix.context.records {
      CopyDecision(file, r, ix.context);
      hide Normalize, Repeats;
    }
  }

  lemma RepeatsChain(a: Record, b: Record, c: Record)
    requires Repeats(a, b) && Repeats(b, c)
    ensures Repeats(a, c)
  {
  }

  /** A restored history holds every record at the line of its node. */
  lemma RestoredAtNodes(file: seq<Line>, n: nat, nodes: map<string, Node>, leaf: Option<string>)
    requires Tree(file, n, nodes) && InTree(nodes, leaf) && Restore(file, nodes, leaf).Ok?
    ensures var records := Restore(file, nodes, leaf).value.records;
            forall u :: u in records ==> u in nodes && records[u].value == nodes[u].ref
  {
    RestoreIsReplay(file, nodes, leaf);
    PathIsFresh(file, n, nodes, leaf);
    var path := Path(nodes, leaf);
    hide Replay, Class, StageIs, Restore, Path;
    LeafRead(file, path);
    var records := Replay(file, path).value.records;
    forall u | u in records
      ensures u in nodes && records[u].value == nodes[u].ref
    {
      assert OnPath(file, path, |path|, u);
      var i: nat :| i < |path| && IdAt(file, path, i) == u;
      assert ListedAs(file, path, i, Replay(file, path).value);
      RefOfRow(file, n, nodes, leaf, i);
    }
  }

  lemma {:induction false} RefOfRow(file: seq<Line>, n: nat, nodes: map<string, Node>, leaf: Option<string>, i: nat)
    requires Tree(file, n, nodes) && InTree(nodes, leaf) && i < |Path(nodes, leaf)|
    requires Fresh(file, Path(nodes, leaf))
    ensures IdAt(file, Path(nodes, leaf), i) in nodes &&
            nodes[IdAt(file, Path(nodes, leaf), i)].ref == Path(nodes, leaf)[i]
    decreases if leaf.None? then 0 else 1 + nodes[leaf.value].ref
  {
    assert leaf.Some? && Anchored(nodes, leaf.value);
    NodeLine(file, n, nodes, leaf.value);
    var older := Path(nodes, nodes[leaf.value].predecessor);
    if i < |older| {
      PathIsFresh(file, n, nodes, nodes[leaf.value].predecessor);
      hide Tree;
      RefOfRow(file, n, nodes, nodes[leaf.value].predecessor, i);
    }
  }

  /** Restoring keeps the latest lines apart and starts again from the originals. */
  lemma RestoreCopied(file: seq<Line>, n: nat, ix: Index, leaf: Option<string>, explicit: bool)
    requires Tree(file, n, ix.nodes) && InTree(ix.nodes, leaf) && Restore(file, ix.nodes, leaf).Ok?
    requires Copied(file, n, ix)
    ensures Copied(file, n, ix.(context := Restore(file, ix.nodes, leaf).value, explicitEmpty := explicit))
  {
    RestoredAtNodes(file, n, ix.nodes, leaf);
    var records := Restore(file, ix.nodes, leaf).value.records;
    hide Restore;
    forall u | u in records
      ensures RepeatsNode(file, n, ix.nodes, u, records[u].value)
    {
      NodeLine(file, n, ix.nodes, u);
    }
    hide RepeatsNode, Tree;
  }

  lemma CopiedLater(file: seq<Line>, n: nat, ix: Index)
    requires Copied(file, n, ix)
    ensures Copied(file, n + 1, ix)
  {
    hide Repeats;
  }

  /** What a record that was never seen before leaves of the index. */
  lemma NewLeaves(file: seq<Line>, root: Root, n: nat, ix: Index, context: Norm, r: Record)
    requires AdmitNew(file, root, ix, context, r, n).Ok? && (r.uuid.Valid? ==> r.uuid.id !in context.records)
    ensures var next := AdmitNew(file, root, ix, context, r, n).value;
            if r.uuid.Valid? then
              var u := r.uuid.id;
              && u in next.nodes && next.nodes[u].ref == n && next.nodes[u].predecessor == context.leaf
              && next.nodes == ix.nodes[u := next.nodes[u]] && next.originals == ix.originals[u := n]
              && next.context.leaf == Some(u) && !next.explicitEmpty
              && u in next.context.records && next.context.records[u].value == n
              && next.context.records == context.records[u := next.context.records[u]]
            else
              && r.uuid.Absent? && next.nodes == ix.nodes && next.originals == ix.originals
              && next.context.records == context.records && next.context.leaf == context.leaf
              && next.explicitEmpty == ix.explicitEmpty
  {
    if r.uuid.Valid? {
      Entered(file, r, context, n);
      hide Normalize, Commit, Project, Admit;
    } else {
      assert Normalize(file, r, context) == Ok(Action(true, false, Ordinary, context.continuation));
      hide Normalize, Project;
    }
  }

  lemma NewCopied(file: seq<Line>, n: nat, ix: Index, u: string, next: Index)
    requires Copied(file, n, ix) && n < |file| && file[n].Row? && u !in ix.nodes
    requires u in next.nodes && next.nodes[u].ref == n && next.nodes == ix.nodes[u := next.nodes[u]]
    requires next.originals == ix.originals[u := n]
    requires u in next.context.records && next.context.records[u].value == n
    requires next.context.records == ix.context.records[u := next.context.records[u]]
    ensures Copied(file, n + 1, next)
  {
    hide RepeatsNode;
    RepeatsItself(file, n, next.nodes, u);
    forall v | v in next.nodes
      ensures RepeatsNode(file, n + 1, next.nodes, v, next.originals[v])
    {
      if v != u {
        RepeatsLater(file, n, ix.nodes, next.nodes, v, ix.originals[v]);
      }
    }
    forall v | v in next.context.records
      ensures RepeatsNode(file, n + 1, next.nodes, v, next.context.records[v].value)
    {
      if v != u {
        RepeatsLater(file, n, ix.nodes, next.nodes, v, ix.context.records[v].value);
      }
    }
  }

  lemma RepeatsItself(file: seq<Line>, n: nat, nodes: map<string, Node>, u: string)
    requires n < |file| && file[n].Row? && u in nodes && nodes[u].ref == n
    ensures RepeatsNode(file, n + 1, nodes, u, n)
  {
  }

  lemma RepeatsLater(file: seq<Line>, n: nat, nodes: map<string, Node>, more: map<string, Node>, u: string, k: Position)
    requires u in nodes && RepeatsNode(file, n, nodes, u, k) && u in more && more[u] == nodes[u]
    ensures RepeatsNode(file, n + 1, more, u, k)
  {
    hide Repeats;
  }

  lemma CopyCopied(file: seq<Line>, n: nat, ix: Index, r: Record, next: Index)
    requires Copied(file, n, ix) && n < |file| && file[n] == Row(r)
    requires r.uuid.Valid? && r.uuid.id in ix.context.records
    requires Repeats(r, file[ix.context.records[r.uuid.id].value].record)
    requires next.nodes == ix.nodes && next.originals == ix.originals[r.uuid.id := n]
    requires next.context.records == ix.context.records[r.uuid.id := ix.context.records[r.uuid.id].(value := n)]
    ensures Copied(file, n + 1, next)
  {
    hide Repeats;
    var u := r.uuid.id;
    CopiedLater(file, n, ix);
    assert RepeatsNode(file, n, ix.nodes, u, ix.context.records[u].value);
    RepeatsChain(r, file[ix.context.records[u].value].record, file[ix.nodes[u].ref].record);
  }

  /** Where a new record is looked at: at the leaf, or at the parent a branch goes back to. */
  lemma BranchCopied(file: seq<Line>, root: Root, n: nat, ix: Index, r: Record)
    requires Inv(file, n, ix) && Copied(file, n, ix) && Branch(file, root, ix, r).Ok?
    ensures Copied(file, n, ix.(context := Branch(file, root, ix, r).value))
    ensures Branch(file, root, ix, r).value.leaf ==
            if GenuineUser(r) && r.parent.Named? then Some(r.parent.id) else ix.context.leaf
  {
    if GenuineUser(r) && !AtLeaf(r.parent, ix.context.leaf) {
      JumpLands(file, n, ix.nodes, Some(r.parent.id));
      RestoreCopied(file, n, ix, Some(r.parent.id), ix.explicitEmpty);
      hide Copied, Restore, Tree, Live;
    }
  }

  lemma StepSelectCopied(file: seq<Line>, root: Root, n: nat, ix: Index, r: Record)
    requires Inv(file, n, ix) && Copied(file, n, ix) && n < |file| && file[n] == Row(r)
    requires Step(file, root, ix, r, n).Ok? && r.kind == LastPrompt
    ensures Copied(file, n + 1, Step(file, root, ix, r, n).value)
  {
    hide Select, Copied, Inv, Branch, AdmitNew, AdmitCopy;
    SelectCopied(file, root, n, ix, r.selector.value);
    CopiedLater(file, n, Select(file, root, ix, r.selector.value).value);
  }

  lemma StepFreshCopied(file: seq<Line>, root: Root, n: nat, ix: Index, r: Record)
    requires Inv(file, n, ix) && Copied(file, n, ix) && n < |file| && file[n] == Row(r)
    requires Step(file, root, ix, r, n).Ok? && r.kind != LastPrompt
    requires !(r.uuid.Valid? && r.uuid.id in ix.originals)
    ensures Copied(file, n + 1, Step(file, root, ix, r, n).value)
  {
    hide Copied, AdmitNew, AdmitCopy, Inv, Branch, Step, Select;
    CopiedLater(file, n, ix);
    var context := StepBranches(file, root, n, ix, r);
    BranchCopied(file, root, n, ix, r);
    SameIndex(file, root, n, ix, context, r);
    FreshCopied(file, root, n, ix.(context := context), r);
  }

  lemma StepCopied(file: seq<Line>, root: Root, n: nat, ix: Index, r: Record)
    requires Inv(file, n, ix) && Copied(file, n, ix) && n < |file| && file[n] == Row(r)
    requires Step(file, root, ix, r, n).Ok?
    ensures Copied(file, n + 1, Step(file, root, ix, r, n).value)
  {
    hide Inv, Step;
    if r.kind == LastPrompt {
      StepSelectCopied(file, root, n, ix, r);
    } else if r.uuid.Valid? && r.uuid.id in ix.originals {
      CopyTakenExactly(file, root, n, ix, r);
      CopyCopied(file, n, ix, r, Step(file, root, ix, r, n).value);
    } else {
      StepFreshCopied(file, root, n, ix, r);
    }
  }

  lemma SameIndex(file: seq<Line>, root: Root, n: nat, ix: Index, context: Norm, r: Record)
    ensures AdmitNew(file, root, ix.(context := context), context, r, n) == AdmitNew(file, root, ix, context, r, n)
  {
    hide Admit, Normalize, Project;
  }

  lemma FreshCopied(file: seq<Line>, root: Root, n: nat, ix: Index, r: Record)
    requires Copied(file, n, ix) && n < |file| && file[n] == Row(r)
    requires !(r.uuid.Valid? && r.uuid.id in ix.originals)
    requires AdmitNew(file, root, ix, ix.context, r, n).Ok?
    ensures Copied(file, n + 1, AdmitNew(file, root, ix, ix.context, r, n).value)
  {
    hide RepeatsNode, AdmitNew;
    NewLeaves(file, root, n, ix, ix.context, r);
    CopiedLater(file, n, ix);
    if r.uuid.Valid? {
      NewCopied(file, n, ix, r.uuid.id, AdmitNew(file, root, ix, ix.context, r, n).value);
    }
  }

  lemma SelectCopied(file: seq<Line>, root: Root, n: nat, ix: Index, s: Selector)
    requires Inv(file, n, ix) && Copied(file, n, ix) && Select(file, root, ix, s).Ok?
    ensures Copied(file, n, Select(file, root, ix, s).value)
  {
    if s.explicit {
      RestoreCopied(file, n, ix, if s.leaf.Named? then Some(s.leaf.id) else None, s.leaf.Null?);
      hide Copied, Restore, Tree, Live;
    }
  }

  /** The latest line of every indexed record repeats the line it was indexed from, and so does
    * the one that the history compares the next copy with. */
  lemma {:induction false} CopiesRepeat(file: seq<Line>, root: Root, n: nat)
    requires n <= |file| && Run(file, root, n).Ok?
    ensures Copied(file, n, Run(file, root, n).value)
  {
    hide Step, Inv, Copied;
    if n > 0 {
      CopiesRepeat(file, root, n - 1);
      RunKeepsInv(file, root, n - 1);
      var ix := Run(file, root, n - 1).value;
      if file[n - 1].Row? {
        StepCopied(file, root, n - 1, ix, file[n - 1].record);
      } else {
        CopiedLater(file, n - 1, ix);
      }
    } else {
      NothingCopied(file);
    }
  }

  lemma NothingCopied(file: seq<Line>)
    ensures Copied(file, 0, EmptyIndex)
  {
  }
}
