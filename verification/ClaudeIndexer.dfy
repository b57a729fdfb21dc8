/** The indexing loop as the source writes it: mutable maps, a mutable current history,
  * a chain walk with a visited set, and a replay loop; proved equal to `ClaudeHistory`. */
module ClaudeIndexer {
  import opened Base
  import opened ClaudeRecords
  import opened ClaudeProjection
  import opened ClaudeHistory

  lemma {:induction false} ReplayPrefix(file: seq<Line>, path: seq<Position>, k: nat)
    requires k <= |path| && Replay(file, path[..k]).Err?
    ensures Replay(file, path).Err?
    decreases |path| - k
  {
    hide Admit;
    if k < |path| {
      assert path[..k + 1][..k] == path[..k];
      ReplayPrefix(file, path, k + 1);
    } else {
      assert path[..k] == path;
    }
  }

  /** Collects the chain newest first and turns it around. */
  method WalkChain(nodes: map<string, Node>, leaf: Option<string>) returns (r: Result<seq<Position>>)
    ensures r.Ok? <==> Chain(nodes, leaf, {}).Ok?
    ensures r.Ok? ==> r == Chain(nodes, leaf, {})
  {
    var chain: seq<Position>, visited: set<string>, at := [], {}, leaf;
    assert Chain(nodes, leaf, {}).Ok? ==> Chain(nodes, leaf, {}).value + [] == Chain(nodes, leaf, {}).value;
    while at.Some?
      invariant Chain(nodes, at, visited).Ok? <==> Chain(nodes, leaf, {}).Ok?
      invariant Chain(nodes, at, visited).Ok? ==>
                  Chain(nodes, leaf, {}) == Ok(Chain(nodes, at, visited).value + chain)
      decreases nodes.Keys - visited, at
    {
      var u := at.value;
      if u !in nodes || u in visited {
        return Err(Unsupported);
      }
      ghost var older := Chain(nodes, nodes[u].predecessor, visited + {u});
      assert older.Ok? ==> (older.value + [nodes[u].ref]) + chain == older.value + ([nodes[u].ref] + chain);
      visited, chain, at := visited + {u}, [nodes[u].ref] + chain, nodes[u].predecessor;
    }
    assert Chain(nodes, at, visited).value + chain == chain;
    r := Ok(chain);
  }

  /** One more record of a replay. */
  lemma ReplayOn(file: seq<Line>, path: seq<Position>, i: nat, context: Norm)
    requires i < |path| && Replay(file, path[..i]) == Ok(context)
    ensures Replay(file, path[..i + 1])
            == if IsRow(file, path[i]) then Admit(file, context, file[path[i]].record, path[i]) else Err(Changed)
  {
    hide Admit;
    assert path[..i + 1][..i] == path[..i];
  }

  lemma AdmitFollows(file: seq<Line>, context: Norm, r: Record, at: Position)
    ensures Admit(file, context, r, at)
            == if Normalize(file, r, context).Err? then Normalize(file, r, context).PropagateFailure()
               else Commit(context, r, at, Normalize(file, r, context).value)
  {
    hide Normalize, Commit;
  }

  lemma ReplayNothing(file: seq<Line>, path: seq<Position>)
    ensures Replay(file, path[..0]) == Ok(EmptyNorm)
  {
  }

  method RestoreContext(file: seq<Line>, nodes: map<string, Node>, leaf: Option<string>)
    returns (restored: Option<Normalization>)
    ensures restored.Some? <==> Restore(file, nodes, leaf).Ok?
    ensures restored.Some? ==> fresh(restored.value) && Restore(file, nodes, leaf) == Ok(restored.value.Value())
  {
    hide Normalize, Commit, Replay, Admit, Chain;
    var chain := WalkChain(nodes, leaf);
    if chain.Err? {
      return None;
    }
    var path, i := chain.value, 0;
    var context := new Normalization();
    ReplayNothing(file, path);
    while i < |path|
      invariant 0 <= i <= |path|
      invariant fresh(context) && Replay(file, path[..i]) == Ok(context.Value())
    {
      var at := path[i];
      ReplayOn(file, path, i, context.Value());
      if !IsRow(file, at) {
        ReplayPrefix(file, path, i + 1);
        return None;
      }
      var r := file[at].record;
      AdmitFollows(file, context.Value(), r, at);
      var action := Normalize(file, r, context.Value());
      if action.Err? {
        ReplayPrefix(file, path, i + 1);
        return None;
      }
      var ok := context.CommitRecord(r, at, action.value);
      if !ok {
        ReplayPrefix(file, path, i + 1);
        return None;
      }
      i := i + 1;
    }
    assert path[..i] == path;
    restored := Some(context);
  }

  /** The mutable state of the loop over physical records. */
  class Indexer {
    var nodes: map<string, Node>
    var originals: map<string, Position>
    var context: Normalization
    var explicitEmpty: bool

    ghost function Value(): Index
      reads this, context
    {
      Index(nodes, originals, context.Value(), explicitEmpty)
    }

    constructor ()
      ensures Value() == EmptyIndex && fresh(context)
    {
      nodes, originals, explicitEmpty := map[], map[], false;
      context := new Normalization();
    }

    method SelectLeaf(file: seq<Line>, root: Root, s: Selector) returns (ok: bool)
      modifies this
      ensures ok <==> Select(file, root, old(Value()), s).Ok?
      ensures ok ==> Select(file, root, old(Value()), s) == Ok(Value()) && (context == old(context) || fresh(context))
    {
      hide Restore;
      if s.explicit {
        if s.leaf.Missing? || (s.leaf.Named? && s.leaf.id !in nodes) || root.delegated {
          return false;
        }
        var restored := RestoreContext(file, nodes, if s.leaf.Named? then Some(s.leaf.id) else None);
        if restored.None? {
          return false;
        }
        context := restored.value;
        explicitEmpty := s.leaf.Null?;
      }
      ok := true;
    }

    method AdmitReplayCopy(file: seq<Line>, r: Record, at: Position) returns (ok: bool)
      requires r.uuid.Valid?
      modifies this, context
      ensures ok <==> AdmitCopy(file, old(Value()), r, at).Ok?
      ensures ok ==> AdmitCopy(file, old(Value()), r, at) == Ok(Value()) && context == old(context)
    {
      hide Normalize, Commit;
      if r.uuid.id !in context.records {
        return false;
      }
      var action := Normalize(file, r, context.Value());
      if action.Err? || !action.value.copy {
        return false;
      }
      ok := context.CommitRecord(r, at, action.value);
      if ok {
        originals := originals[r.uuid.id := at];
      }
    }

    method BranchOff(file: seq<Line>, root: Root, r: Record) returns (ok: bool)
      modifies this`context
      ensures ok <==> Branch(file, root, old(Value()), r).Ok?
      ensures ok ==>
                Branch(file, root, old(Value()), r) == Ok(context.Value())
                && (context == old(context) || fresh(context))
    {
      hide Restore;
      if GenuineUser(r) && !AtLeaf(r.parent, context.leaf) {
        if root.delegated || !r.parent.Named? || r.parent.id !in nodes {
          return false;
        }
        var restored := RestoreContext(file, nodes, Some(r.parent.id));
        if restored.None? {
          return false;
        }
        context := restored.value;
      }
      ok := true;
    }

    method AdmitFresh(file: seq<Line>, root: Root, r: Record, at: Position) returns (ok: bool)
      modifies this, context
      ensures var before := old(Value());
              ok <==> AdmitNew(file, root, before, before.context, r, at).Ok?
      ensures ok ==> AdmitNew(file, root, old(Value()), old(Value()).context, r, at) == Ok(Value())
      ensures context == old(context)
    {
      hide Normalize, Commit, Project;
      var predecessor, calls := context.leaf, context.calls;
      var action := Normalize(file, r, context.Value());
      if action.Err? {
        return false;
      }
      ok := context.CommitRecord(r, at, action.value);
      if !ok || r.uuid.Absent? {
        return;
      }
      if !r.uuid.Valid? || (nodes == map[] && (r.uuid.id != root.uuid || !r.creationOk)) {
        return false;
      }
      var rawOnly := action.value.rawOnly || r.notification;
      if !rawOnly && Project(r, calls).Err? {
        return false;
      }
      nodes := nodes[r.uuid.id := Node(at, predecessor, rawOnly, action.value.kind)];
      originals := originals[r.uuid.id := at];
      explicitEmpty := false;
    }

    /** One physical record. */
    method Take(file: seq<Line>, root: Root, r: Record, at: Position) returns (ok: bool)
      modifies this, context
      ensures ok <==> Step(file, root, old(Value()), r, at).Ok?
      ensures ok ==> Step(file, root, old(Value()), r, at) == Ok(Value()) && (context == old(context) || fresh(context))
    {
      hide Select, AdmitCopy, AdmitNew, Branch, Normalize;
      if (r.notification && !NotificationShape(r)) || !r.sessionOk {
        return false;
      }
      if r.kind == LastPrompt {
        if !r.bookkeeping || r.selector.None? || !r.selector.value.shape {
          return false;
        }
        ok := SelectLeaf(file, root, r.selector.value);
        return;
      }
      if r.uuid.Valid? && r.uuid.id in originals {
        ok := AdmitReplayCopy(file, r, at);
        return;
      }
      ghost var before := Value();
      ok := BranchOff(file, root, r);
      if !ok {
        return;
      }
      if GenuineUser(r) && r.parent == Null && nodes != map[] && !explicitEmpty {
        return false;
      }
      ghost var chosen := context.Value();
      assert Value() == before.(context := chosen);
      SameNew(file, root, before, chosen, r, at);
      ok := AdmitFresh(file, root, r, at);
    }
  }

  lemma SameNew(file: seq<Line>, root: Root, ix: Index, context: Norm, r: Record, at: Position)
    ensures AdmitNew(file, root, ix.(context := context), context, r, at) == AdmitNew(file, root, ix, context, r, at)
  {
    hide Admit, Normalize, Project;
  }

  lemma {:induction false} RunPrefix(file: seq<Line>, root: Root, k: nat, n: nat)
    requires k <= n <= |file| && Run(file, root, k).Err?
    ensures Run(file, root, n).Err?
    decreases n - k
  {
    hide Step;
    if k < n {
      RunPrefix(file, root, k + 1, n);
    }
  }

  /** The whole indexing pass over one stream. */
  method IndexStream(file: seq<Line>, root: Root) returns (indexed: Option<Indexer>)
    ensures indexed.Some? <==> Run(file, root, |file|).Ok?
    ensures indexed.Some? ==> fresh(indexed.value) && Run(file, root, |file|) == Ok(indexed.value.Value())
  {
    hide Step;
    var indexer := new Indexer();
    var at := 0;
    while at < |file|
      invariant 0 <= at <= |file|
      invariant fresh(indexer) && fresh(indexer.context)
      invariant Run(file, root, at) == Ok(indexer.Value())
    {
      if file[at].Row? {
        var ok := indexer.Take(file, root, file[at].record, at);
        if !ok {
          RunPrefix(file, root, at + 1, |file|);
          return None;
        }
      }
      at := at + 1;
    }
    indexed := Some(indexer);
  }
}
