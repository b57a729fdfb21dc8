/** What a row must look like to follow a path of Claude records.
  *
  * The history carries a compaction stage, its leaf and the known records from row to row.
  * Here all of them are read off the rows of the path: `StageIsRead` says so, `DecisionIs`
  * gives the class of every row, and `RowAdmittedExactly` the rows that may come next.
  */
module ClaudeRows {
  import opened Base
  import opened ClaudeRecords
  import opened ClaudeProjection
  import opened ClaudeHistory
  import opened ClaudeCalls

  /** Every position is a row of its own, with an identity of its own. */
  ghost predicate Fresh(file: seq<Line>, path: seq<Position>) {
    && (forall k :: 0 <= k < |path| ==> IsRow(file, path[k]) && file[path[k]].record.uuid.Valid?)
    && (forall j, k :: 0 <= j < k < |path| ==> file[path[j]].record.uuid != file[path[k]].record.uuid)
  }

  function RowAt(file: seq<Line>, path: seq<Position>, k: nat): Record
    requires k < |path| && IsRow(file, path[k])
  {
    file[path[k]].record
  }

  function IdAt(file: seq<Line>, path: seq<Position>, k: nat): string
    requires k < |path| && IsRow(file, path[k]) && file[path[k]].record.uuid.Valid?
  {
    file[path[k]].record.uuid.id
  }

  predicate IsBoundary(file: seq<Line>, path: seq<Position>, k: nat) {
    k < |path| && IsRow(file, path[k]) && file[path[k]].record.boundary.Some?
  }

  /** The row behind a compaction boundary is its summary. */
  predicate IsSummary(file: seq<Line>, path: seq<Position>, k: nat) {
    0 < k && IsBoundary(file, path, k - 1) && !IsBoundary(file, path, k)
  }

  /** A conversation record; it ends the compaction scaffolding. */
  predicate Ends(r: Record) {
    r.kind in {User, Assistant} && !r.isMeta && !(r.kind == User && r.resume.localCommand) && !r.synthetic
  }

  /** The scaffolding of summary `j` is still open before row `n`. */
  ghost predicate Window(file: seq<Line>, path: seq<Position>, j: nat, n: nat) {
    && j < n <= |path| && IsSummary(file, path, j)
    && forall i :: j < i < n ==> IsRow(file, path[i]) && !IsBoundary(file, path, i) && !Ends(file[path[i]].record)
  }

  ghost predicate InWindow(file: seq<Line>, path: seq<Position>, n: nat) {
    exists j: nat :: Window(file, path, j, n)
  }

  /** The class of a row that is neither boundary nor summary. */
  function ClassOf(r: Record, inWindow: bool): ControlKind {
    if inWindow && r.kind == Attachment then (if r.resume.attachment.FileContent? then File else Ordinary)
    else if inWindow && (r.isMeta || (r.kind == User && r.resume.localCommand)) then
      (if r.resume.commandKind.Some? then r.resume.commandKind.value else Ordinary)
    else if r.synthetic then Synthetic
    else Ordinary
  }

  ghost function Class(file: seq<Line>, path: seq<Position>, k: nat): ControlKind
    requires k < |path| && IsRow(file, path[k])
  {
    if IsBoundary(file, path, k) then Boundary
    else if IsSummary(file, path, k) then Summary
    else ClassOf(file[path[k]].record, InWindow(file, path, k))
  }

  /** Rows that are kept as Raw only. */
  ghost predicate Hidden(file: seq<Line>, path: seq<Position>, k: nat)
    requires k < |path| && IsRow(file, path[k])
  {
    var r := file[path[k]].record;
    IsBoundary(file, path, k) || IsSummary(file, path, k) || r.isMeta || r.synthetic
    || (InWindow(file, path, k) && (r.kind == Attachment || (r.kind == User && r.resume.localCommand)))
  }

  // ---------------------------------------------------------------- the stage before a row

  ghost predicate StageIs(file: seq<Line>, path: seq<Position>, n: nat, stage: Option<Stage>)
    requires n <= |path|
  {
    && (stage.Some? && stage.value.AwaitSummary? <==> n > 0 && IsBoundary(file, path, n - 1))
    && (stage.Some? && stage.value.Resume? <==> InWindow(file, path, n))
    && stage != Some(Copies)
    && (stage.Some? && stage.value.AwaitSummary? ==>
          var b := file[path[n - 1]].record;
          && Valid(stage.value.boundary) == b.uuid && stage.value.summary == b.boundary.value.anchor
          && stage.value.slug == (if b.slug.Valid? then Some(b.slug.id) else None))
  }

  /** Some row before `n` has this identity. */
  ghost predicate OnPath(file: seq<Line>, path: seq<Position>, n: nat, u: string)
    requires n <= |path| && Fresh(file, path)
  {
    exists i: nat :: i < n && IdAt(file, path, i) == u
  }

  ghost predicate ListedAs(file: seq<Line>, path: seq<Position>, i: nat, ctx: Norm)
    requires i < |path| && Fresh(file, path)
  {
    && IdAt(file, path, i) in ctx.records
    && ctx.records[IdAt(file, path, i)] == Indexed(path[i], path[i], Class(file, path, i))
  }

  ghost predicate Lists(file: seq<Line>, path: seq<Position>, n: nat, ctx: Norm)
    requires n <= |path| && Fresh(file, path)
  {
    && ctx.leaf == (if n == 0 then None else Some(IdAt(file, path, n - 1)))
    && (forall u :: u in ctx.records ==> OnPath(file, path, n, u))
    && (forall i: nat :: i < n ==> ListedAs(file, path, i, ctx))
  }

  ghost predicate Read(file: seq<Line>, path: seq<Position>, n: nat)
    requires n <= |path| && Fresh(file, path) && Replay(file, path[..n]).Ok?
  {
    var ctx := Replay(file, path[..n]).value;
    StageIs(file, path, n, ctx.continuation) && Lists(file, path, n, ctx)
  }

  lemma WindowNext(file: seq<Line>, path: seq<Position>, n: nat)
    requires n < |path| && Fresh(file, path)
    ensures var m := n + 1;
            InWindow(file, path, m) <==>
            IsSummary(file, path, n)
            || (InWindow(file, path, n) && !IsBoundary(file, path, n) && !Ends(file[path[n]].record))
  {
    var m := n + 1;
    if InWindow(file, path, m) {
      var j: nat :| Window(file, path, j, m);
      assert j < n ==> Window(file, path, j, n);
    }
    if IsSummary(file, path, n) {
      assert Window(file, path, n, m);
    } else if InWindow(file, path, n) && !IsBoundary(file, path, n) && !Ends(file[path[n]].record) {
      var j: nat :| Window(file, path, j, n);
      assert Window(file, path, j, m);
    }
  }

  lemma NoWindowAtBoundary(file: seq<Line>, path: seq<Position>, n: nat)
    requires 0 < n <= |path| && IsBoundary(file, path, n - 1)
    ensures !InWindow(file, path, n)
  {
    forall j: nat
      ensures !Window(file, path, j, n)
    {
      assert j == n - 1 ==> !IsSummary(file, path, j);
    }
  }

  /** What is decided about a row that is neither boundary nor summary. */
  lemma PlainDecision(file: seq<Line>, r: Record, ctx: Norm)
    requires r.uuid.Valid? && r.uuid.id !in ctx.records && r.boundary.None? && ctx.continuation != Some(Copies)
    requires !(ctx.continuation.Some? && ctx.continuation.value.AwaitSummary?)
    requires Normalize(file, r, ctx).Ok?
    ensures var a := Normalize(file, r, ctx).value;
            var w := ctx.continuation.Some?;
            && !a.copy && a.kind == ClassOf(r, w)
            && a.continuation == (if w && !Ends(r) then ctx.continuation else None)
            && (a.rawOnly <==>
                  r.isMeta || r.synthetic || (w && (r.kind == Attachment || (r.kind == User && r.resume.localCommand))))
  {
  }

  /** Entering a new record lists it and moves the leaf to it. */
  lemma Entered(file: seq<Line>, r: Record, ctx: Norm, at: Position)
    requires r.uuid.Valid? && r.uuid.id !in ctx.records && Normalize(file, r, ctx).Ok? && Admit(file, ctx, r, at).Ok?
    ensures var a := Normalize(file, r, ctx).value;
            var next := Admit(file, ctx, r, at).value;
            && !a.copy && next.leaf == Some(r.uuid.id) && next.continuation == a.continuation
            && next.records == ctx.records[r.uuid.id := Indexed(at, at, a.kind)]
  {
    assert !Normalize(file, r, ctx).value.copy;
    hide Normalize, AddCalls, Blocks, Results, OpenResponse, CloseCalls;
  }

  lemma EnteredLists(file: seq<Line>, path: seq<Position>, n: nat, ctx: Norm, next: Norm)
    requires n < |path| && Fresh(file, path) && Lists(file, path, n, ctx)
    requires next.leaf == Some(IdAt(file, path, n))
    requires next.records ==
             ctx.records[IdAt(file, path, n) := Indexed(path[n], path[n], Class(file, path, n))]
    ensures var m := n + 1; Lists(file, path, m, next)
  {
    hide Class;
    var u, m := IdAt(file, path, n), n + 1;
    forall v | v in next.records
      ensures OnPath(file, path, m, v)
    {
      if v == u {
        assert n < m && IdAt(file, path, n) == v;
      } else {
        assert OnPath(file, path, n, v);
      }
    }
    forall i: nat | i < m
      ensures ListedAs(file, path, i, next)
    {
      if i < n {
        Distinct(file, path, i, n);
        assert ListedAs(file, path, i, ctx);
      }
    }
    hide OnPath, ListedAs, Fresh;
  }

  lemma Distinct(file: seq<Line>, path: seq<Position>, i: nat, k: nat)
    requires i < k < |path| && Fresh(file, path)
    ensures IdAt(file, path, i) != IdAt(file, path, k)
  {
  }

  lemma NewOnPath(file: seq<Line>, path: seq<Position>, n: nat, ctx: Norm)
    requires n < |path| && Fresh(file, path) && Lists(file, path, n, ctx)
    ensures IdAt(file, path, n) !in ctx.records
  {
    if IdAt(file, path, n) in ctx.records {
      assert OnPath(file, path, n, IdAt(file, path, n));
      var i: nat :| i < n && IdAt(file, path, i) == IdAt(file, path, n);
      Distinct(file, path, i, n);
    }
  }

  /** What is decided about row `n`, read off the rows before it. */
  lemma DecisionRead(file: seq<Line>, path: seq<Position>, n: nat, ctx: Norm)
    requires n < |path| && Fresh(file, path)
    requires StageIs(file, path, n, ctx.continuation) && Lists(file, path, n, ctx)
    requires Normalize(file, file[path[n]].record, ctx).Ok?
    ensures var a := Normalize(file, file[path[n]].record, ctx).value; var m := n + 1;
            && !a.copy && a.kind == Class(file, path, n) && (a.rawOnly <==> Hidden(file, path, n))
            && StageIs(file, path, m, a.continuation)
  {
    WindowNext(file, path, n);
    var r := file[path[n]].record;
    var m := n + 1;
    NewOnPath(file, path, n, ctx);
    if r.boundary.Some? {
      NoWindowAtBoundary(file, path, m);
      hide InWindow, OrdinaryParent, Lists, Fresh;
    } else if n > 0 && IsBoundary(file, path, n - 1) {
      NoWindowAtBoundary(file, path, n);
      hide InWindow, OrdinaryParent, Lists, Fresh;
    } else {
      PlainDecision(file, r, ctx);
      hide Normalize, InWindow, Lists, Fresh;
    }
  }

  lemma ReadNext(file: seq<Line>, path: seq<Position>, n: nat)
    requires n < |path| && Fresh(file, path) && Replay(file, path).Ok?
    requires Replay(file, path[..n]).Ok? && Read(file, path, n)
    ensures Replay(file, path[..n + 1]).Ok? && Decision(file, path, n).Ok?
    ensures var m := n + 1; Read(file, path, m)
    ensures var a := Decision(file, path, n).value;
            !a.copy && a.kind == Class(file, path, n) && (a.rawOnly <==> Hidden(file, path, n))
  {
    hide Normalize, Admit, Decision, Replay, Class, StageIs, Hidden;
    ReplayNext(file, path, n);
    var ctx := Replay(file, path[..n]).value;
    var r := file[path[n]].record;
    DecisionRead(file, path, n, ctx);
    NewOnPath(file, path, n, ctx);
    Entered(file, r, ctx, path[n]);
    EnteredLists(file, path, n, ctx, Admit(file, ctx, r, path[n]).value);
  }

  /** The stage, the leaf and the listed records are those that the rows of the path say. */
  lemma {:induction false} StageIsRead(file: seq<Line>, path: seq<Position>, n: nat)
    requires n <= |path| && Fresh(file, path) && Replay(file, path).Ok?
    ensures Replay(file, path[..n]).Ok? && Read(file, path, n)
  {
    hide Admit, Decision, Class, Hidden;
    if n == 0 {
      assert path[..0] == [];
    } else {
      StageIsRead(file, path, n - 1);
      hide Read;
      ReadNext(file, path, n - 1);
      var k := n - 1;
      assert path[..k + 1] == path[..n];
    }
  }

  /** On a path, the class of every row and whether it stays Raw follow from the rows before it. */
  lemma DecisionIs(file: seq<Line>, path: seq<Position>, k: nat)
    requires k < |path| && Fresh(file, path) && Replay(file, path).Ok?
    ensures Decision(file, path, k).Ok?
    ensures var a := Decision(file, path, k).value;
            !a.copy && a.kind == Class(file, path, k) && (a.rawOnly <==> Hidden(file, path, k))
  {
    hide Class, Hidden, Decision, Replay, Read;
    StageIsRead(file, path, k);
    ReadNext(file, path, k);
  }

  // ---------------------------------------------------------------- the rows that may come next

  /** The row names the last row of the path as its parent, or is its first row. */
  ghost predicate FollowsLast(file: seq<Line>, path: seq<Position>, r: Record)
    requires Fresh(file, path)
  {
    r.parent == if path == [] then Null else Named(IdAt(file, path, |path| - 1))
  }

  /** The result answers a call that is open behind the path, and fits it. */
  ghost predicate AnswersOpen(file: seq<Line>, path: seq<Position>, r: Record, b: Block)
    requires b.ToolResultBlock? && Fresh(file, path)
  {
    var leaf := if path == [] then None else Some(IdAt(file, path, |path| - 1));
    b.callId.Some? && exists c :: SomeOpen(file, path, |path|, b.callId.value, c) && Fits(r, b, leaf, c)
  }

  ghost predicate ParentFits(file: seq<Line>, path: seq<Position>, r: Record)
    requires Fresh(file, path)
  {
    if !HasResult(r) then FollowsLast(file, path, r)
    else
      && r.kind == User
      && (forall i, j :: 0 <= i < j < |Results(r)| && Results(r)[i].ToolResultBlock? && Results(r)[j].ToolResultBlock?
            ==> Results(r)[i].callId != Results(r)[j].callId)
      && (forall b :: b in Blocks(r) && b.ToolResultBlock? ==> AnswersOpen(file, path, r, b))
  }

  /** A compaction boundary names the last row and rows of the path only, and a new summary. */
  ghost predicate BoundaryFits(file: seq<Line>, path: seq<Position>, r: Record)
    requires Fresh(file, path) && r.boundary.Some?
  {
    var b := r.boundary.value;
    && b.shape && path != [] && b.logicalParent == Some(IdAt(file, path, |path| - 1))
    && (forall id :: id in b.ids || id in b.all ==> OnPath(file, path, |path|, id))
    && !OnPath(file, path, |path|, b.anchor) && !r.slug.Invalid?
    && !IsBoundary(file, path, |path| - 1)
  }

  /** The summary that boundary `b` declares. */
  predicate SummaryFits(r: Record, b: Record)
    requires b.boundary.Some?
  {
    && r.summaryShape && r.uuid == Valid(b.boundary.value.anchor) && b.uuid.Valid? && r.parent == Named(b.uuid.id)
    && (b.slug.Valid? ==> r.slug == b.slug)
  }

  /** Rows of the scaffolding behind a summary. */
  predicate ScaffoldFits(r: Record, last: ControlKind)
  {
    if r.kind == Attachment then !r.resume.attachment.BadAttachment?
    else if r.isMeta || (r.kind == User && r.resume.localCommand) then
      r.resume.commandShape && r.resume.commandKind.Some?
    else if r.synthetic then r.resume.syntheticShape && last in {Stdout, Meta}
    else r.kind in {User, Assistant} ==> r.message.Some? && r.message.value.role == r.kind
  }

  /** The row may follow the path. */
  ghost predicate Continues(file: seq<Line>, path: seq<Position>, r: Record)
    requires Fresh(file, path)
  {
    var n := |path|;
    && r.sessionOk && r.threadOk
    && if r.boundary.Some? then BoundaryFits(file, path, r)
       else if n > 0 && IsBoundary(file, path, n - 1) then SummaryFits(r, file[path[n - 1]].record)
       else
         && !r.logicalParent && !r.summaryFlags && ParentFits(file, path, r)
         && if InWindow(file, path, n) then ScaffoldFits(r, Class(file, path, n - 1))
            else !r.synthetic && (r.kind in {User, Assistant} ==> r.message.Some? && r.message.value.role == r.kind)
  }

  lemma LeafRead(file: seq<Line>, path: seq<Position>)
    requires Fresh(file, path) && Replay(file, path).Ok?
    ensures Replay(file, path).value.leaf == if path == [] then None else Some(IdAt(file, path, |path| - 1))
    ensures forall u :: u in Replay(file, path).value.records <==> OnPath(file, path, |path|, u)
    ensures forall i: nat :: i < |path| ==> ListedAs(file, path, i, Replay(file, path).value)
    ensures StageIs(file, path, |path|, Replay(file, path).value.continuation)
  {
    hide Replay, StageIs, Class;
    StageIsRead(file, path, |path|);
    assert path[..|path|] == path;
    var ctx := Replay(file, path).value;
    forall u | OnPath(file, path, |path|, u)
      ensures u in ctx.records
    {
      var i: nat :| i < |path| && IdAt(file, path, i) == u;
      assert ListedAs(file, path, i, ctx);
    }
  }

  lemma ResultRead(file: seq<Line>, path: seq<Position>, r: Record, b: Block)
    requires Fresh(file, path) && Replay(file, path).Ok? && b.ToolResultBlock?
    ensures var ctx := Replay(file, path).value;
            (ctx.response.Some? && ResultAdmissible(r, b, ctx)) <==> AnswersOpen(file, path, r, b)
  {
    hide Replay, SomeOpen;
    LeafRead(file, path);
    var ctx := Replay(file, path).value;
    if b.callId.Some? {
      forall c
        ensures Pending(ctx, b.callId.value, c) <==> SomeOpen(file, path, |path|, b.callId.value, c)
      {
        PendingExactly(file, path, b.callId.value, c);
      }
      if ctx.response.Some? && b.callId.value in ctx.response.value.pending {
        assert Pending(ctx, b.callId.value, ctx.response.value.pending[b.callId.value]);
      }
    }
  }

  lemma ParentRead(file: seq<Line>, path: seq<Position>, r: Record)
    requires Fresh(file, path) && Replay(file, path).Ok?
    ensures OrdinaryParent(r, Replay(file, path).value) <==> ParentFits(file, path, r)
  {
    var ctx := Replay(file, path).value;
    hide Replay, ResultAdmissible, AnswersOpen, Read;
    ResultsFound(r);
    LeafRead(file, path);
    forall b | b in Blocks(r) && b.ToolResultBlock?
      ensures ctx.response.Some? && ResultAdmissible(r, b, ctx) <==> AnswersOpen(file, path, r, b)
    {
      ResultRead(file, path, r, b);
    }
    assert forall i :: 0 <= i < |Results(r)| ==> Results(r)[i] in Results(r);
    if HasResult(r) {
      assert Results(r)[0] in Blocks(r) && Results(r)[0].ToolResultBlock?;
    }
  }

  lemma WindowBegins(file: seq<Line>, path: seq<Position>, n: nat)
    requires InWindow(file, path, n)
    ensures n > 0
  {
  }

  lemma BoundaryAdmitted(file: seq<Line>, path: seq<Position>, r: Record)
    requires Fresh(file, path) && Replay(file, path).Ok? && r.boundary.Some?
    requires r.uuid.Valid? && !OnPath(file, path, |path|, r.uuid.id)
    ensures Normalize(file, r, Replay(file, path).value).Ok? <==> Continues(file, path, r)
  {
    hide Replay, OrdinaryParent, ParentFits, OnPath, Fresh, InWindow, ListedAs, Class;
    LeafRead(file, path);
  }

  lemma SummaryAdmitted(file: seq<Line>, path: seq<Position>, r: Record)
    requires Fresh(file, path) && Replay(file, path).Ok? && r.boundary.None?
    requires r.uuid.Valid? && !OnPath(file, path, |path|, r.uuid.id)
    requires |path| > 0 && IsBoundary(file, path, |path| - 1)
    ensures Normalize(file, r, Replay(file, path).value).Ok? <==> Continues(file, path, r)
  {
    hide Replay, OrdinaryParent, ParentFits, OnPath, Fresh, InWindow, ListedAs, Class;
    LeafRead(file, path);
  }

  lemma OrdinaryAdmitted(file: seq<Line>, path: seq<Position>, r: Record)
    requires Fresh(file, path) && Replay(file, path).Ok? && r.boundary.None?
    requires r.uuid.Valid? && !OnPath(file, path, |path|, r.uuid.id)
    requires |path| > 0 ==> !IsBoundary(file, path, |path| - 1)
    ensures Normalize(file, r, Replay(file, path).value).Ok? <==> Continues(file, path, r)
  {
    hide Replay, OrdinaryParent, ParentFits, OnPath, Fresh, InWindow, IsBoundary, Class, BoundaryFits, SummaryFits,
         SourceBoundary, SameReplay;
    LeafRead(file, path);
    ParentRead(file, path, r);
    if InWindow(file, path, |path|) {
      WindowBegins(file, path, |path|);
      assert ListedAs(file, path, |path| - 1, Replay(file, path).value);
    }
  }

  /** A row with a new identity is accepted behind a path exactly if it continues it. */
  lemma RowAdmittedExactly(file: seq<Line>, path: seq<Position>, r: Record)
    requires Fresh(file, path) && Replay(file, path).Ok?
    requires r.uuid.Valid? && !OnPath(file, path, |path|, r.uuid.id)
    ensures Normalize(file, r, Replay(file, path).value).Ok? <==> Continues(file, path, r)
  {
    hide Replay, Normalize, Continues, OnPath, Fresh, IsBoundary;
    if r.boundary.Some? {
      BoundaryAdmitted(file, path, r);
    } else if |path| > 0 && IsBoundary(file, path, |path| - 1) {
      SummaryAdmitted(file, path, r);
    } else {
      OrdinaryAdmitted(file, path, r);
    }
  }

  /** No tool use of the record repeats a call of the path or of the record itself. */
  ghost predicate CallsAreNew(file: seq<Line>, path: seq<Position>, r: Record) {
    && (forall i, j :: 0 <= i < j < |Blocks(r)| && Blocks(r)[i].ToolUseBlock? && Blocks(r)[j].ToolUseBlock? ==>
          Blocks(r)[i].id != Blocks(r)[j].id)
    && (forall b, c :: b in Blocks(r) && b.ToolUseBlock? ==> !Made(file, path, |path|, b.id, c))
  }

  predicate UsesAreNew(blocks: seq<Block>, calls: map<string, Call>) {
    && (forall i, j :: 0 <= i < j < |blocks| && blocks[i].ToolUseBlock? && blocks[j].ToolUseBlock? ==>
          blocks[i].id != blocks[j].id)
    && (forall b :: b in blocks && b.ToolUseBlock? ==> b.id !in calls)
  }

  lemma {:induction false} CallsAdded(uuid: string, blocks: seq<Block>, calls: map<string, Call>,
                                      pending: map<string, Call>)
    ensures AddCalls(uuid, blocks, calls, pending).Ok? <==> UsesAreNew(blocks, calls)
    decreases |blocks|
  {
    if blocks != [] {
      var b, rest := blocks[0], blocks[1..];
      assert forall o :: o in blocks <==> o == b || o in rest;
      assert forall i :: 0 <= i < |rest| ==> rest[i] == blocks[i + 1] && rest[i] in rest;
      assert forall i {:trigger blocks[i]} :: 1 <= i < |blocks| ==> blocks[i] == rest[i - 1];
      if b.ToolUseBlock? {
        var call := Call(uuid, b.name, b.path, b.background);
        CallsAdded(uuid, rest, calls[b.id := call], pending[b.id := call]);
      } else {
        CallsAdded(uuid, rest, calls, pending);
      }
    }
  }

  lemma CallsRead(file: seq<Line>, path: seq<Position>, r: Record)
    requires Replay(file, path).Ok?
    ensures UsesAreNew(Blocks(r), Replay(file, path).value.calls) <==> CallsAreNew(file, path, r)
  {
    hide Replay, Made;
    var ctx := Replay(file, path).value;
    forall b, c | b in Blocks(r) && b.ToolUseBlock?
      ensures Listed(ctx, b.id, c) <==> Made(file, path, |path|, b.id, c)
    {
      PendingExactly(file, path, b.id, c);
    }
    forall b | b in Blocks(r) && b.ToolUseBlock? && b.id in ctx.calls
      ensures Listed(ctx, b.id, ctx.calls[b.id])
    {
    }
  }

  lemma FreshMore(file: seq<Line>, path: seq<Position>, at: Position)
    requires Fresh(file, path) && IsRow(file, at) && file[at].record.uuid.Valid?
    requires !OnPath(file, path, |path|, file[at].record.uuid.id)
    ensures Fresh(file, path + [at])
  {
    var more := path + [at];
    forall i: nat | i < |path|
      ensures file[more[i]].record.uuid != file[at].record.uuid
    {
      assert IdAt(file, path, i) != file[at].record.uuid.id;
    }
  }

  /** The rows of a prefix say the same in every path that goes on from it. */
  lemma PathReads(file: seq<Line>, path: seq<Position>, more: seq<Position>, n: nat, stage: Option<Stage>)
    requires |path| <= |more| && more[..|path|] == path && n <= |path|
    ensures InWindow(file, path, n) <==> InWindow(file, more, n)
    ensures StageIs(file, path, n, stage) <==> StageIs(file, more, n, stage)
  {
    assert forall i: nat :: i < |path| ==> more[i] == path[i];
    assert forall i: nat :: i < |path| ==>
             IsBoundary(file, path, i) == IsBoundary(file, more, i) &&
             IsSummary(file, path, i) == IsSummary(file, more, i);
    assert forall j: nat :: Window(file, path, j, n) <==> Window(file, more, j, n);
  }

  lemma MoreLists(file: seq<Line>, path: seq<Position>, more: seq<Position>, ctx: Norm)
    requires |path| <= |more| && more[..|path|] == path && Fresh(file, path) && Fresh(file, more)
    requires Lists(file, path, |path|, ctx)
    ensures Lists(file, more, |path|, ctx)
  {
    var n := |path|;
    assert forall i: nat :: i < n ==> more[i] == path[i] && IdAt(file, more, i) == IdAt(file, path, i);
    forall u | u in ctx.records
      ensures OnPath(file, more, n, u)
    {
      assert OnPath(file, path, n, u);
      var i: nat :| i < n && IdAt(file, path, i) == u;
      assert IdAt(file, more, i) == u;
    }
    forall i: nat | i < n
      ensures ListedAs(file, more, i, ctx)
    {
      assert ListedAs(file, path, i, ctx);
      PathReads(file, path, more, i, None);
    }
  }

  /** The decision about the next row, read off the path that it makes. */
  lemma RawIsHidden(file: seq<Line>, path: seq<Position>, n: nat)
    requires Fresh(file, path) && Replay(file, path).Ok?
    requires IsRow(file, n) && file[n].record.uuid.Valid? && !OnPath(file, path, |path|, file[n].record.uuid.id)
    requires Normalize(file, file[n].record, Replay(file, path).value).Ok?
    ensures Fresh(file, path + [n]) && (path + [n])[|path|] == n
    ensures var a := Normalize(file, file[n].record, Replay(file, path).value).value;
            (a.rawOnly <==> Hidden(file, path + [n], |path|)) && a.kind == Class(file, path + [n], |path|)
  {
    var more, k := path + [n], |path|;
    FreshMore(file, path, n);
    assert more[..k] == path && more[k] == n;
    var ctx := Replay(file, path).value;
    LeafRead(file, path);
    PathReads(file, path, more, k, ctx.continuation);
    MoreLists(file, path, more, ctx);
    DecisionRead(file, more, k, ctx);
    hide Normalize, Hidden, Replay, Class, Fresh, InWindow;
  }

  /** Behind a row with a new identity the path can be replayed exactly if the row
    * continues it and, when it is conversation, calls nothing twice. */
  lemma PathGrowsExactly(file: seq<Line>, path: seq<Position>, at: Position)
    requires Fresh(file, path) && Replay(file, path).Ok?
    requires IsRow(file, at) && file[at].record.uuid.Valid?
    requires !OnPath(file, path, |path|, file[at].record.uuid.id)
    ensures Fresh(file, path + [at]) && (path + [at])[|path|] == at
    ensures var r := file[at].record;
            Replay(file, path + [at]).Ok? <==>
            Continues(file, path, r)
            && (Speaks(r) && !Hidden(file, path + [at], |path|) ==> CallsAreNew(file, path, r))
  {
    var more, n := path + [at], |path|;
    FreshMore(file, path, at);
    assert more[..n] == path && more[n] == at;
    var r := file[at].record;
    var ctx := Replay(file, path).value;
    LeafRead(file, path);
    RowAdmittedExactly(file, path, r);
    ReplaySnoc(file, path, at);
    if Normalize(file, r, ctx).Ok? {
      RawIsHidden(file, path, at);
      CallsRead(file, path, r);
      CommitSucceeds(file, ctx, r, at);
    }
    hide Normalize, Continues, Hidden, Replay, Class, Fresh, CallsAreNew, InWindow;
  }

  lemma CommitSucceeds(file: seq<Line>, ctx: Norm, r: Record, at: Position)
    requires r.uuid.Valid? && r.uuid.id !in ctx.records && Normalize(file, r, ctx).Ok?
    ensures Admit(file, ctx, r, at).Ok? <==>
            (Speaks(r) && !Normalize(file, r, ctx).value.rawOnly ==> UsesAreNew(Blocks(r), ctx.calls))
  {
    var a := Normalize(file, r, ctx).value;
    var entered := Enter(ctx, r, at, a);
    hide Normalize, UsesAreNew, AddCalls, Blocks;
    if Speaks(r) {
      var key := ResponseOf(r);
      CallsAdded(r.uuid.id, Blocks(r), entered.calls, OpenResponse(entered.response, key.0, key.1).pending);
    }
  }

  // ---------------------------------------------------------------- the indexed stream

  lemma {:induction false} PathIsFresh(file: seq<Line>, n: nat, nodes: map<string, Node>, leaf: Option<string>)
    requires Tree(file, n, nodes) && InTree(nodes, leaf)
    ensures Fresh(file, Path(nodes, leaf))
    ensures forall u :: OnPath(file, Path(nodes, leaf), |Path(nodes, leaf)|, u) ==>
              u in nodes && leaf.Some? && nodes[u].ref <= nodes[leaf.value].ref
    decreases if leaf.None? then 0 else 1 + nodes[leaf.value].ref
  {
    var path := Path(nodes, leaf);
    if leaf.Some? {
      var u := leaf.value;
      assert Anchored(nodes, u);
      PathIsFresh(file, n, nodes, nodes[u].predecessor);
      NodeLine(file, n, nodes, u);
      var older := Path(nodes, nodes[u].predecessor);
      hide Tree, Replay;
      assert path == older + [nodes[u].ref];
      FreshMore(file, older, nodes[u].ref);
      forall v | OnPath(file, path, |path|, v)
        ensures v in nodes && nodes[v].ref <= nodes[u].ref
      {
        var i: nat :| i < |path| && IdAt(file, path, i) == v;
        if i < |older| {
          assert IdAt(file, older, i) == v && OnPath(file, older, |older|, v);
        }
      }
    }
  }

  /** Every indexed record continues the path of its predecessor, and no record repeats on it. */
  lemma StreamRowsContinue(file: seq<Line>, root: Root, n: nat, u: string)
    requires n <= |file| && Run(file, root, n).Ok? && u in Run(file, root, n).value.nodes
    ensures var nodes := Run(file, root, n).value.nodes;
            && Rooted(nodes) && IsRow(file, nodes[u].ref) && file[nodes[u].ref].record.uuid == Valid(u)
            && InTree(nodes, nodes[u].predecessor) && Fresh(file, Path(nodes, nodes[u].predecessor))
            && Continues(file, Path(nodes, nodes[u].predecessor), file[nodes[u].ref].record)
  {
    RunKeepsInv(file, root, n);
    var nodes := Run(file, root, n).value.nodes;
    var older := nodes[u].predecessor;
    NodeLine(file, n, nodes, u);
    assert Rooted(nodes) && Anchored(nodes, u);
    PathIsFresh(file, n, nodes, older);
    PathIsFresh(file, n, nodes, Some(u));
    NodesDecide(file, root, n, u);
    hide Run, Tree, Continues, Replay, Normalize, Live;
    var path := Path(nodes, older);
    assert !OnPath(file, path, |path|, u);
    RowAdmittedExactly(file, path, file[nodes[u].ref].record);
  }

  lemma LastIsLeaf(file: seq<Line>, n: nat, nodes: map<string, Node>, leaf: Option<string>)
    requires Tree(file, n, nodes) && InTree(nodes, leaf) && Fresh(file, Path(nodes, leaf))
    ensures leaf.None? ==> Path(nodes, leaf) == []
    ensures leaf.Some? ==> Path(nodes, leaf) != []
    ensures leaf.Some? ==> IdAt(file, Path(nodes, leaf), |Path(nodes, leaf)| - 1) == leaf.value
  {
    if leaf.Some? {
      assert Anchored(nodes, leaf.value);
      NodeLine(file, n, nodes, leaf.value);
    }
  }

  /** A record without results hangs under the record it names as its parent, a compaction
    * boundary under the one it names as its logical parent. */
  lemma HangsUnderParent(file: seq<Line>, root: Root, n: nat, u: string)
    requires n <= |file| && Run(file, root, n).Ok? && u in Run(file, root, n).value.nodes
    ensures IsRow(file, Run(file, root, n).value.nodes[u].ref)
    ensures var node := Run(file, root, n).value.nodes[u];
            var r := file[node.ref].record;
            && (r.boundary.Some? ==> node.predecessor.Some? && r.boundary.value.logicalParent == node.predecessor)
            && (r.boundary.None? && !HasResult(r) ==>
                  r.parent == if node.predecessor.None? then Null else Named(node.predecessor.value))
  {
    StreamRowsContinue(file, root, n, u);
    RunKeepsInv(file, root, n);
    var nodes := Run(file, root, n).value.nodes;
    LastIsLeaf(file, n, nodes, nodes[u].predecessor);
    hide Run, Tree, Replay, Live, Path, InWindow, Rooted, AnswersOpen, OnPath, Class;
  }
}
