/** Tool calls and their results along a path of Claude records.
  *
  * The history keeps one open response with its unanswered calls and changes both record by
  * record. Here they are read off the records of the path instead: a call is open if nothing
  * behind it ended its response and no result answered it. The two agree (`PendingExactly`),
  * so on every path a result answers an earlier call of the open response, and no call is
  * answered twice.
  */
module ClaudeCalls {
  import opened Base
  import opened ClaudeRecords
  import opened ClaudeProjection
  import opened ClaudeHistory
  import opened ClaudePlan

  // ---------------------------------------------------------------- what a record says

  predicate HasResult(r: Record) {
    exists b :: b in Blocks(r) && b.ToolResultBlock?
  }

  predicate Carries(r: Record, id: string) {
    exists b :: b in Blocks(r) && b.ToolResultBlock? && b.callId == Some(id)
  }

  /** The record holds a tool use with this id, and `c` is what it says about it. */
  predicate Makes(r: Record, id: string, c: Call) {
    r.uuid.Valid? &&
    exists b :: b in Blocks(r) && b.ToolUseBlock? && b.id == id
                && c == Call(r.uuid.id, b.name, b.path, b.background)
  }

  predicate Speaks(r: Record) {
    r.kind == Assistant && r.message.Some? && r.uuid.Valid?
  }

  /** The response an assistant record belongs to. */
  function ResponseOf(r: Record): (string, string)
    requires Speaks(r)
  {
    (if r.message.value.id.Some? then r.message.value.id.value else r.uuid.id, r.message.value.model)
  }

  lemma {:induction false} ResultsAreBlocks(blocks: seq<Block>, b: Block)
    ensures b in ToolResults(blocks) <==> b in blocks && b.ToolResultBlock?
  {
    if blocks != [] {
      ResultsAreBlocks(blocks[1..], b);
      assert b in blocks <==> b == blocks[0] || b in blocks[1..];
    }
  }

  lemma ResultsFound(r: Record)
    ensures HasResult(r) <==> Results(r) != []
    ensures forall b :: b in Results(r) <==> b in Blocks(r) && b.ToolResultBlock?
  {
    forall b
      ensures b in Results(r) <==> b in Blocks(r) && b.ToolResultBlock?
    {
      ResultsAreBlocks(Blocks(r), b);
    }
    if Results(r) != [] {
      assert Results(r)[0] in Results(r);
    }
  }

  // ---------------------------------------------------------------- one commit

  predicate Pending(ctx: Norm, id: string, c: Call) {
    ctx.response.Some? && id in ctx.response.value.pending && ctx.response.value.pending[id] == c
  }

  lemma {:induction false} AddedCalls(uuid: string, blocks: seq<Block>, calls: map<string, Call>,
                                      pending: map<string, Call>, id: string, c: Call)
    requires AddCalls(uuid, blocks, calls, pending).Ok?
    ensures var made := exists b :: b in blocks && b.ToolUseBlock? && b.id == id
                                    && c == Call(uuid, b.name, b.path, b.background);
            var out := AddCalls(uuid, blocks, calls, pending).value;
            && (made ==> id !in calls)
            && (id in out.0 && out.0[id] == c <==> made || (id in calls && calls[id] == c))
            && (pending.Keys <= calls.Keys ==>
                  (id in out.1 && out.1[id] == c <==> made || (id in pending && pending[id] == c))
                  && out.1.Keys <= out.0.Keys)
    decreases |blocks|
  {
    if blocks != [] {
      var b := blocks[0];
      assert forall o :: o in blocks <==> o == b || o in blocks[1..];
      if b.ToolUseBlock? {
        var call := Call(uuid, b.name, b.path, b.background);
        AddedCalls(uuid, blocks[1..], calls[b.id := call], pending[b.id := call], id, c);
      } else {
        AddedCalls(uuid, blocks[1..], calls, pending, id, c);
      }
    }
  }

  lemma {:induction false} ClosedCalls(results: seq<Block>, pending: map<string, Call>, id: string)
    requires forall b :: b in results ==> b.ToolResultBlock?
    ensures var left := CloseCalls(results, pending);
            (id in left <==> id in pending && forall b :: b in results ==> b.callId != Some(id))
            && (id in left ==> left[id] == pending[id])
    decreases |results|
  {
    if results != [] {
      var b := results[0];
      assert forall o :: o in results <==> o == b || o in results[1..];
      ClosedCalls(results[1..], if b.callId.Some? then pending - {b.callId.value} else pending, id);
    }
  }

  /** Calls that wait for a result are known calls. */
  predicate Known(ctx: Norm) {
    ctx.response.Some? ==> ctx.response.value.pending.Keys <= ctx.calls.Keys
  }

  /** Which calls are open after a record, by what the record is. */
  lemma PendingAfter(file: seq<Line>, ctx: Norm, r: Record, at: Position, id: string, c: Call)
    requires Known(ctx) && Admit(file, ctx, r, at).Ok?
    ensures var a := Normalize(file, r, ctx).value;
            var next := Admit(file, ctx, r, at).value;
            && Known(next) && (!a.rawOnly ==> a.kind != Boundary)
            && (r.kind == Assistant && !a.rawOnly ==> Speaks(r))
            && (Pending(next, id, c) <==>
                  if a.rawOnly || !(Speaks(r) || r.kind == User) then a.kind != Boundary && Pending(ctx, id, c)
                  else if r.kind == Assistant then
                    Makes(r, id, c)
                    || (Pending(ctx, id, c) && (ctx.response.value.id, ctx.response.value.model) == ResponseOf(r))
                  else HasResult(r) && Pending(ctx, id, c) && !Carries(r, id))
  {
    var a := Normalize(file, r, ctx).value;
    ResultsFound(r);
    if !a.rawOnly {
      OrdinaryHasRole(file, r, ctx);
      assert a.kind != Boundary;
      hide Normalize;
      var entered := Enter(ctx, r, at, a);
      if Speaks(r) {
        var key := ResponseOf(r);
        var open := OpenResponse(entered.response, key.0, key.1);
        AddedCalls(r.uuid.id, Blocks(r), entered.calls, open.pending, id, c);
        KnownAfterCalls(r.uuid.id, Blocks(r), entered.calls, open.pending);
      } else if r.kind == User && HasResult(r) && ctx.response.Some? {
        ClosedCalls(Results(r), ctx.response.value.pending, id);
        KnownAfterResults(Results(r), ctx.response.value.pending);
      }
    }
  }

  lemma KnownAfterCalls(uuid: string, blocks: seq<Block>, calls: map<string, Call>, pending: map<string, Call>)
    requires AddCalls(uuid, blocks, calls, pending).Ok? && pending.Keys <= calls.Keys
    ensures var out := AddCalls(uuid, blocks, calls, pending).value; out.1.Keys <= out.0.Keys
  {
    AddedCalls(uuid, blocks, calls, pending, "", Call("", "", None, false));
  }

  lemma KnownAfterResults(results: seq<Block>, pending: map<string, Call>)
    requires forall b :: b in results ==> b.ToolResultBlock?
    ensures CloseCalls(results, pending).Keys <= pending.Keys
  {
    forall id | id in CloseCalls(results, pending)
      ensures id in pending
    {
      ClosedCalls(results, pending, id);
    }
  }

  /** Which calls are known after a record, and which response is open. */
  lemma CallsAfter(file: seq<Line>, ctx: Norm, r: Record, at: Position, id: string, c: Call)
    requires Admit(file, ctx, r, at).Ok?
    ensures var a := Normalize(file, r, ctx).value;
            var next := Admit(file, ctx, r, at).value;
            var made := !a.rawOnly && Speaks(r) && Makes(r, id, c);
            && (made ==> id !in ctx.calls)
            && (id in next.calls && next.calls[id] == c <==> made || (id in ctx.calls && ctx.calls[id] == c))
            && (!a.rawOnly && Speaks(r) ==>
                  next.response.Some? && (next.response.value.id, next.response.value.model) == ResponseOf(r))
            && (next.response.Some? && !(!a.rawOnly && Speaks(r)) ==>
                  ctx.response.Some? && next.response.value.id == ctx.response.value.id
                  && next.response.value.model == ctx.response.value.model)
            && (next.response.None? && ctx.response.Some? ==>
                  a.kind == Boundary || (!a.rawOnly && r.kind == User && !HasResult(r)))
  {
    var a := Normalize(file, r, ctx).value;
    ResultsFound(r);
    if !a.rawOnly {
      OrdinaryHasRole(file, r, ctx);
      hide Normalize;
      var entered := Enter(ctx, r, at, a);
      if Speaks(r) {
        var key := ResponseOf(r);
        AddedCalls(r.uuid.id, Blocks(r), entered.calls, OpenResponse(entered.response, key.0, key.1).pending, id, c);
      }
    }
  }

  // ---------------------------------------------------------------- a path

  /** How the `k`-th record of a path was classified when it was admitted. */
  function Decision(file: seq<Line>, path: seq<Position>, k: nat): Result<Action>
    requires k < |path|
  {
    var before :- Replay(file, path[..k]);
    if IsRow(file, path[k]) then Normalize(file, file[path[k]].record, before) else Err(Changed)
  }

  /** It was admitted as conversation, not as Raw only. */
  predicate Spoken(file: seq<Line>, path: seq<Position>, k: nat) {
    k < |path| && IsRow(file, path[k]) && Decision(file, path, k).Ok? && !Decision(file, path, k).value.rawOnly
  }

  predicate Calls(file: seq<Line>, path: seq<Position>, j: nat, id: string, c: Call) {
    Spoken(file, path, j) && Speaks(file[path[j]].record) && Makes(file[path[j]].record, id, c)
  }

  predicate Answers(file: seq<Line>, path: seq<Position>, k: nat, id: string) {
    Spoken(file, path, k) && file[path[k]].record.kind == User && Carries(file[path[k]].record, id)
  }

  /** Record `i` leaves the response of record `j` open and its call `id` unanswered. */
  predicate Keeps(file: seq<Line>, path: seq<Position>, j: nat, i: nat, id: string) {
    && i < |path| && IsRow(file, path[i]) && Decision(file, path, i).Ok?
    && j < |path| && IsRow(file, path[j]) && Speaks(file[path[j]].record)
    && Decision(file, path, i).value.kind != Boundary
    && (Spoken(file, path, i) ==>
          var r := file[path[i]].record;
          && (Speaks(r) ==> ResponseOf(r) == ResponseOf(file[path[j]].record))
          && (r.kind == User ==> HasResult(r) && !Carries(r, id)))
  }

  /** Record `j` calls `id` as `c`, and the call is still open before record `n`. */
  ghost predicate OpenCall(file: seq<Line>, path: seq<Position>, j: nat, n: nat, id: string, c: Call) {
    j < n <= |path| && Calls(file, path, j, id, c) && forall i :: j < i < n ==> Keeps(file, path, j, i, id)
  }

  /** Some call `id`, made as `c`, is open before record `n`. */
  ghost predicate SomeOpen(file: seq<Line>, path: seq<Position>, n: nat, id: string, c: Call) {
    exists j: nat :: OpenCall(file, path, j, n, id, c)
  }

  /** Some record before `n` made the call. */
  ghost predicate Made(file: seq<Line>, path: seq<Position>, n: nat, id: string, c: Call) {
    exists j: nat :: j < n && Calls(file, path, j, id, c)
  }

  predicate Listed(ctx: Norm, id: string, c: Call) {
    id in ctx.calls && ctx.calls[id] == c
  }

  lemma {:induction false} ReplayPrefix(file: seq<Line>, path: seq<Position>, n: nat)
    requires n <= |path| && Replay(file, path).Ok?
    ensures Replay(file, path[..n]).Ok?
    decreases |path| - n
  {
    hide Admit;
    if n < |path| {
      ReplayPrefix(file, path, n + 1);
      assert path[..n + 1][..n] == path[..n];
    } else {
      assert path[..n] == path;
    }
  }

  lemma ReplayNext(file: seq<Line>, path: seq<Position>, n: nat)
    requires n < |path| && Replay(file, path).Ok?
    ensures IsRow(file, path[n]) && Replay(file, path[..n]).Ok?
    ensures var before := Replay(file, path[..n]).value;
            && Decision(file, path, n) == Normalize(file, file[path[n]].record, before) && Decision(file, path, n).Ok?
            && Admit(file, before, file[path[n]].record, path[n]).Ok?
            && Replay(file, path[..n + 1]) == Admit(file, before, file[path[n]].record, path[n])
  {
    hide Normalize, Commit;
    ReplayPrefix(file, path, n);
    ReplayPrefix(file, path, n + 1);
    assert path[..n + 1][..n] == path[..n];
  }

  /** The response open before record `n` is that of record `j`. */
  predicate Opens(file: seq<Line>, path: seq<Position>, n: nat, j: nat)
    requires n <= |path| && Replay(file, path[..n]).Ok?
  {
    && j < |path| && IsRow(file, path[j]) && Speaks(file[path[j]].record)
    && var open := Replay(file, path[..n]).value.response;
       open.Some? && (open.value.id, open.value.model) == ResponseOf(file[path[j]].record)
  }

  /** The open response with its calls is what the records before it say. */
  ghost predicate Agrees(file: seq<Line>, path: seq<Position>, n: nat)
    requires n <= |path| && Replay(file, path[..n]).Ok?
  {
    var ctx := Replay(file, path[..n]).value;
    && Known(ctx)
    && (forall id, c :: Pending(ctx, id, c) <==> SomeOpen(file, path, n, id, c))
    && (forall j: nat, id, c :: OpenCall(file, path, j, n, id, c) ==>
          Opens(file, path, n, j))
    && (forall id, c :: Listed(ctx, id, c) <==> Made(file, path, n, id, c))
  }

  lemma {:induction false} AgreesUpTo(file: seq<Line>, path: seq<Position>, n: nat)
    requires n <= |path| && Replay(file, path).Ok?
    ensures Replay(file, path[..n]).Ok? && Agrees(file, path, n)
  {
    hide Admit, Normalize, Decision;
    ReplayPrefix(file, path, n);
    if n == 0 {
      assert path[..0] == [];
    } else {
      AgreesUpTo(file, path, n - 1);
      ReplayNext(file, path, n - 1);
      AgreesNext(file, path, n - 1);
    }
  }

  /** What is open behind one more record. */
  lemma OpenNext(file: seq<Line>, path: seq<Position>, j: nat, n: nat, id: string, c: Call)
    requires n < |path|
    ensures OpenCall(file, path, j, n + 1, id, c)
            <==> (j == n && Calls(file, path, n, id, c))
                 || (OpenCall(file, path, j, n, id, c) && Keeps(file, path, j, n, id))
  {
  }

  lemma AgreesNext(file: seq<Line>, path: seq<Position>, n: nat)
    requires n < |path| && Replay(file, path).Ok?
    requires Replay(file, path[..n]).Ok? && Agrees(file, path, n)
    ensures Replay(file, path[..n + 1]).Ok? && Agrees(file, path, n + 1)
  {
    hide Admit, Normalize, Decision, Replay, Pending, OpenCall, Listed, Made, SomeOpen, Keeps, Calls, Known;
    ReplayPrefix(file, path, n + 1);
    var m := n + 1;
    var next := Replay(file, path[..m]).value;
    forall id, c
      ensures Known(next) && (Pending(next, id, c) <==> SomeOpen(file, path, m, id, c))
      ensures Listed(next, id, c) <==> Made(file, path, m, id, c)
    {
      PendingNext(file, path, n, id, c);
      ListedNext(file, path, n, id, c);
    }
    forall j: nat, id, c | OpenCall(file, path, j, m, id, c)
      ensures Opens(file, path, m, j)
    {
      ResponseNext(file, path, n, j, id, c);
    }
    PendingNext(file, path, n, "", Call("", "", None, false));
  }

  lemma MadeNext(file: seq<Line>, path: seq<Position>, n: nat, id: string, c: Call)
    ensures Made(file, path, n + 1, id, c) <==> Made(file, path, n, id, c) || Calls(file, path, n, id, c)
  {
  }

  lemma ListedNext(file: seq<Line>, path: seq<Position>, n: nat, id: string, c: Call)
    requires n < |path| && Replay(file, path).Ok?
    requires Replay(file, path[..n]).Ok? && Agrees(file, path, n) && Replay(file, path[..n + 1]).Ok?
    ensures Listed(Replay(file, path[..n + 1]).value, id, c) <==> Made(file, path, n + 1, id, c)
  {
    ReplayNext(file, path, n);
    CallsAfter(file, Replay(file, path[..n]).value, file[path[n]].record, path[n], id, c);
    hide Admit, Normalize, Decision, Replay;
    MadeNext(file, path, n, id, c);
  }

  lemma ResponseNext(file: seq<Line>, path: seq<Position>, n: nat, j: nat, id: string, c: Call)
    requires n < |path| && Replay(file, path).Ok?
    requires Replay(file, path[..n]).Ok? && Agrees(file, path, n) && Replay(file, path[..n + 1]).Ok?
    requires OpenCall(file, path, j, n + 1, id, c)
    ensures Opens(file, path, n + 1, j)
  {
    ReplayNext(file, path, n);
    CallsAfter(file, Replay(file, path[..n]).value, file[path[n]].record, path[n], id, c);
    hide Admit, Normalize, Decision, Replay;
    OpenNext(file, path, j, n, id, c);
  }

  lemma PendingNext(file: seq<Line>, path: seq<Position>, n: nat, id: string, c: Call)
    requires n < |path| && Replay(file, path).Ok?
    requires Replay(file, path[..n]).Ok? && Agrees(file, path, n) && Replay(file, path[..n + 1]).Ok?
    ensures Known(Replay(file, path[..n + 1]).value)
    ensures Pending(Replay(file, path[..n + 1]).value, id, c)
            <==> SomeOpen(file, path, n + 1, id, c)
  {
    ReplayNext(file, path, n);
    var ctx := Replay(file, path[..n]).value;
    var m := n + 1;
    var next := Replay(file, path[..m]).value;
    var r := file[path[n]].record;
    PendingAfter(file, ctx, r, path[n], id, c);
    hide Admit, Normalize, Decision, Replay;
    if Pending(next, id, c) {
      if Calls(file, path, n, id, c) {
        OpenNext(file, path, n, n, id, c);
      } else {
        assert Pending(ctx, id, c);
        var j: nat :| OpenCall(file, path, j, n, id, c);
        assert Keeps(file, path, j, n, id);
        OpenNext(file, path, j, n, id, c);
      }
    }
    if SomeOpen(file, path, n + 1, id, c) {
      var j: nat :| OpenCall(file, path, j, n + 1, id, c);
      OpenNext(file, path, j, n, id, c);
      if j != n {
        assert Pending(ctx, id, c);
      }
    }
  }

  // ---------------------------------------------------------------- main results

  /** The calls that wait for a result are those made on the path whose response nothing ended
    * and that nothing answered; the known calls are all calls made on the path. */
  lemma PendingExactly(file: seq<Line>, path: seq<Position>, id: string, c: Call)
    requires Replay(file, path).Ok?
    ensures Pending(Replay(file, path).value, id, c) <==> SomeOpen(file, path, |path|, id, c)
    ensures Listed(Replay(file, path).value, id, c) <==> Made(file, path, |path|, id, c)
  {
    AgreesUpTo(file, path, |path|);
    assert path[..|path|] == path;
    hide Replay, Pending, OpenCall, Listed, Made, SomeOpen;
  }

  /** What `verifyOrdinaryParent` asks of a result and of the call it answers. */
  predicate Fits(r: Record, b: Block, leaf: Option<string>, c: Call)
    requires b.ToolResultBlock?
  {
    && (r.assistantUuid.Some? ==> r.assistantUuid.value == c.uuid)
    && (AtLeaf(r.parent, leaf) || r.parent == Named(c.uuid))
    && (c.name == "Read" && c.path.Some? && !b.isError && r.receipt.Some? ==>
          r.receipt.value.textual && r.receipt.value.filePath == c.path)
  }

  lemma SpokenResult(file: seq<Line>, r: Record, ctx: Norm, b: Block)
    requires Normalize(file, r, ctx).Ok? && !Normalize(file, r, ctx).value.rawOnly
    requires b in Blocks(r) && b.ToolResultBlock?
    ensures r.kind == User && b.callId.Some? && ctx.response.Some? && b.callId.value in ctx.response.value.pending
    ensures Fits(r, b, ctx.leaf, ctx.response.value.pending[b.callId.value])
  {
    ResultsFound(r);
    assert b in Results(r);
    assert OrdinaryParent(r, ctx);
    hide Normalize;
    var i :| 0 <= i < |Results(r)| && Results(r)[i] == b;
    assert ResultAdmissible(r, Results(r)[i], ctx);
  }

  /** Every result of a conversation record answers a call that an earlier record of the path
    * made in the response that is still open, and that no record between them answered. */
  lemma ResultAnswersOpenCall(file: seq<Line>, path: seq<Position>, k: nat, b: Block)
    requires Replay(file, path).Ok? && Spoken(file, path, k)
    requires b in Blocks(file[path[k]].record) && b.ToolResultBlock?
    ensures file[path[k]].record.kind == User && b.callId.Some? && Replay(file, path[..k]).Ok?
    ensures exists j: nat, c :: OpenCall(file, path, j, k, b.callId.value, c)
                                && Fits(file[path[k]].record, b, Replay(file, path[..k]).value.leaf, c)
  {
    ReplayNext(file, path, k);
    AgreesUpTo(file, path, k);
    var ctx := Replay(file, path[..k]).value;
    SpokenResult(file, file[path[k]].record, ctx, b);
    hide Replay, Normalize, Admit, Decision, OpenCall, Fits;
    var id := b.callId.value;
    var c := ctx.response.value.pending[id];
    assert Pending(ctx, id, c);
    var j: nat :| OpenCall(file, path, j, k, id, c);
  }

  /** The result block at `slot` of the `k`-th record answers `id`. */
  predicate AnswersAt(file: seq<Line>, path: seq<Position>, k: nat, slot: nat, id: string) {
    && Spoken(file, path, k)
    && var blocks := Blocks(file[path[k]].record);
       slot < |blocks| && blocks[slot].ToolResultBlock? && blocks[slot].callId == Some(id)
  }

  lemma MadeStays(file: seq<Line>, path: seq<Position>, i: nat, j: nat, id: string, c: Call)
    requires Replay(file, path).Ok? && i < j < |path| && Calls(file, path, i, id, c)
    ensures Replay(file, path[..j]).Ok? && id in Replay(file, path[..j]).value.calls
  {
    AgreesUpTo(file, path, j);
    hide Replay, Calls;
    assert Made(file, path, j, id, c);
    assert Listed(Replay(file, path[..j]).value, id, c);
  }

  lemma CallIsNew(file: seq<Line>, path: seq<Position>, j: nat, id: string, c: Call)
    requires Replay(file, path).Ok? && Calls(file, path, j, id, c)
    ensures Replay(file, path[..j]).Ok? && id !in Replay(file, path[..j]).value.calls
  {
    ReplayNext(file, path, j);
    CallsAfter(file, Replay(file, path[..j]).value, file[path[j]].record, path[j], id, c);
    hide Replay, Normalize, Admit;
  }

  /** A call id is used once on a path. */
  lemma MadeOnce(file: seq<Line>, path: seq<Position>, i: nat, j: nat, id: string, c: Call, d: Call)
    requires Replay(file, path).Ok? && i <= j
    requires Calls(file, path, i, id, c) && Calls(file, path, j, id, d)
    ensures i == j
  {
    CallIsNew(file, path, j, id, d);
    if i < j {
      MadeStays(file, path, i, j, id, c);
    }
  }

  lemma KeptBetween(file: seq<Line>, path: seq<Position>, j: nat, k: nat, n: nat, id: string, c: Call)
    requires OpenCall(file, path, j, n, id, c) && j < k < n
    ensures Keeps(file, path, j, k, id)
  {
  }

  lemma NotBetween(file: seq<Line>, path: seq<Position>, j: nat, k: nat, n: nat, id: string, c: Call)
    requires OpenCall(file, path, j, n, id, c) && Answers(file, path, k, id) && k < n
    ensures k < j
  {
    if j < k {
      KeptBetween(file, path, j, k, n, id, c);
    }
  }

  /** No call is answered by two records of a path. */
  lemma AnsweredByOne(file: seq<Line>, path: seq<Position>, k: nat, n: nat, id: string)
    requires Replay(file, path).Ok? && k <= n
    requires Answers(file, path, k, id) && Answers(file, path, n, id)
    ensures k == n
  {
    if k < n {
      var b :| b in Blocks(file[path[k]].record) && b.ToolResultBlock? && b.callId == Some(id);
      var e :| e in Blocks(file[path[n]].record) && e.ToolResultBlock? && e.callId == Some(id);
      ResultAnswersOpenCall(file, path, k, b);
      ResultAnswersOpenCall(file, path, n, e);
      var i: nat, c :| OpenCall(file, path, i, k, id, c);
      var j: nat, d :| OpenCall(file, path, j, n, id, d);
      hide Replay, Spoken, Makes, Carries, Speaks;
      NotBetween(file, path, j, k, n, id, d);
      MadeOnce(file, path, i, j, id, c, d);
    }
  }

  lemma {:induction false} ResultAt(blocks: seq<Block>, slot: nat)
    requires slot < |blocks| && blocks[slot].ToolResultBlock?
    ensures |ToolResults(blocks[..slot])| < |ToolResults(blocks)|
    ensures ToolResults(blocks)[|ToolResults(blocks[..slot])|] == blocks[slot]
    decreases |blocks|
  {
    if slot == 0 {
      assert blocks[..0] == [];
    } else {
      ResultAt(blocks[1..], slot - 1);
      assert blocks[..slot][1..] == blocks[1..][..slot - 1];
    }
  }

  /** Two result blocks of one conversation record never answer one call. */
  lemma ResultsDiffer(file: seq<Line>, r: Record, ctx: Norm, slot: nat, other: nat)
    requires Normalize(file, r, ctx).Ok? && !Normalize(file, r, ctx).value.rawOnly
    requires slot < other < |Blocks(r)| && Blocks(r)[slot].ToolResultBlock? && Blocks(r)[other].ToolResultBlock?
    ensures Blocks(r)[slot].callId != Blocks(r)[other].callId
  {
    var blocks := Blocks(r);
    ResultAt(blocks, slot);
    ResultAt(blocks, other);
    ResultAt(blocks[..other], slot);
    assert blocks[..other][..slot] == blocks[..slot];
    var i, j := |ToolResults(blocks[..slot])|, |ToolResults(blocks[..other])|;
    assert i < j < |Results(r)|;
    assert OrdinaryParent(r, ctx);
    hide Normalize;
    assert Results(r)[i].callId != Results(r)[j].callId;
  }

  /** On a path a call is answered at one block at most. */
  lemma AnsweredOnce(file: seq<Line>, path: seq<Position>, k: nat, slot: nat, n: nat, other: nat, id: string)
    requires Replay(file, path).Ok?
    requires AnswersAt(file, path, k, slot, id) && AnswersAt(file, path, n, other, id)
    ensures k == n && slot == other
  {
    AnswersFrom(file, path, k, slot, id);
    AnswersFrom(file, path, n, other, id);
    hide AnswersAt, Answers, Replay;
    if k <= n {
      AnsweredByOne(file, path, k, n, id);
    } else {
      AnsweredByOne(file, path, n, k, id);
    }
    AnsweredAtOneSlot(file, path, k, slot, other, id);
  }

  lemma AnsweredAtOneSlot(file: seq<Line>, path: seq<Position>, k: nat, slot: nat, other: nat, id: string)
    requires Replay(file, path).Ok? && AnswersAt(file, path, k, slot, id) && AnswersAt(file, path, k, other, id)
    ensures slot == other
  {
    ReplayNext(file, path, k);
    var r, ctx := file[path[k]].record, Replay(file, path[..k]).value;
    hide Replay, Normalize;
    if slot < other {
      ResultsDiffer(file, r, ctx, slot, other);
    } else if other < slot {
      ResultsDiffer(file, r, ctx, other, slot);
    }
  }

  lemma AnswersFrom(file: seq<Line>, path: seq<Position>, k: nat, slot: nat, id: string)
    requires Replay(file, path).Ok? && AnswersAt(file, path, k, slot, id)
    ensures Answers(file, path, k, id)
  {
    ReplayNext(file, path, k);
    SpokenResult(file, file[path[k]].record, Replay(file, path[..k]).value, Blocks(file[path[k]].record)[slot]);
  }

  // ---------------------------------------------------------------- the indexed stream

  /** A node carries the classification its record gets on its own path. */
  ghost predicate Decides(file: seq<Line>, nodes: map<string, Node>, u: string)
    requires Rooted(nodes) && u in nodes
  {
    assert Anchored(nodes, u);
    var before := Replay(file, Path(nodes, nodes[u].predecessor));
    && before.Ok? && IsRow(file, nodes[u].ref)
    && var r := file[nodes[u].ref].record;
       var a := Normalize(file, r, before.value);
       && a.Ok? && !a.value.copy && nodes[u].kind == a.value.kind
       && (nodes[u].rawOnly <==> a.value.rawOnly || r.notification)
  }

  lemma DecidesStable(file: seq<Line>, nodes: map<string, Node>, more: map<string, Node>, u: string)
    requires Rooted(nodes) && Rooted(more) && u in nodes && Decides(file, nodes, u)
    requires forall v :: v in nodes ==> v in more && more[v] == nodes[v]
    ensures Decides(file, more, u)
  {
    hide Replay, Normalize;
    assert Anchored(nodes, u);
    PathStable(nodes, more, nodes[u].predecessor);
    hide Path, Rooted;
  }

  lemma NewNodeDecides(file: seq<Line>, root: Root, n: nat, ix: Index, context: Norm, r: Record)
    requires Inv(file, n, ix.(context := context)) && n < |file| && file[n] == Row(r)
    requires r.uuid.Valid? && r.uuid.id !in ix.nodes && AdmitNew(file, root, ix, context, r, n).Ok?
    ensures var next := AdmitNew(file, root, ix, context, r, n).value;
            Rooted(next.nodes) && r.uuid.id in next.nodes && Decides(file, next.nodes, r.uuid.id)
  {
    hide Normalize, Commit, Project, Replay, SameReplay;
    var next := AdmitNew(file, root, ix, context, r, n).value;
    var base := Replay(file, Path(ix.nodes, context.leaf)).value;
    LiveRecords(file, ix.nodes, context);
    TracksDecision(file, r, context, base);
    var node := next.nodes[r.uuid.id];
    RootedGrow(ix.nodes, r.uuid.id, node);
    assert Anchored(next.nodes, r.uuid.id);
    PathStable(ix.nodes, next.nodes, context.leaf);
  }

  lemma LastNodeDecides(file: seq<Line>, root: Root, n: nat, ix: Index, r: Record, u: string)
    requires Inv(file, n, ix) && n < |file| && file[n] == Row(r) && Step(file, root, ix, r, n).Ok?
    requires u !in ix.nodes && u in Step(file, root, ix, r, n).value.nodes
    ensures var next := Step(file, root, ix, r, n).value; Rooted(next.nodes) && Decides(file, next.nodes, u)
  {
    if r.kind == LastPrompt || (r.uuid.Valid? && r.uuid.id in ix.originals) {
      hide Step, Inv;
      SameNodes(file, root, n, ix, r);
      assert false;
    } else {
      assert ix.nodes.Keys == ix.originals.Keys;
      hide Branch, Live, Tree;
      var context := StepBranches(file, root, n, ix, r);
      BranchLands(file, root, n, ix, r);
      assert Inv(file, n, ix.(context := context));
      hide Step, Inv, Decides, Rooted, Normalize, Commit, Admit, Project;
      assert r.uuid.Valid? && r.uuid.id == u;
      NewNodeDecides(file, root, n, ix, context, r);
    }
  }

  /** Every indexed node is Raw only exactly if its record is a control record or a typed
    * notification on its own path. */
  lemma {:induction false} NodesDecide(file: seq<Line>, root: Root, n: nat, u: string)
    requires n <= |file| && Run(file, root, n).Ok? && u in Run(file, root, n).value.nodes
    ensures Rooted(Run(file, root, n).value.nodes) && Decides(file, Run(file, root, n).value.nodes, u)
  {
    hide Run, Step, Inv, Rooted, Decides;
    var before := RunBefore(file, root, n, u);
    RunKeepsInv(file, root, n);
    RunKeepsInv(file, root, n - 1);
    InvIsRooted(file, n, Run(file, root, n).value);
    InvIsRooted(file, n - 1, before);
    if u in before.nodes {
      NodesDecide(file, root, n - 1, u);
      if file[n - 1].Row? {
        StepNodes(file, root, n - 1, before, file[n - 1].record);
        DecidesStable(file, before.nodes, Run(file, root, n).value.nodes, u);
      }
    } else {
      LastNodeDecides(file, root, n - 1, before, file[n - 1].record, u);
    }
  }

  /** The node behind the `k`-th step of a path, with the path that leads to it. */
  lemma {:induction false} PathNode(nodes: map<string, Node>, u: string, k: nat) returns (v: string)
    requires Rooted(nodes) && u in nodes && k < |Path(nodes, Some(u))|
    ensures v in nodes && nodes[v].ref == Path(nodes, Some(u))[k]
    ensures Path(nodes, Some(v)) == Path(nodes, Some(u))[..k + 1]
    ensures InTree(nodes, nodes[v].predecessor) && Path(nodes, nodes[v].predecessor) == Path(nodes, Some(u))[..k]
    decreases nodes[u].ref
  {
    assert Anchored(nodes, u);
    var older := Path(nodes, nodes[u].predecessor);
    assert Path(nodes, Some(u)) == older + [nodes[u].ref];
    if k == |older| {
      v := u;
    } else {
      v := PathNode(nodes, nodes[u].predecessor.value, k);
    }
  }

  /** On the path of an admitted record, the records that planning and emission show are the
    * conversation records that are not typed notifications. */
  lemma VisibleIsSpoken(file: seq<Line>, root: Root, n: nat, u: string, k: nat)
    requires n <= |file| && Run(file, root, n).Ok? && u in Run(file, root, n).value.nodes
    requires Rooted(Run(file, root, n).value.nodes)
    requires k < |Path(Run(file, root, n).value.nodes, Some(u))|
    ensures var nodes := Run(file, root, n).value.nodes;
            var path := Path(nodes, Some(u));
            && Replay(file, path).Ok? && IsRow(file, path[k])
            && (Visible(file, nodes, path[k]) <==>
                  Spoken(file, path, k) && !file[path[k]].record.notification)
  {
    RunKeepsInv(file, root, n);
    var nodes := Run(file, root, n).value.nodes;
    var path := Path(nodes, Some(u));
    assert Replayable(file, nodes, Some(u));
    var v := PathNode(nodes, u, k);
    NodesDecide(file, root, n, v);
    ByStartFindsNode(file, n, nodes, v);
    ReplayNext(file, path, k);
    hide Run, Replay, Path, Normalize, Admit, Tree, Rooted;
  }

  /** On the path of every admitted node, each result that is shown answers a call made earlier
    * on that path in the response that is still open. */
  lemma StreamResultsAnswer(file: seq<Line>, root: Root, n: nat, u: string, k: nat, slot: nat)
    requires n <= |file| && Run(file, root, n).Ok? && u in Run(file, root, n).value.nodes
    requires Rooted(Run(file, root, n).value.nodes)
    requires k < |Path(Run(file, root, n).value.nodes, Some(u))|
    requires var nodes := Run(file, root, n).value.nodes;
             var path := Path(nodes, Some(u));
             && Visible(file, nodes, path[k]) && slot < |Blocks(file[path[k]].record)|
             && Blocks(file[path[k]].record)[slot].ToolResultBlock?
    ensures var path := Path(Run(file, root, n).value.nodes, Some(u));
            var b := Blocks(file[path[k]].record)[slot];
            && b.callId.Some? && AnswersAt(file, path, k, slot, b.callId.value) && Replay(file, path[..k]).Ok?
            && exists j: nat, c :: OpenCall(file, path, j, k, b.callId.value, c)
                                   && Fits(file[path[k]].record, b, Replay(file, path[..k]).value.leaf, c)
  {
    VisibleIsSpoken(file, root, n, u, k);
    var path := Path(Run(file, root, n).value.nodes, Some(u));
    hide Run, Replay, Path, Visible, Rooted;
    ResultAnswersOpenCall(file, path, k, Blocks(file[path[k]].record)[slot]);
    hide OpenCall, Fits;
  }
}
