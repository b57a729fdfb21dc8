/** Which turn stands at which call. A child's turns are kept in the order of its receipts but are
  * shown in the order of its calls. The two orders agree exactly when no later call to the same child
  * is answered first, and a single turn stands at its own call exactly when as many calls to the
  * child are answered before it as are made before it. */
module CodeBuddyAlignment {
  import opened Base
  import opened Orders
  import opened CodeBuddyRows
  import opened CodeBuddyDelegation
  import T = CodeBuddyThread
  import FamilyOrder

  /** Calls to `c` in the order of the call rows. */
  function CallOrder(entries: seq<Entry>, n: nat, links: map<string, Option<string>>, c: string): seq<string>
    requires n <= |entries|
  {
    if n == 0 then []
    else CallOrder(entries, n - 1, links, c)
         + if T.LinkOf(links, entries[n - 1].record) == Some(c) then [entries[n - 1].record.callId] else []
  }

  /** Calls to `c` in the order of their receipts; the child's turns stand in this order. */
  function ReceiptOrder(d: Desk, c: string): (r: seq<string>)
    ensures c in d.children ==>
              |r| == |d.children[c].calls| && forall k :: 0 <= k < |r| ==> r[k] == d.children[c].calls[k].callId
    ensures c !in d.children ==> r == []
  {
    if c in d.children then
      seq(|d.children[c].calls|, k requires 0 <= k < |d.children[c].calls| => d.children[c].calls[k].callId)
    else []
  }

  /** After how many rows call `u` was answered. */
  function AnswerRow(entries: seq<Entry>, ctx: Reading, n: nat, u: string): (row: nat)
    requires n <= |entries|
    ensures row <= n
  {
    if n == 0 then 0
    else
      var before := Scan(entries, ctx, n - 1);
      if before.Ok? && u in before.value.links then AnswerRow(entries, ctx, n - 1, u) else n
  }

  /** No call to `c` is answered after a later one, as the scan answers calls. */
  predicate AnsweredInOrder(entries: seq<Entry>, ctx: Reading, c: string)
    requires Scan(entries, ctx, |entries|).Ok?
  {
    var calls := CallOrder(entries, |entries|, Scan(entries, ctx, |entries|).value.links, c);
    forall i, j :: 0 <= i < j < |calls| ==>
      AnswerRow(entries, ctx, |entries|, calls[i]) < AnswerRow(entries, ctx, |entries|, calls[j])
  }

  // ---------------------------------------------------------------- receipts come in answer order

  /** One row answers at most one call, and files it at the end of its child's calls. */
  ghost predicate Answers(d: Desk, next: Desk, c: string, u: Option<string>) {
    && (u.None? ==> next.links == d.links)
    && (u.Some? ==> u.value !in d.links && next.links.Keys == d.links.Keys + {u.value})
    && (ReceiptOrder(next, c) == ReceiptOrder(d, c)
        || (u.Some? && ReceiptOrder(next, c) == ReceiptOrder(d, c) + [u.value]))
  }

  lemma FileAnswers(d: Desk, c: string, ref: Reference, call: ChildCall, k: string)
    requires ref.calls == (if c in d.children then d.children[c].calls else []) && call.callId !in d.links
    ensures Answers(d, File(d, c, ref, call), k, Some(call.callId))
  {
    var next := File(d, c, ref, call);
    if k == c {
      assert ReceiptOrder(next, k) == ReceiptOrder(d, k) + [call.callId];
    } else {
      assert ReceiptOrder(next, k) == ReceiptOrder(d, k);
    }
  }

  lemma ReceiptAnswers(d: Desk, ctx: Reading, r: Record, k: string)
    requires OnReceipt(d, ctx, r).Ok?
    ensures Answers(d, OnReceipt(d, ctx, r).value, k, Some(r.callId))
  {
    hide Segment, ChildName, SpawnFits, Answers;
    var call, a, got := d.calls[r.callId], d.calls[r.callId].args, r.facts.receipt;
    if call.name == "SendMessage" {
      if r.facts.failed {
        CloseAnswers(d, r.callId, k);
      } else {
        FileAnswers(d, call.child, d.children[call.child].(messages := true),
                    FollowUp(r.callId, a.content.value, a.summary.value, call.sentAt.value), k);
      }
    } else if a.background {
      var s := got.spawn.value;
      var ref := Reference([call.parentId], call.copied, a.agent, [], Some(s.name), s.description, false);
      var filed := Background(r.callId, a.prompt.value, "Initial task assignment for " + s.name);
      FileAnswers(d, s.child, ref, filed, k);
      NamesAnswer(d, File(d, s.child, ref, filed), OnReceipt(d, ctx, r).value.names, k, r.callId);
    } else if got.child.None? {
      CloseAnswers(d, r.callId, k);
    } else {
      var c := got.child.value;
      var ref := if c in d.children then Continued(ctx, call, d.children[c]).value
                 else Reference([call.parentId], call.copied, a.agent, [], None, None, false);
      FileAnswers(d, c, ref, Foreground(r.callId, a.prompt.value, got.afterId, got.lastId), k);
    }
  }

  lemma CloseAnswers(d: Desk, u: string, k: string)
    requires u !in d.links
    ensures Answers(d, Close(d, u), k, Some(u))
  {
  }

  lemma NamesAnswer(d: Desk, next: Desk, names: map<string, Option<string>>, k: string, u: string)
    requires Answers(d, next, k, Some(u))
    ensures Answers(d, next.(names := names), k, Some(u))
  {
    assert ReceiptOrder(next.(names := names), k) == ReceiptOrder(next, k);
  }

  lemma QuietAnswers(d: Desk, next: Desk, k: string)
    requires next.children == d.children && next.links == d.links
    ensures Answers(d, next, k, None) && ReceiptOrder(next, k) == ReceiptOrder(d, k)
  {
    assert ReceiptOrder(next, k) == ReceiptOrder(d, k);
  }

  lemma CallIsQuiet(d: Desk, ctx: Reading, r: Record)
    requires OnCall(d, ctx, r).Ok?
    ensures OnCall(d, ctx, r).value.children == d.children && OnCall(d, ctx, r).value.links == d.links
  {
    hide Segment;
  }

  lemma NoticeIsQuiet(d: Desk, ctx: Reading, r: Record)
    requires OnNotice(d, ctx, r).Ok?
    ensures OnNotice(d, ctx, r).value.children == d.children && OnNotice(d, ctx, r).value.links == d.links
  {
    hide NoticeFits;
  }

  lemma AfterQuiet(d: Desk, seen: Desk, next: Desk, k: string, u: Option<string>)
    requires seen.children == d.children && seen.links == d.links && Answers(seen, next, k, u)
    ensures Answers(d, next, k, u)
  {
    QuietAnswers(d, seen, k);
  }

  lemma RowAnswers(d: Desk, ctx: Reading, r: Record, k: string) returns (u: Option<string>)
    requires OnRow(d, ctx, r).Ok?
    ensures Answers(d, OnRow(d, ctx, r).value, k, u)
  {
    hide OnReceipt, OnCall, OnNotice, Answers, Sends;
    var own := ctx.fork.Some? && ctx.fork.value.sourceId.Some? && r.facts.session == ctx.fork.value.sourceId;
    var start := if own then d.(copied := false) else d;
    var seen := OnNotice(start, ctx, r).value;
    NoticeIsQuiet(start, ctx, r);
    u := None;
    if r.kind.FunctionCall? && (r.name == "Agent" || Sends(seen, ctx, r)) {
      CallIsQuiet(seen, ctx, r);
      QuietAnswers(d, OnRow(d, ctx, r).value, k);
    } else if r.kind.FunctionResult? && (r.name == "Agent" || Sends(seen, ctx, r)) {
      ReceiptAnswers(seen, ctx, r, k);
      u := Some(r.callId);
      AfterQuiet(d, seen, OnRow(d, ctx, r).value, k, u);
    } else {
      QuietAnswers(d, seen, k);
    }
  }

  /** The calls of `c` on record are answered, one after the other. */
  ghost predicate Ranked(entries: seq<Entry>, ctx: Reading, n: nat, ids: seq<string>)
    requires n <= |entries| && Scan(entries, ctx, n).Ok?
  {
    && (forall k :: 0 <= k < |ids| ==> ids[k] in Scan(entries, ctx, n).value.links)
    && forall i, j :: 0 <= i < j < |ids| ==> AnswerRow(entries, ctx, n, ids[i]) < AnswerRow(entries, ctx, n, ids[j])
  }

  lemma {:induction false} ReceiptsRank(entries: seq<Entry>, ctx: Reading, n: nat, c: string)
    requires n <= |entries| && Scan(entries, ctx, n).Ok?
    ensures Ranked(entries, ctx, n, ReceiptOrder(Scan(entries, ctx, n).value, c))
  {
    hide OnRow;
    if n > 0 {
      ReceiptsRank(entries, ctx, n - 1, c);
      var d, next := Scan(entries, ctx, n - 1).value, Scan(entries, ctx, n).value;
      var u := RowAnswers(d, ctx, entries[n - 1].record, c);
      RankOn(entries, ctx, n, ReceiptOrder(d, c), ReceiptOrder(next, c), u);
    }
  }

  lemma RankOn(entries: seq<Entry>, ctx: Reading, n: nat, ids: seq<string>, more: seq<string>, u: Option<string>)
    requires 0 < n <= |entries| && Scan(entries, ctx, n).Ok? && Ranked(entries, ctx, n - 1, ids)
    requires u.Some? ==> u.value !in Scan(entries, ctx, n - 1).value.links
    requires Scan(entries, ctx, n).value.links.Keys
             == Scan(entries, ctx, n - 1).value.links.Keys + if u.Some? then {u.value} else {}
    requires more == ids || (u.Some? && more == ids + [u.value])
    ensures Ranked(entries, ctx, n, more)
  {
    hide OnRow;
    forall k | 0 <= k < |ids|
      ensures AnswerRow(entries, ctx, n, ids[k]) == AnswerRow(entries, ctx, n - 1, ids[k]) <= n - 1
    {
      assert ids[k] in Scan(entries, ctx, n - 1).value.links;
    }
  }

  // ---------------------------------------------------------------- two orders of the same calls

  lemma {:induction false} CallOrderHas(entries: seq<Entry>, n: nat, links: map<string, Option<string>>, c: string,
                                        u: string)
    requires n <= |entries|
    ensures u in CallOrder(entries, n, links, c) ==> u in Linked(links, c)
    ensures u in Linked(links, c) && CallRow(entries, n, u) ==> u in CallOrder(entries, n, links, c)
  {
    if n > 0 {
      CallOrderHas(entries, n - 1, links, c, u);
    }
  }

  lemma InCallIds(calls: seq<ChildCall>, u: string)
    ensures u in CallIds(calls) <==> exists k :: 0 <= k < |calls| && calls[k].callId == u
  {
  }

  /** Both orders list the answered calls to `c`. */
  lemma OrdersList(entries: seq<Entry>, d: Desk, c: string, u: string)
    requires AllMatch(d) && c in d.children && (u in d.links ==> CallRow(entries, |entries|, u))
    ensures u in CallOrder(entries, |entries|, d.links, c) <==> u in Linked(d.links, c)
    ensures u in ReceiptOrder(d, c) <==> u in Linked(d.links, c)
  {
    hide CallRow, CallOrder;
    CallOrderHas(entries, |entries|, d.links, c, u);
    assert CallsMatch(d, c);
    var ids := ReceiptOrder(d, c);
    InCallIds(d.children[c].calls, u);
    if u in CallIds(d.children[c].calls) {
      var k :| 0 <= k < |d.children[c].calls| && d.children[c].calls[k].callId == u;
      assert ids[k] == u;
    }
  }

  /** The two orders agree exactly when the scan answers the calls to the child in their order. */
  lemma TurnsMeetAnswers(entries: seq<Entry>, ctx: Reading, c: string)
    requires Scan(entries, ctx, |entries|).Ok? && c in Scan(entries, ctx, |entries|).value.children
    ensures var d := Scan(entries, ctx, |entries|).value;
            CallOrder(entries, |entries|, d.links, c) == ReceiptOrder(d, c) <==> AnsweredInOrder(entries, ctx, c)
  {
    hide OnRow, Scan, CallOrder, Consistent, AllMatch, CallRow, Linked;
    var d, n := Scan(entries, ctx, |entries|).value, |entries|;
    var calls, receipts := CallOrder(entries, n, d.links, c), ReceiptOrder(d, c);
    ReceiptsRank(entries, ctx, n, c);
    ScanKeeps(entries, ctx, n);
    LinksAreCalls(d);
    if AnsweredInOrder(entries, ctx, c) {
      forall u
        ensures u in calls <==> u in receipts
      {
        OrdersList(entries, d, c, u);
      }
      var rank := map u | u in d.links :: AnswerRow(entries, ctx, n, u);
      forall u | u in receipts
        ensures u in rank
      {
        assert u in d.links;
      }
      SameOrder(calls, receipts, rank);
    }
  }

  lemma LinksAreCalls(d: Desk)
    requires Consistent(d)
    ensures forall u :: u in d.links ==> u in d.calls
  {
  }

  // ---------------------------------------------------------------- one call at a time

  /** Calls carry ids of their own, as the projection of the thread demands. */
  predicate CallIdsDiffer(entries: seq<Entry>) {
    forall i, j ::
      0 <= i < j < |entries| && entries[i].record.kind.FunctionCall? && entries[j].record.kind.FunctionCall? ==>
      entries[i].record.callId != entries[j].record.callId
  }

  lemma {:induction false} RunCallIds(entries: seq<Entry>, ctx: T.Context, n: nat)
    requires n <= |entries| && T.Run(entries, ctx, n).Ok?
    ensures forall k :: 0 <= k < n && entries[k].record.kind.FunctionCall? ==>
              entries[k].record.callId in T.Run(entries, ctx, n).value.calls
    ensures forall i, j ::
              0 <= i < j < n && entries[i].record.kind.FunctionCall? && entries[j].record.kind.FunctionCall? ==>
              entries[i].record.callId != entries[j].record.callId
  {
    hide T.Step, T.LinkOf, T.Opens, FamilyOrder.FirstLink;
    if n > 0 {
      T.RunStep(entries, ctx, n);
      RunCallIds(entries, ctx, n - 1);
      var t, next := T.Run(entries, ctx, n - 1).value, T.Run(entries, ctx, n).value;
      T.StepAdvances(t, ctx, n - 1, entries[n - 1]);
      assert next.calls.Keys >= t.calls.Keys;
    }
  }

  /** The `i`-th and the `j`-th call to a child stand in rows of that order. */
  lemma {:induction false} CallOrderRows(entries: seq<Entry>, n: nat, links: map<string, Option<string>>,
                                         c: string, i: nat)
    returns (p: nat)
    requires n <= |entries| && i < |CallOrder(entries, n, links, c)|
    ensures p < n && T.LinkOf(links, entries[p].record) == Some(c)
            && entries[p].record.callId == CallOrder(entries, n, links, c)[i]
    ensures i == |CallOrder(entries, p, links, c)|
  {
    if i < |CallOrder(entries, n - 1, links, c)| {
      p := CallOrderRows(entries, n - 1, links, c, i);
    } else {
      p := n - 1;
    }
  }

  lemma {:induction false} CallOrderGrows(entries: seq<Entry>, m: nat, n: nat, links: map<string, Option<string>>,
                                          c: string)
    requires m <= n <= |entries|
    ensures |CallOrder(entries, m, links, c)| <= |CallOrder(entries, n, links, c)|
  {
    if m < n {
      CallOrderGrows(entries, m, n - 1, links, c);
    }
  }

  /** A call is answered only after its row. */
  lemma {:induction false} AnswerFollowsCall(entries: seq<Entry>, ctx: Reading, n: nat, p: nat)
    requires p < n <= |entries| && Scan(entries, ctx, n).Ok? && CallIdsDiffer(entries)
             && entries[p].record.kind.FunctionCall?
    ensures AnswerRow(entries, ctx, n, entries[p].record.callId) > p
    decreases n
  {
    hide OnRow, Consistent, AllMatch;
    var u := entries[p].record.callId;
    if u in Scan(entries, ctx, n - 1).value.links {
      ScanKeeps(entries, ctx, n - 1);
      LinksAreCalls(Scan(entries, ctx, n - 1).value);
      assert CallRow(entries, n - 1, u);
      AnswerFollowsCall(entries, ctx, n - 1, p);
    }
  }

  /** Each call to `c` is answered before the row of the next one. */
  predicate OneAtATime(entries: seq<Entry>, ctx: Reading, c: string)
    requires Scan(entries, ctx, |entries|).Ok?
  {
    var links := Scan(entries, ctx, |entries|).value.links;
    forall p, q ::
      0 <= p < q < |entries| && T.LinkOf(links, entries[p].record) == Some(c)
      && T.LinkOf(links, entries[q].record) == Some(c) ==>
      AnswerRow(entries, ctx, |entries|, entries[p].record.callId) <= q
  }

  /** Main result. When calls to a child never overlap, every turn stands at its own call. */
  lemma SeparateCallsMeet(entries: seq<Entry>, ctx: Reading, c: string)
    requires Scan(entries, ctx, |entries|).Ok? && c in Scan(entries, ctx, |entries|).value.children
    requires CallIdsDiffer(entries) && OneAtATime(entries, ctx, c)
    ensures CallOrder(entries, |entries|, Scan(entries, ctx, |entries|).value.links, c)
            == ReceiptOrder(Scan(entries, ctx, |entries|).value, c)
  {
    hide Scan, CallOrder, AnswerRow;
    var n, links := |entries|, Scan(entries, ctx, |entries|).value.links;
    var calls := CallOrder(entries, n, links, c);
    forall i, j | 0 <= i < j < |calls|
      ensures AnswerRow(entries, ctx, n, calls[i]) < AnswerRow(entries, ctx, n, calls[j])
    {
      var p := CallOrderRows(entries, n, links, c, i);
      var q := CallOrderRows(entries, n, links, c, j);
      if q <= p {
        CallOrderGrows(entries, q, p, links, c);
      }
      AnswerFollowsCall(entries, ctx, n, q);
    }
    TurnsMeetAnswers(entries, ctx, c);
  }

  // ---------------------------------------------------------------- answers by rows

  /** A result row of call `u`. */
  predicate Replies(r: Record, u: string) {
    r.kind.FunctionResult? && r.callId == u && r.name != ""
  }

  /** The first result row of call `u`. */
  function ReplyRow(entries: seq<Entry>, from: nat, u: string): (row: nat)
    requires from <= |entries|
    ensures from <= row <= |entries| && (row < |entries| ==> Replies(entries[row].record, u))
    ensures forall k :: from <= k < row ==> !Replies(entries[k].record, u)
    decreases |entries| - from
  {
    if from == |entries| || Replies(entries[from].record, u) then from else ReplyRow(entries, from + 1, u)
  }

  /** A named result comes after the call row of its id and name. */
  predicate Answering(entries: seq<Entry>, k: nat)
    requires k < |entries|
  {
    entries[k].record.kind.FunctionResult? && entries[k].record.name != "" ==>
      exists j ::
        0 <= j < k && entries[j].record.kind.FunctionCall? && entries[j].record.callId == entries[k].record.callId
                  && entries[j].record.name == entries[k].record.name
  }

  /** What the projection of a thread demands of calls and results. */
  predicate Ordinary(entries: seq<Entry>) {
    CallIdsDiffer(entries) && forall k :: 0 <= k < |entries| ==> Answering(entries, k)
  }

  /** The names that the thread has for its calls are those of the call rows. */
  ghost predicate NamesKnown(entries: seq<Entry>, n: nat, calls: map<string, string>)
    requires n <= |entries|
  {
    forall u :: u in calls ==> exists j :: 0 <= j < n && entries[j].record.kind.FunctionCall?
                                          && entries[j].record.callId == u && entries[j].record.name == calls[u]
  }

  lemma EmitNames(t: T.Thread, ctx: T.Context, c: T.Class, r: Record)
    requires T.Emit(t, ctx, c, r).Ok?
    ensures T.Emit(t, ctx, c, r).value.t.calls == if r.kind.FunctionCall? then t.calls[r.callId := r.name] else t.calls
    ensures r.kind.FunctionResult? && r.name != "" ==> r.callId in t.calls && t.calls[r.callId] == r.name
  {
    hide T.Blocks, T.LinkOf, T.Silent;
  }

  lemma StepNames(t: T.Thread, ctx: T.Context, i: nat, e: Entry)
    requires T.Step(t, ctx, i, e).Ok?
    ensures var r := e.record;
            && T.Step(t, ctx, i, e).value.calls
               == (if r.kind.FunctionCall? then t.calls[r.callId := r.name] else t.calls)
            && (r.kind.FunctionResult? && r.name != "" ==> r.callId in t.calls && t.calls[r.callId] == r.name)
  {
    hide T.Step, T.Classify, T.Chain, T.Emit, T.Count, T.Timed;
    var c, chained, out, counted := T.StepStages(t, ctx, i, e);
    T.ChainKeeps(t, ctx, c, e);
    EmitNames(chained, ctx, c, e.record);
    T.CountKeeps(out.t, c, e.record);
  }

  lemma {:induction false} RunNames(entries: seq<Entry>, ctx: T.Context, n: nat)
    requires n <= |entries| && T.Run(entries, ctx, n).Ok?
    ensures NamesKnown(entries, n, T.Run(entries, ctx, n).value.calls)
    ensures forall k :: 0 <= k < n ==> Answering(entries, k)
  {
    hide T.Step, Answering;
    if n > 0 {
      T.RunStep(entries, ctx, n);
      RunNames(entries, ctx, n - 1);
      var t, next, e := T.Run(entries, ctx, n - 1).value, T.Run(entries, ctx, n).value, entries[n - 1];
      StepNames(t, ctx, n - 1, e);
      NamesGrow(entries, n, t.calls, next.calls);
    }
  }

  lemma NamesGrow(entries: seq<Entry>, n: nat, calls: map<string, string>, more: map<string, string>)
    requires 0 < n <= |entries| && NamesKnown(entries, n - 1, calls)
    requires var r := entries[n - 1].record;
             && more == (if r.kind.FunctionCall? then calls[r.callId := r.name] else calls)
             && (r.kind.FunctionResult? && r.name != "" ==> r.callId in calls && calls[r.callId] == r.name)
    ensures NamesKnown(entries, n, more) && Answering(entries, n - 1)
  {
    forall u | u in more
      ensures exists j :: 0 <= j < n && entries[j].record.kind.FunctionCall?
                          && entries[j].record.callId == u && entries[j].record.name == more[u]
    {
      if u in calls && more[u] == calls[u] {
        var j :| 0 <= j < n - 1 && entries[j].record.kind.FunctionCall?
                 && entries[j].record.callId == u && entries[j].record.name == calls[u];
      } else {
        assert entries[n - 1].record.callId == u && entries[n - 1].record.name == more[u];
      }
    }
  }

  /** An accepted thread is ordinary. */
  lemma RunIsOrdinary(entries: seq<Entry>, ctx: T.Context)
    requires T.Run(entries, ctx, |entries|).Ok?
    ensures Ordinary(entries)
  {
    hide T.Run, Answering;
    RunNames(entries, ctx, |entries|);
    RunCallIds(entries, ctx, |entries|);
  }

  /** The rows that delegation reads: Agent calls, and messages once a child can receive them. */
  predicate Delegating(names: map<string, Option<string>>, ctx: Reading, r: Record) {
    r.name == "Agent" || (ctx.root && r.name == "SendMessage" && names != map[])
  }

  /** How one row moves calls, answers and names. */
  ghost predicate RowMoves(d: Desk, next: Desk, ctx: Reading, r: Record) {
    && d.names.Keys <= next.names.Keys
    && next.calls.Keys
       == (if r.kind.FunctionCall? && Delegating(d.names, ctx, r) then d.calls.Keys + {r.callId} else d.calls.Keys)
    && (if r.kind.FunctionResult? && Delegating(d.names, ctx, r) then
          r.name != "" && r.callId !in d.links && next.links.Keys == d.links.Keys + {r.callId}
        else next.links == d.links)
  }

  lemma ReceiptMoves(d: Desk, ctx: Reading, r: Record)
    requires OnReceipt(d, ctx, r).Ok?
    ensures var next := OnReceipt(d, ctx, r).value;
            && d.names.Keys <= next.names.Keys && next.calls == d.calls
            && r.callId !in d.links && next.links.Keys == d.links.Keys + {r.callId}
  {
    ReceiptAnswers(d, ctx, r, "");
    ReceiptKeepsNames(d, ctx, r);
    hide OnReceipt;
  }

  lemma ReceiptKeepsNames(d: Desk, ctx: Reading, r: Record)
    requires OnReceipt(d, ctx, r).Ok?
    ensures d.names.Keys <= OnReceipt(d, ctx, r).value.names.Keys && OnReceipt(d, ctx, r).value.calls == d.calls
  {
    hide SpawnFits, Continued, Segment, ChildName, OnDelivery, OnSpawn, OnFinished;
    var call := d.calls[r.callId];
    if call.name == "SendMessage" {
      DeliveryKeepsNames(d, call, r);
    } else if call.args.background {
      SpawnKeepsNames(d, ctx, call, r);
    } else {
      FinishedKeepsNames(d, ctx, call, r);
    }
  }

  lemma DeliveryKeepsNames(d: Desk, call: Call, r: Record)
    requires call.args.Args? && OnDelivery(d, call, r).Ok?
    ensures OnDelivery(d, call, r).value.names == d.names && OnDelivery(d, call, r).value.calls == d.calls
  {
  }

  lemma SpawnKeepsNames(d: Desk, ctx: Reading, call: Call, r: Record)
    requires call.args.Args? && OnSpawn(d, ctx, call, r).Ok?
    ensures d.names.Keys <= OnSpawn(d, ctx, call, r).value.names.Keys && OnSpawn(d, ctx, call, r).value.calls == d.calls
  {
    hide SpawnFits, Segment, ChildName;
  }

  lemma FinishedKeepsNames(d: Desk, ctx: Reading, call: Call, r: Record)
    requires call.args.Args? && OnFinished(d, ctx, call, r).Ok?
    ensures OnFinished(d, ctx, call, r).value.names == d.names && OnFinished(d, ctx, call, r).value.calls == d.calls
  {
    hide Continued, Segment, ChildName;
  }

  lemma CallMoves(d: Desk, ctx: Reading, r: Record)
    requires OnCall(d, ctx, r).Ok?
    ensures var next := OnCall(d, ctx, r).value;
            next.names == d.names && next.links == d.links && next.calls.Keys == d.calls.Keys + {r.callId}
  {
    hide Segment;
  }

  lemma RowDoesMove(d: Desk, ctx: Reading, r: Record)
    requires OnRow(d, ctx, r).Ok?
    ensures RowMoves(d, OnRow(d, ctx, r).value, ctx, r)
  {
    hide OnNotice, OnCall, OnReceipt;
    var own := ctx.fork.Some? && ctx.fork.value.sourceId.Some? && r.facts.session == ctx.fork.value.sourceId;
    var start := if own then d.(copied := false) else d;
    var seen := OnNotice(start, ctx, r).value;
    NoticeKeeps(start, ctx, r);
    if r.kind.FunctionCall? && (r.name == "Agent" || Sends(seen, ctx, r)) {
      CallMoves(seen, ctx, r);
    } else if r.kind.FunctionResult? && (r.name == "Agent" || Sends(seen, ctx, r)) {
      ReceiptMoves(seen, ctx, r);
    }
  }

  lemma ScanMoves(entries: seq<Entry>, ctx: Reading, n: nat)
    requires 0 < n <= |entries| && Scan(entries, ctx, n).Ok?
    ensures Scan(entries, ctx, n - 1).Ok?
    ensures RowMoves(Scan(entries, ctx, n - 1).value, Scan(entries, ctx, n).value, ctx, entries[n - 1].record)
  {
    hide OnRow, RowMoves;
    RowDoesMove(Scan(entries, ctx, n - 1).value, ctx, entries[n - 1].record);
  }

  /** Calls, answers and names only grow. */
  lemma {:induction false} ScanGrows(entries: seq<Entry>, ctx: Reading, m: nat, n: nat)
    requires m <= n <= |entries| && Scan(entries, ctx, n).Ok?
    ensures Scan(entries, ctx, m).Ok?
    ensures var a, b := Scan(entries, ctx, m).value, Scan(entries, ctx, n).value;
            a.calls.Keys <= b.calls.Keys && a.links.Keys <= b.links.Keys && a.names.Keys <= b.names.Keys
    decreases n
  {
    hide Scan, Delegating;
    if m < n {
      ScanMoves(entries, ctx, n);
      ScanGrows(entries, ctx, m, n - 1);
    }
  }

  /** The row at which the scan answers a call is a result row of the call. */
  lemma {:induction false} AnswerAt(entries: seq<Entry>, ctx: Reading, n: nat, u: string)
    requires n <= |entries| && Scan(entries, ctx, n).Ok? && u in Scan(entries, ctx, n).value.links
    ensures var row := AnswerRow(entries, ctx, n, u);
            && 0 < row <= n && Replies(entries[row - 1].record, u)
            && Scan(entries, ctx, row - 1).Ok? && u !in Scan(entries, ctx, row - 1).value.links
  {
    hide OnRow, Delegating;
    if n == 0 {
      return;
    }
    ScanMoves(entries, ctx, n);
    if u in Scan(entries, ctx, n - 1).value.links {
      AnswerAt(entries, ctx, n - 1, u);
    }
  }

  /** A delegation call is on record once its row was read. */
  lemma {:induction false} CallIsRead(entries: seq<Entry>, ctx: Reading, n: nat, j: nat)
    requires j < n <= |entries| && Scan(entries, ctx, n).Ok? && CallIdsDiffer(entries)
             && entries[j].record.kind.FunctionCall?
    requires entries[j].record.callId in Scan(entries, ctx, n).value.calls
    ensures Scan(entries, ctx, j).Ok? && Delegating(Scan(entries, ctx, j).value.names, ctx, entries[j].record)
    decreases n
  {
    hide OnRow, Delegating, Consistent, AllMatch;
    ScanMoves(entries, ctx, n);
    if j < n - 1 {
      CallIsRead(entries, ctx, n - 1, j);
    } else {
      ScanKeeps(entries, ctx, j);
      assert !CallRow(entries, j, entries[j].record.callId);
    }
  }

  /** Once a call was read, its first result is read too. */
  lemma ReplyIsRead(entries: seq<Entry>, ctx: Reading, j: nat, k: nat, u: string)
    requires j <= k < |entries| && Scan(entries, ctx, j).Ok? && Scan(entries, ctx, k + 1).Ok?
    requires Delegating(Scan(entries, ctx, j).value.names, ctx, entries[j].record)
    requires Replies(entries[k].record, u) && entries[k].record.name == entries[j].record.name
    ensures u in Scan(entries, ctx, k + 1).value.links
  {
    hide Scan;
    ScanMoves(entries, ctx, k + 1);
    ScanGrows(entries, ctx, j, k);
    var a, b := Scan(entries, ctx, j).value.names, Scan(entries, ctx, k).value.names;
    assert a != map[] ==> b != map[] by {
      if a != map[] {
        var x :| x in a;
        assert x in b.Keys;
      }
    }
  }

  /** After a result row of an answered call, the call is answered. */
  lemma FirstReplyAnswers(entries: seq<Entry>, ctx: Reading, k: nat, u: string)
    requires Ordinary(entries) && Scan(entries, ctx, |entries|).Ok? && u in Scan(entries, ctx, |entries|).value.links
    requires k < |entries| && Replies(entries[k].record, u)
    ensures Scan(entries, ctx, k + 1).Ok? && u in Scan(entries, ctx, k + 1).value.links
  {
    hide Scan, Delegating, RowMoves, Consistent, AllMatch;
    var n := |entries|;
    assert Answering(entries, k);
    var j :| 0 <= j < k && entries[j].record.kind.FunctionCall? && entries[j].record.callId == u
             && entries[j].record.name == entries[k].record.name;
    ScanKeeps(entries, ctx, n);
    LinksAreCalls(Scan(entries, ctx, n).value);
    CallIsRead(entries, ctx, n, j);
    ScanGrows(entries, ctx, k + 1, n);
    ScanGrows(entries, ctx, j, k + 1);
    ReplyIsRead(entries, ctx, j, k, u);
  }

  /** The scan answers a call at its first result row. */
  lemma AnswerIsReply(entries: seq<Entry>, ctx: Reading, u: string)
    requires Ordinary(entries) && Scan(entries, ctx, |entries|).Ok? && u in Scan(entries, ctx, |entries|).value.links
    ensures AnswerRow(entries, ctx, |entries|, u) == ReplyRow(entries, 0, u) + 1 <= |entries|
  {
    hide Scan, AnswerRow, Ordinary;
    var n, row, k := |entries|, AnswerRow(entries, ctx, |entries|, u), ReplyRow(entries, 0, u);
    AnswerAt(entries, ctx, n, u);
    if k < row - 1 {
      FirstReplyAnswers(entries, ctx, k, u);
      ScanGrows(entries, ctx, k + 1, row - 1);
    }
  }

  /** No call to `c` has its result after that of a later call. */
  predicate InOrder(entries: seq<Entry>, links: map<string, Option<string>>, c: string) {
    var calls := CallOrder(entries, |entries|, links, c);
    forall i, j :: 0 <= i < j < |calls| ==> ReplyRow(entries, 0, calls[i]) < ReplyRow(entries, 0, calls[j])
  }

  /** Main result. In an accepted thread the turns of a child stand at their own calls exactly when no
    * call to the child has its result after that of a later call. */
  lemma TurnsMeetCalls(entries: seq<Entry>, ctx: Reading, c: string)
    requires Ordinary(entries) && Scan(entries, ctx, |entries|).Ok? && c in Scan(entries, ctx, |entries|).value.children
    ensures var d := Scan(entries, ctx, |entries|).value;
            CallOrder(entries, |entries|, d.links, c) == ReceiptOrder(d, c) <==> InOrder(entries, d.links, c)
  {
    hide Scan, CallOrder, Consistent, AllMatch, CallRow, AnswerRow, ReplyRow, Ordinary;
    var d, n := Scan(entries, ctx, |entries|).value, |entries|;
    var calls := CallOrder(entries, n, d.links, c);
    TurnsMeetAnswers(entries, ctx, c);
    forall i | 0 <= i < |calls|
      ensures AnswerRow(entries, ctx, n, calls[i]) == ReplyRow(entries, 0, calls[i]) + 1
    {
      CallOrderHas(entries, n, d.links, c, calls[i]);
      AnswerIsReply(entries, ctx, calls[i]);
    }
  }

  // ---------------------------------------------------------------- one call

  /** The calls to `c` whose result comes before that of `u`. */
  function EarlierReplies(entries: seq<Entry>, links: map<string, Option<string>>, c: string, u: string): set<string> {
    set v | v in Linked(links, c) && ReplyRow(entries, 0, v) < ReplyRow(entries, 0, u)
  }

  /** A call's place among the receipts is the number of results before its own. */
  lemma PlaceIsEarlier(entries: seq<Entry>, ctx: Reading, c: string, k: nat)
    requires Ordinary(entries) && Scan(entries, ctx, |entries|).Ok? && c in Scan(entries, ctx, |entries|).value.children
    requires k < |ReceiptOrder(Scan(entries, ctx, |entries|).value, c)|
    ensures var d := Scan(entries, ctx, |entries|).value;
            |EarlierReplies(entries, d.links, c, ReceiptOrder(d, c)[k])| == k
  {
    hide Scan, CallOrder, Consistent, AllMatch, CallRow, AnswerRow, ReplyRow, Ordinary, Linked;
    var d, n := Scan(entries, ctx, |entries|).value, |entries|;
    var ids := ReceiptOrder(d, c);
    ReceiptsRank(entries, ctx, n, c);
    ScanKeeps(entries, ctx, n);
    LinksAreCalls(d);
    forall i | 0 <= i < |ids|
      ensures AnswerRow(entries, ctx, n, ids[i]) == ReplyRow(entries, 0, ids[i]) + 1
    {
      AnswerIsReply(entries, ctx, ids[i]);
    }
    var earlier := set i | 0 <= i < k :: ids[i];
    forall v
      ensures v in earlier <==> v in EarlierReplies(entries, d.links, c, ids[k])
    {
      OrdersList(entries, d, c, v);
      if v in ids {
        var i :| 0 <= i < |ids| && ids[i] == v;
        assert i < k ==> v in earlier;
      }
    }
    assert earlier == EarlierReplies(entries, d.links, c, ids[k]);
    PrefixSet(ids, k);
  }

  /** Main result. The `m`-th completed call of a child is the call `u` made `m`-th exactly when `m`
    * calls to the child have their results before that of `u`. */
  lemma OneTurnMeets(entries: seq<Entry>, ctx: Reading, c: string, u: string, m: nat)
    requires Ordinary(entries) && Scan(entries, ctx, |entries|).Ok? && c in Scan(entries, ctx, |entries|).value.children
    requires u in Linked(Scan(entries, ctx, |entries|).value.links, c)
    requires m < |ReceiptOrder(Scan(entries, ctx, |entries|).value, c)|
    ensures var d := Scan(entries, ctx, |entries|).value;
            ReceiptOrder(d, c)[m] == u <==> |EarlierReplies(entries, d.links, c, u)| == m
  {
    hide Scan, CallOrder, Consistent, AllMatch, CallRow, ReplyRow, Ordinary, Linked, EarlierReplies;
    var d := Scan(entries, ctx, |entries|).value;
    ScanKeeps(entries, ctx, |entries|);
    LinksAreCalls(d);
    OrdersList(entries, d, c, u);
    var k :| 0 <= k < |ReceiptOrder(d, c)| && ReceiptOrder(d, c)[k] == u;
    PlaceIsEarlier(entries, ctx, c, k);
    PlaceIsEarlier(entries, ctx, c, m);
  }
}
