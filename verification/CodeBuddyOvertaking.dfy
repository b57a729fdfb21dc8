/** An accepted CodeBuddy family in which a call is followed by another call's turn: two
  * continuations of one child overlap, and the later one is answered first. */
module CodeBuddyOvertaking {
  import opened Base
  import opened CodeBuddyRows
  import opened CodeBuddyDelegation
  import opened CodeBuddyAlignment
  import R = CodeBuddyRecords
  import C = CodeBuddyChild
  import T = CodeBuddyThread
  import F = CodeBuddyFamily
  import S = CodeBuddySession
  import P = CodeBuddyPlacement
  import FamilyOrder

  // ---------------------------------------------------------------- the family

  const WORKER := "agent-w"
  const NO_RECEIPT := Receipt(None, true, None, "", None, None)

  function Row(id: string, kind: Kind, role: Role, session: string, parent: Option<string>, agent: Option<string>,
               callId: string, args: Args, receipt: Receipt, block: Block): Record
  {
    Record(id, kind, callId, if callId == "" then "" else "Agent", id, "", true, false, false,
           Facts(role, Some(session), parent, None, Some(0), agent, true, Unset, Unset, Unset, NoCompact, Unset,
                 Some([block]),
                 Wording(false, false, false, None), NoNotice, args, true, false, receipt, NoTokens, false, false))
  }

  function Prompting(id: string, session: string, parent: Option<string>, agent: Option<string>, text: string): Record {
    Row(id, Message, User, session, parent, agent, "", NoJson, NO_RECEIPT, Block(InputText, Some(text)))
  }

  function Answering(id: string, session: string, parent: string): Record {
    Row(id, Message, Assistant, session, Some(parent), None, "", NoJson, NO_RECEIPT, Block(OutputText, Some("done")))
  }

  function Calling(id: string, parent: string, u: string, resume: Option<string>): Record {
    Row(id, FunctionCall, OtherRole, "s", Some(parent), None, u, CallArgs(u, resume).args, NO_RECEIPT,
        Block(OtherBlock, None))
  }

  function Replying(id: string, parent: string, u: string, afterId: Option<string>, lastId: string): Record {
    Row(id, FunctionResult, OtherRole, "s", Some(parent), None, u, NoJson,
        Receipt(Some(WORKER), true, afterId, lastId, None, None), Block(OtherBlock, None))
  }

  function CallArgs(u: string, resume: Option<string>): Call {
    Call(Args(false, None, None, None, false, false, resume, Some(u), "worker", None), "Agent", Some(0), "s", false, "")
  }

  /** Calls a, b and c; b and c are open at the same time, and c is answered first. */
  const ROOT := [Prompting("1", "s", None, None, "go"), Calling("2", "1", "a", None),
                 Replying("3", "2", "a", None, "q"),
                 Calling("4", "3", "b", Some(WORKER)), Calling("5", "4", "c", Some(WORKER)),
                 Replying("6", "5", "c", Some("q"), "t"), Replying("7", "6", "b", Some("t"), "v")]

  /** The child's turns a, c and b. */
  const CHILD := [Prompting("p", "w", None, Some("worker"), "a"), Answering("q", "w", "p"),
                  Prompting("r", "w", Some("q"), None, "c"), Answering("t", "w", "r"),
                  Prompting("u", "w", Some("t"), None, "b"), Answering("v", "w", "u")]

  const SOURCE := F.Source("s", None, ROOT, map[("s", WORKER) := F.File(CHILD, true)], 2, 100)

  // ---------------------------------------------------------------- histories without repeats

  function Plain(records: seq<Record>): (r: seq<Entry>)
    ensures |r| == |records| && forall k :: 0 <= k < |records| ==> r[k] == Entry(records[k], false)
  {
    seq(|records|, k requires 0 <= k < |records| => Entry(records[k], false))
  }

  ghost predicate IdsDiffer(records: seq<Record>) {
    && (forall k :: 0 <= k < |records| ==>
          records[k].id != "" && (records[k].kind.FunctionCall? ==> records[k].callId != ""))
    && forall i, j :: 0 <= i < j < |records| ==> records[i].id != records[j].id
  }

  lemma {:induction false} CollectPlain(records: seq<Record>, n: nat)
    requires n <= |records| && IdsDiffer(records)
    ensures R.Collect(records, n) == Ok(Plain(records[..n]))
  {
    if n > 0 {
      CollectPlain(records, n - 1);
      var before, r := Plain(records[..n - 1]), records[n - 1];
      assert R.Variant(before, r.id, R.CallOf(r)).None?;
      assert !R.Seen(before, r.id);
      assert Plain(records[..n]) == before + [Entry(r, false)];
    }
  }

  lemma {:induction false} PlainGroups(unique: seq<Entry>, at: nat)
    requires forall k :: 0 <= k < |unique| ==> !unique[k].sibling
    ensures R.GroupsComplete(unique, at)
    decreases |unique| - at
  {
    if at < |unique| {
      PlainGroups(unique, at + 1);
    }
  }

  /** Such a history is admitted as it is. */
  lemma PlainHistory(records: seq<Record>)
    requires IdsDiffer(records)
    ensures R.HistoryRecords(records) == Ok(Plain(records))
  {
    CollectPlain(records, |records|);
    assert records[..|records|] == records;
    PlainGroups(Plain(records), 0);
  }

  /** Rows whose ids are the letters of a word without repeats. */
  lemma LettersDiffer(records: seq<Record>, letters: string)
    requires |letters| == |records| && Distinct(letters)
    requires forall k :: 0 <= k < |records| ==>
               records[k].id == [letters[k]] && (records[k].kind.FunctionCall? ==> records[k].callId != "")
    ensures IdsDiffer(records)
  {
    forall i, j | 0 <= i < j < |records|
      ensures records[i].id != records[j].id
    {
      assert records[i].id[0] == letters[i] && records[j].id[0] == letters[j];
    }
  }

  lemma PromptIs(id: string, session: string, parent: Option<string>, agent: Option<string>, text: string)
    ensures var r := Prompting(id, session, parent, agent, text);
            && r.id == id && r.kind.Message? && r.facts.session == Some(session) && r.facts.parent == parent
            && r.facts.logical.None? && r.facts.agent == agent && C.Prompt(r) && r.Says(text) && !r.AssistantDone()
  {
  }

  lemma AnswerIs(id: string, session: string, parent: string)
    ensures var r := Answering(id, session, parent);
            && r.id == id && r.kind.Message? && r.facts.session == Some(session) && r.facts.parent == Some(parent)
            && !C.Prompt(r) && r.AssistantDone()
  {
  }

  lemma CallIs(id: string, parent: string, u: string, resume: Option<string>)
    ensures Calling(id, parent, u, resume).id == id && Calling(id, parent, u, resume).callId == u
    ensures Calling(id, parent, u, resume).kind.FunctionCall?
  {
  }

  lemma ReplyIs(id: string, parent: string, u: string, afterId: Option<string>, lastId: string)
    ensures Replying(id, parent, u, afterId, lastId).id == id
            && Replying(id, parent, u, afterId, lastId).kind.FunctionResult?
  {
  }

  lemma RootIds()
    ensures IdsDiffer(ROOT)
  {
    hide Prompting, Calling, Replying, IdsDiffer;
    PromptIs("1", "s", None, None, "go");
    CallIs("2", "1", "a", None);
    ReplyIs("3", "2", "a", None, "q");
    CallIs("4", "3", "b", Some(WORKER));
    CallIs("5", "4", "c", Some(WORKER));
    ReplyIs("6", "5", "c", Some("q"), "t");
    ReplyIs("7", "6", "b", Some("t"), "v");
    LettersDiffer(ROOT, "1234567");
  }

  /** The child's rows: prompts and answers in turn. */
  lemma ChildRows()
    ensures forall k :: 0 <= k < 6 ==>
              CHILD[k].id == ["pqrtuv"[k]] && CHILD[k].kind.Message? && CHILD[k].facts.session == Some("w")
    ensures forall k :: 0 <= k < 6 ==>
              (C.Prompt(CHILD[k]) <==> k % 2 == 0) && (CHILD[k].AssistantDone() <==> k % 2 == 1)
    ensures CHILD[0].Says("a") && CHILD[2].Says("c") && CHILD[4].Says("b") && C.DelegatedRoot(CHILD[0], "worker")
    ensures CHILD[0].facts.parent.None? && CHILD[2].facts.parent == Some("q") && CHILD[4].facts.parent == Some("t")
  {
    hide Prompting, Answering, C.Prompt;
    PromptIs("p", "w", None, Some("worker"), "a");
    AnswerIs("q", "w", "p");
    PromptIs("r", "w", Some("q"), None, "c");
    AnswerIs("t", "w", "r");
    PromptIs("u", "w", Some("t"), None, "b");
    AnswerIs("v", "w", "u");
    assert CHILD[0].UserMessage() by {
      FirstIsUser();
    }
  }

  lemma FirstIsUser()
    ensures Prompting("p", "w", None, Some("worker"), "a").UserMessage()
  {
  }

  lemma ChildIds()
    ensures IdsDiffer(CHILD)
  {
    hide Prompting, Answering, IdsDiffer, C.Prompt;
    ChildRows();
    LettersDiffer(CHILD, "pqrtuv");
  }

  // ---------------------------------------------------------------- the root's delegation

  function Worker(calls: seq<ChildCall>): Reference {
    Reference(["s"], false, "worker", calls, None, None, false)
  }

  function Filed(u: string, afterId: Option<string>, lastId: string): ChildCall {
    Foreground(u, u, afterId, lastId)
  }

  /** The desk with these calls, of which the filed ones are answered. */
  function DeskOf(calls: map<string, Call>, links: map<string, Option<string>>, filed: seq<ChildCall>): Desk {
    if filed == [] then Desk(false, [], map[], links, map[], calls, {})
    else Desk(false, [WORKER], map[WORKER := Worker(filed)], links, map[], calls, {})
  }

  lemma CallingRow(d: Desk, ctx: Reading, id: string, parent: string, u: string, resume: Option<string>)
    requires u != "" && u !in d.calls && ctx.fork.None? && !d.copied
    ensures OnRow(d, ctx, Calling(id, parent, u, resume)) == Ok(d.(calls := d.calls[u := CallArgs(u, resume)]))
  {
  }

  lemma ReplyingRow(d: Desk, ctx: Reading, id: string, parent: string, u: string, resume: Option<string>,
                    afterId: Option<string>, lastId: string)
    requires u != "" && u in d.calls && u !in d.links && d.calls[u] == CallArgs(u, resume) && ctx.fork.None?
    requires resume == Some(WORKER) || (resume.None? && afterId.None?)
    requires afterId != Some("") && lastId != ""
    requires WORKER in d.children ==> exists calls :: d.children[WORKER] == Worker(calls)
    ensures var ref := if WORKER in d.children then d.children[WORKER] else Worker([]);
            OnRow(d, ctx, Replying(id, parent, u, afterId, lastId))
            == Ok(File(d, WORKER, ref, Filed(u, afterId, lastId)))
  {
    assert ChildName(WORKER) && Segment(WORKER);
  }

  lemma FileInDesk(calls: map<string, Call>, links: map<string, Option<string>>, filed: seq<ChildCall>, call: ChildCall)
    ensures var d := DeskOf(calls, links, filed);
            var ref := if WORKER in d.children then d.children[WORKER] else Worker([]);
            File(d, WORKER, ref, call) == DeskOf(calls, links[call.callId := Some(WORKER)], filed + [call])
  {
  }

  lemma Answered(calls: map<string, Call>, links: map<string, Option<string>>, filed: seq<ChildCall>, ctx: Reading,
                 id: string, parent: string, u: string, resume: Option<string>, afterId: Option<string>, lastId: string)
    requires u != "" && u in calls && u !in links && calls[u] == CallArgs(u, resume) && ctx.fork.None?
    requires resume == Some(WORKER) || (resume.None? && afterId.None?)
    requires afterId != Some("") && lastId != ""
    ensures OnRow(DeskOf(calls, links, filed), ctx, Replying(id, parent, u, afterId, lastId))
            == Ok(DeskOf(calls, links[u := Some(WORKER)], filed + [Filed(u, afterId, lastId)]))
  {
    hide OnRow, Replying, CallArgs, File;
    FileInDesk(calls, links, filed, Filed(u, afterId, lastId));
    ReplyingRow(DeskOf(calls, links, filed), ctx, id, parent, u, resume, afterId, lastId);
  }

  const CALLS := map["a" := CallArgs("a", None), "b" := CallArgs("b", Some(WORKER)), "c" := CallArgs("c", Some(WORKER))]
  const LINKS: map<string, Option<string>> := map["a" := Some(WORKER), "c" := Some(WORKER), "b" := Some(WORKER)]
  const FILED := [Filed("a", None, "q"), Filed("c", Some("q"), "t"), Filed("b", Some("t"), "v")]
  const READING := Reading(true, None, "s")

  lemma ScanStarts()
    ensures Scan(Plain(ROOT), READING, 5) == Ok(DeskOf(CALLS, map["a" := Some(WORKER)], [Filed("a", None, "q")]))
  {
    hide OnRow, Calling, Replying, Prompting;
    var e := Plain(ROOT);
    var c1 := map["a" := CallArgs("a", None)];
    var l2: map<string, Option<string>> := map["a" := Some(WORKER)];
    var start := DeskOf(map[], map[], []);
    PromptRow(start);
    assert Scan(e, READING, 1) == Ok(start);
    CallingRow(start, READING, "2", "1", "a", None);
    assert start.calls["a" := CallArgs("a", None)] == c1;
    assert Scan(e, READING, 2) == Ok(DeskOf(c1, map[], []));
    Answered(c1, map[], [], READING, "3", "2", "a", None, None, "q");
    assert [] + [Filed("a", None, "q")] == [Filed("a", None, "q")] && start.links["a" := Some(WORKER)] == l2;
    var d3 := DeskOf(c1, l2, [Filed("a", None, "q")]);
    assert Scan(e, READING, 3) == Ok(d3);
    CallingRow(d3, READING, "4", "3", "b", Some(WORKER));
    var c4 := c1["b" := CallArgs("b", Some(WORKER))];
    var d4 := DeskOf(c4, l2, [Filed("a", None, "q")]);
    assert Scan(e, READING, 4) == Ok(d4);
    CallingRow(d4, READING, "5", "4", "c", Some(WORKER));
    assert c4["c" := CallArgs("c", Some(WORKER))] == CALLS;
  }

  lemma PromptRow(d: Desk)
    ensures OnRow(d, READING, Prompting("1", "s", None, None, "go")) == Ok(d)
  {
  }

  lemma ScanEnds()
    ensures Scan(Plain(ROOT), READING, 7) == Ok(DeskOf(CALLS, LINKS, FILED))
  {
    hide OnRow, Calling, Replying, Prompting;
    var e := Plain(ROOT);
    var l4, l5: map<string, Option<string>> := map["a" := Some(WORKER)], map["a" := Some(WORKER), "c" := Some(WORKER)];
    var f4, f5 := [Filed("a", None, "q")], [Filed("a", None, "q"), Filed("c", Some("q"), "t")];
    ScanStarts();
    Answered(CALLS, l4, f4, READING, "6", "5", "c", Some(WORKER), Some("q"), "t");
    assert f4 + [Filed("c", Some("q"), "t")] == f5;
    assert Scan(e, READING, 6) == Ok(DeskOf(CALLS, l5, f5));
    Answered(CALLS, l5, f5, READING, "7", "6", "b", Some(WORKER), Some("t"), "v");
    assert f5 + [Filed("b", Some("t"), "v")] == FILED;
  }

  lemma RootDelegates()
    ensures References(ROOT, true, None) == Ok(DeskOf(CALLS, LINKS, FILED))
  {
    hide Scan, R.HistoryRecords, Calling, Replying, Prompting, IdsDiffer;
    RootIds();
    PlainHistory(ROOT);
    PromptIs("1", "s", None, None, "go");
    ScanEnds();
    assert CALLS.Keys == LINKS.Keys;
  }

  // ---------------------------------------------------------------- the child

  lemma {:induction false} NothingDelegated(records: seq<Record>, ctx: Reading, n: nat)
    requires n <= |records| && !ctx.root && ctx.fork.None?
    requires forall k :: 0 <= k < |records| ==> !records[k].kind.FunctionCall? && !records[k].kind.FunctionResult?
    ensures Scan(Plain(records), ctx, n) == Ok(Fresh(ctx))
  {
    if n > 0 {
      NothingDelegated(records, ctx, n - 1);
    }
  }

  lemma ChildDelegates()
    ensures References(CHILD, false, None) == Ok(DeskOf(map[], map[], []))
  {
    hide R.HistoryRecords, Prompting, Answering, IdsDiffer, C.Prompt, Scan;
    ChildIds();
    ChildRows();
    PlainHistory(CHILD);
    NothingDelegated(CHILD, Reading(false, None, Owner(CHILD)), |CHILD|);
  }

  lemma {:induction false} AllOnChain(records: seq<Record>, n: nat)
    requires n <= |records| && forall k :: 0 <= k < |records| ==> records[k].Projected()
    ensures C.ChainRows(Plain(records), n) == records[..n]
  {
    if n > 0 {
      AllOnChain(records, n - 1);
      assert records[..n] == records[..n - 1] + [records[n - 1]];
    }
  }

  lemma ChildUsers()
    ensures C.Users(CHILD, 6) == [0, 2, 4]
  {
    hide C.Prompt, Prompting, Answering;
    ChildRows();
    assert C.Users(CHILD, 1) == [0];
    assert C.Users(CHILD, 2) == [0];
    assert C.Users(CHILD, 3) == [0, 2];
    assert C.Users(CHILD, 4) == [0, 2];
    assert C.Users(CHILD, 5) == [0, 2, 4];
  }

  lemma ChildTurn(k: nat)
    requires k < 3
    ensures C.PromptFits(CHILD, 2 * k, FILED[k]) && C.SentAfter(CHILD, 2 * k, FILED[k])
    ensures C.TurnComplete(CHILD, 2 * k, 2 * k + 2, FILED[k])
  {
    hide C.Prompt, Prompting, Answering;
    ChildRows();
    assert CHILD[2 * k + 1].id == FILED[k].lastId;
  }

  lemma ChildTurns()
    ensures |C.Users(CHILD, |CHILD|)| == 3 && C.CheckTurns(CHILD, FILED, 3) == Ok(map[])
  {
    hide C.Users, C.PromptFits, C.SentAfter, C.TurnComplete, Prompting, Answering;
    ChildUsers();
    ChildTurn(0);
    ChildTurn(1);
    ChildTurn(2);
    assert C.CheckTurns(CHILD, FILED, 0) == Ok(map[]);
    assert C.CheckTurns(CHILD, FILED, 1) == Ok(map[]);
    assert C.CheckTurns(CHILD, FILED, 2) == Ok(map[]);
  }

  lemma ChildAnswers()
    ensures C.Validate(CHILD, Worker(FILED)) == Ok(C.Validated("w", map[]))
  {
    hide R.HistoryRecords, C.Users, C.CheckTurns, C.ChainRows, C.Prompt, C.DelegatedRoot, Prompting, Answering,
         IdsDiffer;
    ChildIds();
    ChildRows();
    PlainHistory(CHILD);
    AllOnChain(CHILD, |CHILD|);
    assert CHILD[..|CHILD|] == CHILD;
    ChildTurns();
  }

  // ---------------------------------------------------------------- the search

  const MEMBER := F.Member(WORKER, "s", "w", Worker(FILED), map[], CHILD, DeskOf(map[], map[], []))

  lemma ChildIsVisited()
    ensures var d := DeskOf(CALLS, LINKS, FILED);
            F.Visit(SOURCE, F.Search(d, {}, {"s"}, [], 0, 0, 7), WORKER)
            == Ok(F.Search(d, {WORKER}, {"s", "w"}, [MEMBER], 0, 1, 13))
  {
    hide C.Validate, References, C.CheckTurns, Prompting, Answering;
    ChildAnswers();
    ChildDelegates();
    var ref := Worker(FILED);
    assert [] + [CHILD] == [CHILD] && [] + CHILD == CHILD;
    assert F.ReadParts(SOURCE, ref, WORKER, 0, 7) == Ok(F.Parts([], 7));
    assert F.ReadParts(SOURCE, ref, WORKER, 1, 7) == Ok(F.Parts([CHILD], 13));
    assert C.Fragments([CHILD], ref, 0) == Ok([]);
    assert C.Fragments([CHILD], ref, 1) == Ok(CHILD);
    assert {} + {WORKER} == {WORKER} && {"s"} + {"w"} == {"s", "w"} && [] + [MEMBER] == [MEMBER];
  }

  const FOUND := F.Search(DeskOf(CALLS, LINKS, FILED), {WORKER}, {"s", "w"}, [MEMBER], 2, 0, 13)

  lemma FamilyIsFound()
    ensures F.Snapshot(SOURCE) == Ok(FOUND)
  {
    hide F.Visit, References;
    RootDelegates();
    ChildIsVisited();
    var d := DeskOf(CALLS, LINKS, FILED);
    var s0 := F.Search(d, {}, {"s"}, [], 0, 0, 7);
    var s1 := F.Search(d, {WORKER}, {"s", "w"}, [MEMBER], 0, 1, 13);
    assert F.Begin(SOURCE) == Ok(s0);
    assert F.DeskAt(s0, 0).order == [WORKER];
    assert F.DeskAt(s1, 1).order == [];
    var s2, s3 := s1.(at := 1, next := 0), s1.(at := 2, next := 0);
    assert F.Walk(SOURCE, s3) == Ok(s3);
    assert F.Walk(SOURCE, s2) == F.Walk(SOURCE, s3);
    assert F.Walk(SOURCE, s1) == F.Walk(SOURCE, s2);
    assert F.Walk(SOURCE, s0) == F.Walk(SOURCE, s1);
  }

  // ---------------------------------------------------------------- the threads

  /** A thread between two rows: nothing is open, and these calls are known. */
  ghost predicate Calm(t: T.Thread, previous: Option<string>, native: Option<string>, calls: map<string, string>,
                       rows: nat) {
    && t.previous == previous && t.native == native && !t.manual && t.emergency.Settled? && t.calls == calls
    && t.events == rows && t.usages == map[] && t.turns != []
  }

  /** The row carries no mark of a compaction, and its agent is not the compacting one. */
  predicate Bare(ctx: T.Context, r: Record) {
    && r.facts.internal.Unset? && r.facts.summary.Unset? && r.facts.compacted.Unset? && r.facts.compact.NoCompact?
    && r.facts.logical.None? && !r.facts.branching && r.facts.time == Some(0) && r.facts.tokens.NoTokens?
       && r.Projected()
    && !T.ForeignAgent(ctx, r) && !T.ByCompactAgent(r) && r.facts.session == Some(ctx.Native())
  }

  predicate RoomFor(ctx: T.Context, rows: nat) {
    rows + 1 <= ctx.events && ctx.forkedFrom.None? && ctx.sourceId == "s" && ctx.notices == {}
    && (ctx.child.Some? ==> ctx.child.value.native != "" && ctx.child.value.prompts == map[])
  }

  const PLAIN := T.Class(false, None, false, T.Settled)

  lemma BareClass(t: T.Thread, ctx: T.Context, r: Record)
    requires Bare(ctx, r) && !t.manual && t.emergency.Settled?
    ensures T.Classify(t, ctx, r) == Ok(PLAIN)
  {
  }

  lemma BareChain(t: T.Thread, ctx: T.Context, r: Record)
    requires Bare(ctx, r) && RoomFor(ctx, 0) && r.facts.parent == t.previous
    requires t.native == r.facts.session || r.UserMessage()
    ensures T.Chain(t, ctx, PLAIN, Entry(r, false))
            == Ok(t.(native := r.facts.session, previous := Some(r.id), manual := false, emergency := T.Settled))
  {
    assert ctx.child.None? ==> !("agent-" <= "s");
    assert !T.ForeignSession(t, ctx, ctx.Native());
  }

  /** The rest of a step whose row shows one event. */
  lemma BareStep(t: T.Thread, ctx: T.Context, i: nat, r: Record, slot: T.Slot, seen: T.Thread)
    requires Bare(ctx, r) && RoomFor(ctx, t.events) && !t.manual && t.emergency.Settled? && t.usages == map[]
             && t.turns != []
    requires r.facts.parent == t.previous && (t.native == r.facts.session || r.UserMessage())
    requires var chained :=
               t.(native := r.facts.session, previous := Some(r.id), manual := false, emergency := T.Settled);
             T.Emit(chained, ctx, PLAIN, r) == Ok(T.Emission(seen, [slot]))
             && T.Same(chained, seen) && seen.usages == map[] && !seen.manual && seen.emergency.Settled?
             && seen.previous == chained.previous && seen.native == chained.native
    ensures T.Step(t, ctx, i, Entry(r, false)).Ok?
    ensures Calm(T.Step(t, ctx, i, Entry(r, false)).value, Some(r.id), r.facts.session, seen.calls, t.events + 1)
  {
    hide T.Classify, T.Chain, T.Emit, T.ForeignAgent;
    BareClass(t, ctx, r);
    BareChain(t, ctx, r);
  }

  lemma OneBlock(b: Block)
    requires !b.kind.OtherBlock? && b.text.Some? && b.text.value != ""
    ensures T.Shown([b], 0, None) == Ok([T.Slot(0, None)])
  {
    assert [b][1..] == [];
    assert T.Shown([b][1..], 1, None) == Ok([]);
    assert [T.Slot(0, None)] + [] == [T.Slot(0, None)];
  }

  lemma PromptStep(t: T.Thread, ctx: T.Context, i: nat, id: string, parent: Option<string>, agent: Option<string>,
                   text: string)
    requires RoomFor(ctx, t.events) && Calm(t, parent, t.native, t.calls, t.events) && text != ""
    requires agent == None || (agent == Some("worker") && ctx.child.Some? && ctx.child.value.agent == "worker")
    ensures var r := Prompting(id, ctx.Native(), parent, agent, text);
            && T.Step(t, ctx, i, Entry(r, false)).Ok?
            && Calm(T.Step(t, ctx, i, Entry(r, false)).value, Some(id), Some(ctx.Native()), t.calls, t.events + 1)
  {
    var r := Prompting(id, ctx.Native(), parent, agent, text);
    OneBlock(Block(InputText, Some(text)));
    var chained := t.(native := r.facts.session, previous := Some(r.id), manual := false, emergency := T.Settled);
    var seen := T.Emit(chained, ctx, PLAIN, r).value.t;
    hide T.Step;
    BareStep(t, ctx, i, r, T.Slot(0, None), seen);
  }

  lemma AnswerStep(t: T.Thread, ctx: T.Context, i: nat, id: string, parent: string)
    requires RoomFor(ctx, t.events) && Calm(t, Some(parent), Some(ctx.Native()), t.calls, t.events)
    ensures var r := Answering(id, ctx.Native(), parent);
            && T.Step(t, ctx, i, Entry(r, false)).Ok?
            && Calm(T.Step(t, ctx, i, Entry(r, false)).value, Some(id), Some(ctx.Native()), t.calls, t.events + 1)
  {
    var r := Answering(id, ctx.Native(), parent);
    OneBlock(Block(OutputText, Some("done")));
    var chained := t.(native := r.facts.session, previous := Some(r.id), manual := false, emergency := T.Settled);
    var seen := T.Emit(chained, ctx, PLAIN, r).value.t;
    hide T.Step;
    BareStep(t, ctx, i, r, T.Slot(0, None), seen);
  }

  lemma CallStep(t: T.Thread, ctx: T.Context, i: nat, id: string, parent: string, u: string, resume: Option<string>)
    requires RoomFor(ctx, t.events) && ctx.child.None? && Calm(t, Some(parent), Some("s"), t.calls, t.events)
    requires u != "" && u in ctx.callChildren && u !in t.calls
    ensures var r := Calling(id, parent, u, resume);
            && T.Step(t, ctx, i, Entry(r, false)).Ok?
            && Calm(T.Step(t, ctx, i, Entry(r, false)).value, Some(id), Some("s"), t.calls[u := "Agent"], t.events + 1)
  {
    var r := Calling(id, parent, u, resume);
    var chained := t.(native := r.facts.session, previous := Some(r.id), manual := false, emergency := T.Settled);
    var out := T.Emit(chained, ctx, PLAIN, r).value;
    hide T.Step;
    BareStep(t, ctx, i, r, out.slots[0], out.t);
  }

  lemma ReplyStep(t: T.Thread, ctx: T.Context, i: nat, id: string, parent: string, u: string, afterId: Option<string>,
                  lastId: string)
    requires RoomFor(ctx, t.events) && ctx.child.None? && Calm(t, Some(parent), Some("s"), t.calls, t.events)
    requires u != "" && u in t.calls && t.calls[u] == "Agent"
    ensures var r := Replying(id, parent, u, afterId, lastId);
            && T.Step(t, ctx, i, Entry(r, false)).Ok?
            && Calm(T.Step(t, ctx, i, Entry(r, false)).value, Some(id), Some("s"), t.calls, t.events + 1)
  {
    var r := Replying(id, parent, u, afterId, lastId);
    var chained := t.(native := r.facts.session, previous := Some(r.id), manual := false, emergency := T.Settled);
    hide T.Step;
    BareStep(t, ctx, i, r, T.Slot(0, None), chained);
  }

  /** One more row of a run. */
  lemma RunOn(records: seq<Record>, ctx: T.Context, n: nat)
    requires n < |records| && T.Run(Plain(records), ctx, n).Ok?
    ensures T.Run(Plain(records), ctx, n + 1)
            == T.Step(T.Run(Plain(records), ctx, n).value, ctx, n, Entry(records[n], false))
  {
    hide T.Step;
  }

  const ROOM := 100

  lemma RootRuns(ctx: T.Context)
    requires ctx == T.Context("s", None, None, {}, LINKS, ROOM, ROOM)
    ensures T.Project(ROOT, ctx).Ok? && T.Project(ROOT, ctx).value.events == 7
            && T.Project(ROOT, ctx).value.usages == map[]
  {
    hide T.Step, T.Run, Prompting, Calling, Replying, R.HistoryRecords, IdsDiffer;
    RootIds();
    PlainHistory(ROOT);
    var e := Plain(ROOT);
    var t0 := T.Start();
    StartRun(ROOT, ctx);
    PromptStep(t0, ctx, 0, "1", None, None, "go");
    RunOn(ROOT, ctx, 0);
    var t1 := T.Run(e, ctx, 1).value;
    CallStep(t1, ctx, 1, "2", "1", "a", None);
    RunOn(ROOT, ctx, 1);
    var t2 := T.Run(e, ctx, 2).value;
    ReplyStep(t2, ctx, 2, "3", "2", "a", None, "q");
    RunOn(ROOT, ctx, 2);
    var t3 := T.Run(e, ctx, 3).value;
    CallStep(t3, ctx, 3, "4", "3", "b", Some(WORKER));
    RunOn(ROOT, ctx, 3);
    var t4 := T.Run(e, ctx, 4).value;
    CallStep(t4, ctx, 4, "5", "4", "c", Some(WORKER));
    RunOn(ROOT, ctx, 4);
    var t5 := T.Run(e, ctx, 5).value;
    ReplyStep(t5, ctx, 5, "6", "5", "c", Some("q"), "t");
    RunOn(ROOT, ctx, 5);
    var t6 := T.Run(e, ctx, 6).value;
    ReplyStep(t6, ctx, 6, "7", "6", "b", Some("t"), "v");
    RunOn(ROOT, ctx, 6);
  }

  lemma StartRun(records: seq<Record>, ctx: T.Context)
    ensures T.Run(Plain(records), ctx, 0) == Ok(T.Start()) && Calm(T.Start(), None, None, map[], 0)
  {
  }

  lemma ChildRuns(ctx: T.Context)
    requires ctx
             == T.Context("s", None, Some(T.Delegate(WORKER, "w", "worker", false, map[])), {}, map[], ROOM - 7, ROOM)
    ensures T.Project(CHILD, ctx).Ok?
  {
    hide T.Step, T.Run, Prompting, Answering, R.HistoryRecords, IdsDiffer;
    ChildIds();
    PlainHistory(CHILD);
    var e := Plain(CHILD);
    var t0 := T.Start();
    StartRun(CHILD, ctx);
    PromptStep(t0, ctx, 0, "p", None, Some("worker"), "a");
    RunOn(CHILD, ctx, 0);
    var t1 := T.Run(e, ctx, 1).value;
    AnswerStep(t1, ctx, 1, "q", "p");
    RunOn(CHILD, ctx, 1);
    var t2 := T.Run(e, ctx, 2).value;
    PromptStep(t2, ctx, 2, "r", Some("q"), None, "c");
    RunOn(CHILD, ctx, 2);
    var t3 := T.Run(e, ctx, 3).value;
    AnswerStep(t3, ctx, 3, "t", "r");
    RunOn(CHILD, ctx, 3);
    var t4 := T.Run(e, ctx, 4).value;
    PromptStep(t4, ctx, 4, "u", Some("t"), None, "b");
    RunOn(CHILD, ctx, 4);
    var t5 := T.Run(e, ctx, 5).value;
    AnswerStep(t5, ctx, 5, "v", "u");
    RunOn(CHILD, ctx, 5);
  }

  // ---------------------------------------------------------------- the session

  const ROOT_CONTEXT := T.Context("s", None, None, {}, LINKS, ROOM, ROOM)
  const CHILD_CONTEXT :=
    T.Context("s", None, Some(T.Delegate(WORKER, "w", "worker", false, map[])), {}, map[], ROOM - 7, ROOM)

  lemma ThreadsArePlanned()
    ensures S.PlanThreads(SOURCE, FOUND, 2, ROOM, ROOM).Ok?
  {
    hide T.Project, Prompting, Calling, Replying, Answering;
    RootRuns(ROOT_CONTEXT);
    ChildRuns(CHILD_CONTEXT);
    var none := S.Planned(map[], 0, 0);
    assert S.PlanThreads(SOURCE, FOUND, 0, ROOM, ROOM) == Ok(none);
    assert S.ContextAt(SOURCE, FOUND, 0, ROOM, ROOM) == ROOT_CONTEXT;
    assert S.PlanThreads(SOURCE, FOUND, 1, ROOM, ROOM).Ok?;
    assert S.ContextAt(SOURCE, FOUND, 1, ROOM - 7, ROOM) == CHILD_CONTEXT;
  }

  lemma SourceIsAdmitted()
    ensures S.Admit(SOURCE, ROOM, ROOM).Ok? && S.Admit(SOURCE, ROOM, ROOM).value.search == FOUND
  {
    hide F.Snapshot, S.PlanThreads;
    FamilyIsFound();
    ThreadsArePlanned();
  }

  /** Call b is the second call to the child. */
  lemma SecondCall()
    ensures P.CallAt(SOURCE, FOUND, 0, 3, WORKER, 1)
  {
    hide R.HistoryRecords, IdsDiffer, T.LinkOf;
    RootIds();
    PlainHistory(ROOT);
    var e := Plain(ROOT);
    RootLinks();
    assert CallOrder(e, 0, LINKS, WORKER) == [];
    assert CallOrder(e, 1, LINKS, WORKER) == [];
    assert CallOrder(e, 2, LINKS, WORKER) == ["a"];
    assert CallOrder(e, 3, LINKS, WORKER) == ["a"];
  }

  lemma RootLinks()
    ensures T.LinkOf(LINKS, ROOT[0]) == None && T.LinkOf(LINKS, ROOT[2]) == None
    ensures T.LinkOf(LINKS, ROOT[1]) == Some(WORKER) && T.LinkOf(LINKS, ROOT[3]) == Some(WORKER)
    ensures ROOT[1].callId == "a" && ROOT[3].callId == "b"
  {
  }

  lemma ChildPrompts()
    ensures T.Prompts(Plain(CHILD), 6) == [0, 2, 4]
  {
    hide Prompting, Answering;
    ChildRows();
    var e := Plain(CHILD);
    assert T.Prompts(e, 0) == [];
    assert T.Prompts(e, 1) == [0];
    assert T.Prompts(e, 2) == [0];
    assert T.Prompts(e, 3) == [0, 2];
    assert T.Prompts(e, 4) == [0, 2];
    assert T.Prompts(e, 5) == [0, 2, 4];
  }

  /** The child's second turn starts at the prompt of call c. */
  lemma SecondTurn(t: T.Thread, e: nat, u: nat)
    requires T.Project(CHILD, S.ContextAt(SOURCE, FOUND, 1, e, u)) == Ok(t) && 1 < |t.turns|
    ensures t.turns[1] != [] && t.turns[1][0].slot == 2 && t.turns[1][0].owner == WORKER
  {
    hide T.Run, R.HistoryRecords, IdsDiffer, Prompting, Answering, T.Prompts, Flatten, FamilyOrder.EventTotal;
    var ctx, entries := S.ContextAt(SOURCE, FOUND, 1, e, u), Plain(CHILD);
    ChildIds();
    PlainHistory(CHILD);
    ChildPrompts();
    T.TurnsStartAtPrompts(entries, ctx, 6);
    T.TurnsArePrompts(entries, ctx, 6);
    T.FramesFollowRows(entries, ctx, 6);
    assert T.StartsAt(t.turns, [0, 2, 4], 1);
    var at := S.PartOfFlat(t.turns, 1, 0);
  }

  /** The failing input: in this accepted session call b is followed by the turn of call c. */
  lemma OvertakenTurnsDiffer() returns (i: nat)
    ensures S.Admit(SOURCE, ROOM, ROOM).Ok?
    ensures var a := S.Admit(SOURCE, ROOM, ROOM).value;
            && "s" in a.plans.threads && S.MemberIds(a.search) <= a.plans.threads.Keys
            && FamilyOrder.Drain(S.FamilyOf(SOURCE, a), S.FamilyOf(SOURCE, a).root, map[]).Ok?
            && i + 1 < |P.Shown(SOURCE, a)|
            && P.Shown(SOURCE, a)[i].owner == "s" && P.Shown(SOURCE, a)[i].slot == 3
            && P.Shown(SOURCE, a)[i + 1].owner == WORKER && P.Shown(SOURCE, a)[i + 1].slot == 2
    ensures ROOT[3].kind.FunctionCall? && ROOT[3].callId == "b" && CHILD[2].Says("c")
  {
    hide S.Admit, S.Admitted, F.Good, FamilyOrder.Drain, S.Planed, S.Shows, R.HistoryRecords, P.CallAt, T.Project;
    hide Prompting, Answering, Replying;
    SourceIsAdmitted();
    P.AdmittedShows(SOURCE, ROOM, ROOM);
    var a := S.Admit(SOURCE, ROOM, ROOM).value;
    SecondCall();
    i := P.PlaceOfCall(SOURCE, a, 0, 3, WORKER, 1);
    var k, m := P.TurnsFollowTheirCalls(SOURCE, ROOM, ROOM, i, WORKER);
    assert F.IdAt(SOURCE, FOUND, 1) == WORKER;
    P.SameCallNumber(SOURCE, FOUND, 0, 3, WORKER, 1, m);
    var t := a.plans.threads[WORKER];
    var e, u := PlannedThread(a);
    SecondTurn(t, e, u);
    ChildRows();
  }

  lemma PlannedThread(a: S.Session) returns (e: nat, u: nat)
    requires a.search == FOUND && S.Planed(SOURCE, FOUND, a.plans.threads, 1)
    ensures WORKER in a.plans.threads
            && T.Project(CHILD, S.ContextAt(SOURCE, FOUND, 1, e, u)) == Ok(a.plans.threads[WORKER])
  {
    hide T.Project, Prompting, Answering;
    e, u :| T.Project(S.RecordsAt(SOURCE, FOUND, 1),
                      S.ContextAt(SOURCE, FOUND, 1, e, u)) == Ok(a.plans.threads[F.IdAt(SOURCE, FOUND, 1)]);
  }
}
