/** An accepted Kimi session in which a call is followed by another call's turn: two continuations
  * of one child are open at once, and the later one is answered first. */
module KimiOvertaking {
  import opened Base
  import opened KimiRows
  import opened KimiDelegation
  import opened KimiFamily
  import opened KimiAlignment
  import opened KimiPlacement
  import T = KimiThread
  import FamilyOrder

  // ---------------------------------------------------------------- the session

  const WORKER := "agent-w"
  const PROFILE := "p"
  const USER := Origin(FromUser, 0)
  const TRIGGER := Origin(FromSubagentTrigger, 0)

  function At(r: Row): Entry {
    Entry(r, 0, true)
  }

  function Asks(id: string, origin: Origin, text: string): Row {
    Prompt(id, origin, Some([TextPart(text)]), None)
  }

  function Says(id: string, origin: Origin, text: string): Row {
    Message(Some(id), true, true, origin, Some([TextPart(text)]))
  }

  function Begins(x: string): Row {
    StepBegin(x, "t", 1)
  }

  function Ends(x: string): Row {
    StepEnd(x, "t", 1, true, None)
  }

  function ArgsOf(u: string, resume: Option<string>): AgentArgs {
    AgentArgs(u, false, resume, None, None)
  }

  function Calls(u: string, resume: Option<string>): Row {
    ToolCall(u, "s", "t", 1, u, "Agent", Some(ArgsOf(u, resume)))
  }

  const DONE := Completed(WORKER, PROFILE, Some("ok"))

  function Returns(u: string): Row {
    ToolResult(u, u, false, DONE)
  }

  /** Calls a, b and c in one step; b and c are open at the same time, and c is answered first. */
  const MAIN_LOG := [At(Metadata), At(Asks("m", USER, "go")), At(Says("m", USER, "go")), At(Begins("s")),
                     At(Calls("a", None)), At(Returns("a")), At(Calls("b", Some(WORKER))), At(Calls("c", Some(WORKER))),
                     At(Returns("c")), At(Returns("b")), At(Ends("s")), At(TurnEnded(true))]

  function Turn(x: string): (r: seq<Entry>)
    ensures |r| == 6
  {
    [At(Asks(x, TRIGGER, x)), At(Says(x, TRIGGER, x)), At(Begins(x)), At(Content(x, x, "t", 1, Some("ok"), true)),
     At(Ends(x)), At(TurnEnded(true))]
  }

  /** The child's turns a, c and b. */
  const CHILD_LOG := [At(Metadata)] + Turn("a") + Turn("c") + Turn("b")

  const AGENTS := map[WORKER := Agent(Main, PROFILE)]

  const SOURCE := Source(MAIN_LOG, [WORKER], AGENTS, map[WORKER := CHILD_LOG], false)

  lemma ChildTurns()
    ensures |CHILD_LOG| == 19 && CHILD_LOG[0] == At(Metadata)
    ensures Holds(CHILD_LOG, 1, Turn("a")) && Holds(CHILD_LOG, 7, Turn("c")) && Holds(CHILD_LOG, 13, Turn("b"))
  {
    hide Turn;
  }

  // ---------------------------------------------------------------- the main agent's calls

  function Asked(u: string, resume: Option<string>): AgentCall {
    AgentCall(u, u, ArgsOf(u, resume))
  }

  function Filing(u: string, resume: Option<string>, line: nat): Call {
    Call(u, ArgsOf(u, resume), DONE, line)
  }

  function DeskOf(pending: seq<AgentCall>, links: map<string, string>, history: seq<Call>): Desk {
    Desk(pending, links, map[], map[], map[], if history == [] then map[] else map[WORKER := history])
  }

  lemma CallingRow(d: Desk, i: nat, u: string, resume: Option<string>)
    requires CallOf(d.pending, u).None?
    ensures Step(d, AGENTS, Main, i, At(Calls(u, resume))) == Ok(d.(pending := d.pending + [Asked(u, resume)]))
  {
    hide CallOf, FindCall;
  }

  lemma ReturningRow(pending: seq<AgentCall>, links: map<string, string>, history: seq<Call>, i: nat, u: string,
                     resume: Option<string>)
    requires CallOf(pending, u) == Some(Asked(u, resume)) && u !in links
    requires if history == [] then resume.None? else resume == Some(WORKER)
    ensures Step(DeskOf(pending, links, history), AGENTS, Main, i, At(Returns(u)))
            == Ok(DeskOf(pending, links[u := WORKER], history + [Filing(u, resume, i)]))
  {
    hide CallOf, FindCall;
    var d := DeskOf(pending, links, history);
    assert History(d.calls, WORKER) == history;
    assert d.calls[WORKER := history + [Filing(u, resume, i)]] == map[WORKER := history + [Filing(u, resume, i)]];
  }

  lemma OtherRow(d: Desk, i: nat, e: Entry)
    requires !EditsHistory(e.row) && !e.row.TaskStarted? && !e.row.TaskTerminated? && !IsNotice(e.row)
             && !IsDelivery(e.row)
    requires !IsAgentCall(e.row) && !e.row.ToolResult?
    ensures forall parent :: Step(d, AGENTS, parent, i, e) == Ok(d)
  {
  }

  const PENDING := [Asked("a", None), Asked("b", Some(WORKER)), Asked("c", Some(WORKER))]
  const LINKS := map["a" := WORKER, "c" := WORKER, "b" := WORKER]
  const HISTORY := [Filing("a", None, 5), Filing("c", Some(WORKER), 8), Filing("b", Some(WORKER), 9)]

  lemma PendingFound()
    ensures CallOf([], "a").None? && CallOf([Asked("a", None)], "a") == Some(Asked("a", None))
    ensures CallOf([Asked("a", None)], "b").None? && CallOf([Asked("a", None), Asked("b", Some(WORKER))], "c").None?
    ensures CallOf(PENDING, "c") == Some(PENDING[2]) && CallOf(PENDING, "b") == Some(PENDING[1])
  {
    var a, b, c := Asked("a", None), Asked("b", Some(WORKER)), Asked("c", Some(WORKER));
    assert [] + [a] == [a] && [a] + [b] == [a, b] && [a, b] + [c] == [a, b, c];
    forall u | u in {"a", "b", "c"}
      ensures CallOf([a], u) == if u == "a" then Some(a) else None
      ensures CallOf([a, b], u) == if u == "a" then Some(a) else if u == "b" then Some(b) else None
    {
      CallOfAppend([], a, u);
      CallOfAppend([a], b, u);
    }
    CallOfAppend([a, b], c, "c");
    CallOfAppend([a, b], c, "b");
  }

  lemma MainScanStarts()
    ensures Scan(AGENTS, Main, MAIN_LOG, 8, map[]) == Ok(DeskOf(PENDING, map["a" := WORKER], [HISTORY[0]]))
  {
    hide Step, CallOf, FindCall;
    var d0 := DeskOf([], map[], []);
    PendingFound();
    forall i | 0 <= i < 4
      ensures Step(d0, AGENTS, Main, i, MAIN_LOG[i]) == Ok(d0)
    {
      OtherRow(d0, i, MAIN_LOG[i]);
    }
    assert Scan(AGENTS, Main, MAIN_LOG, 0, map[]) == Ok(d0);
    assert Scan(AGENTS, Main, MAIN_LOG, 1, map[]) == Ok(d0);
    assert Scan(AGENTS, Main, MAIN_LOG, 2, map[]) == Ok(d0);
    assert Scan(AGENTS, Main, MAIN_LOG, 3, map[]) == Ok(d0);
    assert Scan(AGENTS, Main, MAIN_LOG, 4, map[]) == Ok(d0);
    CallingRow(d0, 4, "a", None);
    var p1, p2 := [Asked("a", None)], [Asked("a", None), Asked("b", Some(WORKER))];
    assert [] + [Asked("a", None)] == p1 && p1 + [Asked("b", Some(WORKER))] == p2
           && p2 + [Asked("c", Some(WORKER))] == PENDING;
    assert Scan(AGENTS, Main, MAIN_LOG, 5, map[]) == Ok(DeskOf(p1, map[], []));
    ReturningRow(p1, map[], [], 5, "a", None);
    var links: map<string, string> := map["a" := WORKER];
    assert [] + [HISTORY[0]] == [HISTORY[0]];
    assert Scan(AGENTS, Main, MAIN_LOG, 6, map[]) == Ok(DeskOf(p1, links, [HISTORY[0]]));
    CallingRow(DeskOf(p1, links, [HISTORY[0]]), 6, "b", Some(WORKER));
    assert Scan(AGENTS, Main, MAIN_LOG, 7, map[]) == Ok(DeskOf(p2, links, [HISTORY[0]]));
    CallingRow(DeskOf(p2, links, [HISTORY[0]]), 7, "c", Some(WORKER));
  }

  lemma MainScans()
    ensures ScanParent(AGENTS, Main, MAIN_LOG, map[]) == Ok(DeskOf(PENDING, LINKS, HISTORY))
  {
    hide Step, CallOf, FindCall;
    MainScanStarts();
    PendingFound();
    var l1: map<string, string> := map["a" := WORKER];
    var l2: map<string, string> := map["a" := WORKER, "c" := WORKER];
    var h2 := [HISTORY[0], HISTORY[1]];
    ReturningRow(PENDING, l1, [HISTORY[0]], 8, "c", Some(WORKER));
    assert [HISTORY[0]] + [HISTORY[1]] == h2 && h2 + [HISTORY[2]] == HISTORY;
    assert Scan(AGENTS, Main, MAIN_LOG, 9, map[]) == Ok(DeskOf(PENDING, l2, h2));
    ReturningRow(PENDING, l2, h2, 9, "b", Some(WORKER));
    var d := DeskOf(PENDING, LINKS, HISTORY);
    assert Scan(AGENTS, Main, MAIN_LOG, 10, map[]) == Ok(d);
    OtherRow(d, 10, MAIN_LOG[10]);
    OtherRow(d, 11, MAIN_LOG[11]);
    assert Scan(AGENTS, Main, MAIN_LOG, 11, map[]) == Ok(d);
    assert Scan(AGENTS, Main, MAIN_LOG, 12, map[]) == Ok(d);
    assert LINKS.Keys == {"a", "b", "c"};
  }

  // ---------------------------------------------------------------- the child's turns

  /** Rows of a child that does not delegate. */
  predicate Plain(log: seq<Entry>) {
    forall k :: 0 <= k < |log| ==>
      var r := log[k].row;
      && !EditsHistory(r) && !r.TaskStarted? && !r.TaskTerminated? && !IsNotice(r) && !IsDelivery(r) && !r.ToolCall?
         && !r.ToolResult?
  }

  lemma {:induction false} PlainScan(parent: string, log: seq<Entry>, n: nat, calls: map<string, seq<Call>>)
    requires n <= |log| && Plain(log)
    ensures Scan(AGENTS, parent, log, n, calls) == Ok(Desk([], map[], map[], map[], map[], calls))
  {
    hide Step;
    if n > 0 {
      PlainScan(parent, log, n - 1, calls);
      OtherRow(Desk([], map[], map[], map[], map[], calls), n - 1, log[n - 1]);
    }
  }

  lemma TurnIsPlain(x: string)
    ensures Plain(Turn(x))
  {
  }

  lemma ChildIsPlain()
    ensures Plain(CHILD_LOG)
  {
    assert Plain([At(Metadata)]);
    hide Turn, Plain;
    TurnIsPlain("a");
    TurnIsPlain("c");
    TurnIsPlain("b");
    PlainJoins([At(Metadata)], Turn("a"));
    PlainJoins([At(Metadata)] + Turn("a"), Turn("c"));
    PlainJoins([At(Metadata)] + Turn("a") + Turn("c"), Turn("b"));
  }

  lemma PlainJoins(a: seq<Entry>, b: seq<Entry>)
    requires Plain(a) && Plain(b)
    ensures Plain(a + b)
  {
  }

  function Compared(m: Match, e: Entry): Result<Match> {
    MatchStep(HISTORY, map[], WORKER, PROFILE, m, e)
  }

  lemma MatchOn(log: seq<Entry>, n: nat, m: Match)
    requires n < |log| && Matched(HISTORY, map[], WORKER, PROFILE, log, n) == Ok(m)
    ensures Matched(HISTORY, map[], WORKER, PROFILE, log, n + 1) == Compared(m, log[n])
  {
    hide MatchStep;
  }

  /** Turn `k` of the child is what call `k` of the history asks for and reports. */
  lemma TurnFits(k: nat, m: Match)
    requires k < 3 && m.turn == k && !m.active
    ensures var t := Turn(HISTORY[k].uuid);
            && Compared(m, t[0]) == Compared(Match(k, true, ""), t[1]) == Compared(Match(k, true, ""), t[2])
               == Ok(Match(k, true, ""))
            && Compared(Match(k, true, ""), t[3]) == Compared(Match(k, true, "ok"), t[4]) == Ok(Match(k, true, "ok"))
            && Compared(Match(k, true, "ok"), t[5]) == Ok(Match(k + 1, false, "ok"))
  {
    assert "" + "ok" == "ok";
    assert EndFits(HISTORY[k], map[], WORKER, PROFILE, "ok", Turn(HISTORY[k].uuid)[5]);
  }

  /** The rows of a part of a log. */
  ghost predicate Holds(log: seq<Entry>, n: nat, part: seq<Entry>) {
    n + |part| <= |log| && forall j :: 0 <= j < |part| ==> log[n + j] == part[j]
  }

  lemma TurnMatches(log: seq<Entry>, n: nat, k: nat, m: Match)
    requires k < 3 && Holds(log, n, Turn(HISTORY[k].uuid))
    requires Matched(HISTORY, map[], WORKER, PROFILE, log, n) == Ok(m) && m.turn == k && !m.active
    ensures Matched(HISTORY, map[], WORKER, PROFILE, log, n + 6) == Ok(Match(k + 1, false, "ok"))
  {
    hide Matched, Compared, Turn;
    TurnFits(k, m);
    var t := Turn(HISTORY[k].uuid);
    MatchOn(log, n, m);
    assert log[n + 1] == t[1] && log[n + 2] == t[2] && log[n + 3] == t[3] && log[n + 4] == t[4] && log[n + 5] == t[5];
    MatchOn(log, n + 1, Match(k, true, ""));
    MatchOn(log, n + 2, Match(k, true, ""));
    MatchOn(log, n + 3, Match(k, true, ""));
    MatchOn(log, n + 4, Match(k, true, "ok"));
    MatchOn(log, n + 5, Match(k, true, "ok"));
  }

  lemma ChildMatches()
    ensures TurnsMatch(HISTORY, map[], WORKER, PROFILE, CHILD_LOG)
  {
    hide Turn;
    ChildTurns();
    assert Matched(HISTORY, map[], WORKER, PROFILE, CHILD_LOG, 0) == Ok(Match(0, false, ""));
    assert Matched(HISTORY, map[], WORKER, PROFILE, CHILD_LOG, 1) == Ok(Match(0, false, ""));
    hide Matched;
    TurnMatches(CHILD_LOG, 1, 0, Match(0, false, ""));
    TurnMatches(CHILD_LOG, 7, 1, Match(1, false, "ok"));
    TurnMatches(CHILD_LOG, 13, 2, Match(2, false, "ok"));
  }

  const CHILD_DESK := Desk([], map[], map[], map[], map[], map[WORKER := HISTORY])
  const FOUND := Scanned(map[Main := DeskOf(PENDING, LINKS, HISTORY), WORKER := CHILD_DESK], map[WORKER := HISTORY])

  lemma SessionDelegates()
    ensures Delegate(SOURCE) == Ok(FOUND)
  {
    hide Scan, Matched, Turn;
    MainScans();
    ChildIsPlain();
    PlainScan(WORKER, CHILD_LOG, |CHILD_LOG|, map[WORKER := HISTORY]);
    ChildMatches();
    assert Scans(SOURCE, 0) == Ok(Scanned(map[], map[]));
    assert Scans(SOURCE, 1) == Ok(Scanned(map[Main := DeskOf(PENDING, LINKS, HISTORY)], map[WORKER := HISTORY]));
    assert Scans(SOURCE, 2) == Ok(FOUND);
    assert Answered(SOURCE, FOUND, WORKER);
  }

  // ---------------------------------------------------------------- the threads

  /** A thread before row `n`, outside compactions and task rows. */
  ghost predicate Steady(t: T.Thread, ctx: T.Context, n: nat) {
    && t.compaction.None? && t.taskPrompt.None? && t.turnsForCalls != [] && t.events <= n < ctx.eventLimit
       && t.usageCount == 0
    && ctx.taskRows == map[] && !ctx.forked && ctx.callChildren == (if ctx.isChild then map[] else LINKS)
    && (forall id :: id in t.prompts <==> T.PromptKey(id) in t.keys)
       && (forall id :: id in t.messages <==> T.MessageKey(id) in t.keys)
    && (forall id :: id in t.steps <==> T.BeginKey(id) in t.keys) && forall l: nat :: T.LineKey(l) in t.keys ==> l < n
  }

  /** The row was admitted under a new key. */
  ghost predicate Moves(t: T.Thread, r: Result<T.Thread>, ctx: T.Context, n: nat, key: T.Key) {
    r.Ok? && Steady(r.value, ctx, n + 1) && r.value.keys == t.keys + {key}
  }

  lemma MetadataStep(t: T.Thread, ctx: T.Context)
    requires Steady(t, ctx, 0) && 1 < ctx.eventLimit
    ensures Moves(t, T.Step(t, ctx, 0, At(Metadata)), ctx, 0, T.LineKey(0))
    ensures var u := T.Step(t, ctx, 0, At(Metadata)).value;
            u.step == t.step && u.active == t.active && u.prompts == t.prompts && u.messages == t.messages
  {
  }

  lemma AskStep(t: T.Thread, ctx: T.Context, n: nat, x: string, origin: Origin, text: string)
    requires Steady(t, ctx, n) && 0 < n && n + 1 < ctx.eventLimit && !t.active && T.PromptKey(x) !in t.keys
    requires origin == if ctx.isChild then TRIGGER else USER
    ensures Moves(t, T.Step(t, ctx, n, At(Asks(x, origin, text))), ctx, n, T.PromptKey(x))
    ensures var u := T.Step(t, ctx, n, At(Asks(x, origin, text))).value;
            && u.step == t.step && u.messages == t.messages
            && u.prompts == t.prompts[x := T.Asked(origin, Some([TextPart(text)]))]
  {
  }

  lemma SayStep(t: T.Thread, ctx: T.Context, n: nat, x: string, origin: Origin, text: string)
    requires Steady(t, ctx, n) && 0 < n && n + 1 < ctx.eventLimit && t.step.None? && T.MessageKey(x) !in t.keys
    requires origin == (if ctx.isChild then TRIGGER else USER)
    requires x in t.prompts && t.prompts[x] == T.Asked(origin, Some([TextPart(text)]))
    ensures Moves(t, T.Step(t, ctx, n, At(Says(x, origin, text))), ctx, n, T.MessageKey(x))
    ensures var u := T.Step(t, ctx, n, At(Says(x, origin, text))).value;
            u.step == t.step && u.prompts == t.prompts && u.messages == t.messages + {x}
  {
    assert [TextPart(text)][1..] == [];
    assert |T.UserParts([TextPart(text)])| <= 1;
  }

  function Model(x: string, calls: map<string, T.ToolUse>): Option<T.ModelStep> {
    Some(T.ModelStep(x, "t", 1, None, calls))
  }

  lemma BeginStep(t: T.Thread, ctx: T.Context, n: nat, x: string)
    requires Steady(t, ctx, n) && 0 < n && n + 1 < ctx.eventLimit && t.step.None? && t.messages != {}
             && T.BeginKey(x) !in t.keys
    ensures Moves(t, T.Step(t, ctx, n, At(Begins(x))), ctx, n, T.BeginKey(x))
    ensures var u := T.Step(t, ctx, n, At(Begins(x))).value;
            u.step == Model(x, map[]) && u.prompts == t.prompts && u.messages == t.messages
  {
  }

  lemma ContentStep(t: T.Thread, ctx: T.Context, n: nat, x: string)
    requires Steady(t, ctx, n) && 0 < n && n + 1 < ctx.eventLimit && t.step == Model(x, map[])
             && T.ContentKey(x) !in t.keys
    ensures Moves(t, T.Step(t, ctx, n, At(Content(x, x, "t", 1, Some("ok"), true))), ctx, n, T.ContentKey(x))
    ensures var u := T.Step(t, ctx, n, At(Content(x, x, "t", 1, Some("ok"), true))).value;
            u.step == t.step && u.prompts == t.prompts && u.messages == t.messages
  {
  }

  lemma EndStep(t: T.Thread, ctx: T.Context, n: nat, x: string, calls: map<string, T.ToolUse>)
    requires Steady(t, ctx, n) && 0 < n && n + 1 < ctx.eventLimit && t.step == Model(x, calls) && T.EndKey(x) !in t.keys
    requires forall c :: c in calls ==> calls[c].done
    ensures Moves(t, T.Step(t, ctx, n, At(Ends(x))), ctx, n, T.EndKey(x))
    ensures var u := T.Step(t, ctx, n, At(Ends(x))).value;
            u.step.None? && u.prompts == t.prompts && u.messages == t.messages
  {
  }

  lemma TurnEndStep(t: T.Thread, ctx: T.Context, n: nat)
    requires Steady(t, ctx, n) && 0 < n && n + 1 < ctx.eventLimit && t.step.None?
    ensures Moves(t, T.Step(t, ctx, n, At(TurnEnded(true))), ctx, n, T.LineKey(n))
    ensures var u := T.Step(t, ctx, n, At(TurnEnded(true))).value;
            u.step.None? && !u.active && u.prompts == t.prompts && u.messages == t.messages
  {
  }

  lemma CallStep(t: T.Thread, ctx: T.Context, n: nat, u: string, resume: Option<string>, calls: map<string, T.ToolUse>)
    requires Steady(t, ctx, n) && 0 < n && n + 1 < ctx.eventLimit && t.step == Model("s", calls)
    requires !ctx.isChild && u in LINKS && u !in calls && T.CallKey(u) !in t.keys
    ensures Moves(t, T.Step(t, ctx, n, At(Calls(u, resume))), ctx, n, T.CallKey(u))
    ensures var v := T.Step(t, ctx, n, At(Calls(u, resume))).value;
            v.step == Model("s", calls[u := T.ToolUse(u, "Agent", false)]) && v.prompts == t.prompts
            && v.messages == t.messages
  {
  }

  lemma ReturnStep(t: T.Thread, ctx: T.Context, n: nat, u: string, calls: map<string, T.ToolUse>)
    requires Steady(t, ctx, n) && 0 < n && n + 1 < ctx.eventLimit && t.step == Model("s", calls)
    requires u in calls && calls[u] == T.ToolUse(u, "Agent", false) && T.ResultKey("s", u) !in t.keys
    ensures Moves(t, T.Step(t, ctx, n, At(Returns(u))), ctx, n, T.ResultKey("s", u))
    ensures var v := T.Step(t, ctx, n, At(Returns(u))).value;
            v.step == Model("s", calls[u := T.ToolUse(u, "Agent", true)]) && v.prompts == t.prompts
            && v.messages == t.messages
  {
  }

  lemma RunOn(log: seq<Entry>, ctx: T.Context, n: nat, t: T.Thread)
    requires n < |log| && T.Run(log, ctx, n) == Ok(t)
    ensures T.Run(log, ctx, n + 1) == T.Step(t, ctx, n, log[n])
  {
    hide T.Step;
  }

  /** Between two turns. */
  ghost predicate Rests(t: T.Thread, ctx: T.Context, n: nat) {
    Steady(t, ctx, n) && t.step.None? && !t.active && |t.messages| == |t.prompts|
  }

  /** In the model step of turn `x`. */
  ghost predicate Works(t: T.Thread, ctx: T.Context, n: nat, x: string) {
    Steady(t, ctx, n) && t.step == Model(x, map[]) && |t.messages| == |t.prompts| && t.messages != {}
  }

  /** A turn opens with its prompt, its message and its step. */
  lemma TurnOpens(log: seq<Entry>, ctx: T.Context, n: nat, x: string, origin: Origin, text: string, t: T.Thread)
    returns (next: T.Thread)
    requires 0 < n && n + 3 < ctx.eventLimit && n + 3 <= |log| && origin == (if ctx.isChild then TRIGGER else USER)
    requires log[n] == At(Asks(x, origin, text)) && log[n + 1] == At(Says(x, origin, text))
    requires exists s :: log[n + 2] == At(Begins(s)) && T.BeginKey(s) !in t.keys
    requires T.Run(log, ctx, n) == Ok(t) && Rests(t, ctx, n) && T.PromptKey(x) !in t.keys && T.MessageKey(x) !in t.keys
    ensures log[n + 2].row.StepBegin? && T.Run(log, ctx, n + 3) == Ok(next)
            && Works(next, ctx, n + 3, log[n + 2].row.uuid)
    ensures next.keys == t.keys + {T.PromptKey(x), T.MessageKey(x), T.BeginKey(log[n + 2].row.uuid)}
  {
    hide T.Step, T.Run, Steady;
    KeysTell(t, ctx, n, x);
    RunOn(log, ctx, n, t);
    AskStep(t, ctx, n, x, origin, text);
    var t1 := T.Run(log, ctx, n + 1).value;
    RunOn(log, ctx, n + 1, t1);
    SayStep(t1, ctx, n + 1, x, origin, text);
    var t2 := T.Run(log, ctx, n + 2).value;
    RunOn(log, ctx, n + 2, t2);
    assert x in t2.messages;
    BeginStep(t2, ctx, n + 2, log[n + 2].row.uuid);
    next := T.Run(log, ctx, n + 3).value;
  }

  /** A child's turn closes with its answer. */
  lemma TurnCloses(log: seq<Entry>, ctx: T.Context, n: nat, x: string, t: T.Thread) returns (next: T.Thread)
    requires 0 < n && n + 3 < ctx.eventLimit && n + 3 <= |log| && log[n] == At(Content(x, x, "t", 1, Some("ok"), true))
    requires log[n + 1] == At(Ends(x)) && log[n + 2] == At(TurnEnded(true))
    requires T.Run(log, ctx, n) == Ok(t) && Works(t, ctx, n, x) && T.ContentKey(x) !in t.keys && T.EndKey(x) !in t.keys
    ensures T.Run(log, ctx, n + 3) == Ok(next) && Rests(next, ctx, n + 3) && next.messages != {}
    ensures next.keys == t.keys + {T.ContentKey(x), T.EndKey(x), T.LineKey(n + 2)}
  {
    hide T.Step, T.Run, Steady;
    RunOn(log, ctx, n, t);
    ContentStep(t, ctx, n, x);
    var t1 := T.Run(log, ctx, n + 1).value;
    RunOn(log, ctx, n + 1, t1);
    EndStep(t1, ctx, n + 1, x, map[]);
    var t2 := T.Run(log, ctx, n + 2).value;
    RunOn(log, ctx, n + 2, t2);
    TurnEndStep(t2, ctx, n + 2);
    next := T.Run(log, ctx, n + 3).value;
  }

  /** The child has not used these names. */
  ghost predicate Unused(t: T.Thread, names: set<string>) {
    forall x :: x in names ==> T.PromptKey(x) !in t.keys && T.MessageKey(x) !in t.keys && T.BeginKey(x) !in t.keys
                               && T.ContentKey(x) !in t.keys && T.EndKey(x) !in t.keys
  }

  /** One turn of the child. */
  lemma TurnRuns(log: seq<Entry>, ctx: T.Context, n: nat, x: string, names: set<string>, t: T.Thread)
    returns (next: T.Thread)
    requires 0 < n && Holds(log, n, Turn(x)) && n + 6 < ctx.eventLimit && ctx.isChild && x in names
    requires T.Run(log, ctx, n) == Ok(t) && Rests(t, ctx, n) && Unused(t, names)
    ensures T.Run(log, ctx, n + 6) == Ok(next) && Rests(next, ctx, n + 6) && Unused(next, names - {x})
            && next.messages != {}
  {
    hide T.Step, T.Run, Steady, Rests, Works;
    var r := Turn(x);
    assert log[n] == r[0] && log[n + 1] == r[1] && log[n + 2] == r[2] && log[n + 3] == r[3] && log[n + 4] == r[4]
           && log[n + 5] == r[5];
    var open := TurnOpens(log, ctx, n, x, TRIGGER, x, t);
    next := TurnCloses(log, ctx, n + 3, x, open);
  }

  lemma KeysTell(t: T.Thread, ctx: T.Context, n: nat, x: string)
    requires Steady(t, ctx, n) && T.PromptKey(x) !in t.keys && T.MessageKey(x) !in t.keys
    ensures x !in t.prompts && x !in t.messages
  {
  }

  lemma StartsSteady(ctx: T.Context)
    requires 1 < ctx.eventLimit && ctx.taskRows == map[] && !ctx.forked
             && ctx.callChildren == if ctx.isChild then map[] else LINKS
    ensures T.Start(ctx).Ok? && Rests(T.Start(ctx).value, ctx, 0)
    ensures T.Start(ctx).value.keys == if ctx.isChild then {} else {T.StateKey}
    ensures T.Start(ctx).value.prompts == map[] && T.Start(ctx).value.messages == {}
  {
  }

  /** The first row of a thread. */
  lemma FirstRow(log: seq<Entry>, ctx: T.Context) returns (t: T.Thread)
    requires 1 < ctx.eventLimit && ctx.taskRows == map[] && !ctx.forked
             && ctx.callChildren == if ctx.isChild then map[] else LINKS
    requires log != [] && log[0] == At(Metadata)
    ensures T.Run(log, ctx, 1) == Ok(t) && Rests(t, ctx, 1)
            && t.keys == (if ctx.isChild then {} else {T.StateKey}) + {T.LineKey(0)}
  {
    hide T.Step, Steady, T.Start;
    StartsSteady(ctx);
    var t0 := T.Start(ctx).value;
    assert T.Run(log, ctx, 0) == Ok(t0);
    MetadataStep(t0, ctx);
    RunOn(log, ctx, 0, t0);
    t := T.Run(log, ctx, 1).value;
  }

  lemma ChildIsAccepted(ctx: T.Context)
    requires 20 < ctx.eventLimit && ctx.isChild && ctx.taskRows == map[] && !ctx.forked && ctx.callChildren == map[]
    ensures T.Accepted(CHILD_LOG, ctx)
  {
    hide T.Step, T.Run, Steady, Turn, Holds;
    ChildTurns();
    var names := {"a", "b", "c"};
    var t := FirstRow(CHILD_LOG, ctx);
    var a := TurnRuns(CHILD_LOG, ctx, 1, "a", names, t);
    var c := TurnRuns(CHILD_LOG, ctx, 7, "c", names - {"a"}, a);
    var b := TurnRuns(CHILD_LOG, ctx, 13, "b", names - {"a"} - {"c"}, c);
    AtRest(b, ctx, 19);
  }

  lemma AtRest(t: T.Thread, ctx: T.Context, n: nat)
    requires Steady(t, ctx, n)
    ensures t.compaction.None? && t.taskPrompt.None? && t.events <= n && t.usageCount == 0
  {
  }

  function Use(u: string, done: bool): T.ToolUse {
    T.ToolUse(u, "Agent", done)
  }

  /** In the main agent's step, with these calls made and answered since `start`. */
  ghost predicate Busy(t: T.Thread, ctx: T.Context, n: nat, start: T.Thread, calls: map<string, T.ToolUse>) {
    && Steady(t, ctx, n) && t.step == Model("s", calls) && t.messages == start.messages && t.prompts == start.prompts
    && (forall key :: key in start.keys ==> !key.CallKey? && !key.ResultKey? && !key.EndKey?)
    && forall key :: key in t.keys ==>
         || key in start.keys || (key.CallKey? && key.uuid in calls)
         || (key.ResultKey? && key.callId in calls && calls[key.callId].done)
  }

  lemma CallRuns(ctx: T.Context, n: nat, start: T.Thread, calls: map<string, T.ToolUse>, u: string,
                 resume: Option<string>, t: T.Thread)
    returns (next: T.Thread)
    requires 0 < n < |MAIN_LOG| && n + 1 < ctx.eventLimit && !ctx.isChild && MAIN_LOG[n] == At(Calls(u, resume))
    requires T.Run(MAIN_LOG, ctx, n) == Ok(t) && Busy(t, ctx, n, start, calls) && u in LINKS && u !in calls
    ensures T.Run(MAIN_LOG, ctx, n + 1) == Ok(next) && Busy(next, ctx, n + 1, start, calls[u := Use(u, false)])
  {
    hide T.Step, T.Run, Steady;
    RunOn(MAIN_LOG, ctx, n, t);
    CallStep(t, ctx, n, u, resume, calls);
    next := T.Run(MAIN_LOG, ctx, n + 1).value;
  }

  lemma ReturnRuns(ctx: T.Context, n: nat, start: T.Thread, calls: map<string, T.ToolUse>, u: string, t: T.Thread)
    returns (next: T.Thread)
    requires 0 < n < |MAIN_LOG| && n + 1 < ctx.eventLimit && !ctx.isChild && MAIN_LOG[n] == At(Returns(u))
    requires T.Run(MAIN_LOG, ctx, n) == Ok(t) && Busy(t, ctx, n, start, calls) && u in calls
             && calls[u] == Use(u, false)
    ensures T.Run(MAIN_LOG, ctx, n + 1) == Ok(next) && Busy(next, ctx, n + 1, start, calls[u := Use(u, true)])
  {
    hide T.Step, T.Run, Steady;
    RunOn(MAIN_LOG, ctx, n, t);
    ReturnStep(t, ctx, n, u, calls);
    next := T.Run(MAIN_LOG, ctx, n + 1).value;
  }

  /** The calls and their receipts. */
  lemma MainCalls(ctx: T.Context, start: T.Thread) returns (t: T.Thread, calls: map<string, T.ToolUse>)
    requires 13 < ctx.eventLimit && !ctx.isChild && T.Run(MAIN_LOG, ctx, 4) == Ok(start)
             && Busy(start, ctx, 4, start, map[])
    ensures T.Run(MAIN_LOG, ctx, 10) == Ok(t) && Busy(t, ctx, 10, start, calls)
    ensures forall u :: u in calls ==> calls[u].done
  {
    hide T.Run, Busy, Calls, Returns;
    var t5 := CallRuns(ctx, 4, start, map[], "a", None, start);
    var c1 := map["a" := Use("a", true)];
    var t6 := ReturnRuns(ctx, 5, start, map["a" := Use("a", false)], "a", t5);
    assert map["a" := Use("a", false)]["a" := Use("a", true)] == c1;
    var t7 := CallRuns(ctx, 6, start, c1, "b", Some(WORKER), t6);
    var c2 := c1["b" := Use("b", false)];
    var t8 := CallRuns(ctx, 7, start, c2, "c", Some(WORKER), t7);
    var c3 := c2["c" := Use("c", false)];
    var t9 := ReturnRuns(ctx, 8, start, c3, "c", t8);
    var c4 := c3["c" := Use("c", true)];
    t := ReturnRuns(ctx, 9, start, c4, "b", t9);
    calls := c4["b" := Use("b", true)];
  }

  lemma MainIsAccepted(ctx: T.Context)
    requires 13 < ctx.eventLimit && !ctx.isChild && ctx.taskRows == map[] && !ctx.forked && ctx.callChildren == LINKS
    ensures T.Accepted(MAIN_LOG, ctx)
    ensures var t := T.Run(MAIN_LOG, ctx, |MAIN_LOG|).value; t.events <= 12 && t.usageCount == 0
  {
    hide T.Step, T.Run, Steady;
    var t1 := FirstRow(MAIN_LOG, ctx);
    var t4 := TurnOpens(MAIN_LOG, ctx, 1, "m", USER, "go", t1);
    var t10, calls := MainCalls(ctx, t4);
    RunOn(MAIN_LOG, ctx, 10, t10);
    EndStep(t10, ctx, 10, "s", calls);
    var t11 := T.Run(MAIN_LOG, ctx, 11).value;
    RunOn(MAIN_LOG, ctx, 11, t11);
    TurnEndStep(t11, ctx, 11);
    AtRest(T.Run(MAIN_LOG, ctx, 12).value, ctx, 12);
  }

  const ROOM := 100

  lemma SessionIsAdmitted()
    ensures Named(SOURCE) && Admitted(SOURCE, ROOM, ROOM) && Rooted(AGENTS, map[Main := 0, WORKER := 1])
  {
    hide T.Accepted, T.Run, Turn, Delegate;
    SessionDelegates();
    var main := ContextOf(SOURCE, FOUND, Main, ROOM, ROOM);
    MainIsAccepted(main);
    assert PlanThreads(SOURCE, FOUND, 0, ROOM, ROOM) == Ok(Planned(map[], 0, 0));
    assert PlanThreads(SOURCE, FOUND, 1, ROOM, ROOM).Ok?;
    var events := PlanThreads(SOURCE, FOUND, 1, ROOM, ROOM).value.events;
    var child := ContextOf(SOURCE, FOUND, WORKER, Left(ROOM, events), ROOM);
    ChildIsAccepted(child);
    assert PlanThreads(SOURCE, FOUND, 2, ROOM, ROOM).Ok?;
  }

  /** Call b is the second call to the child. */
  lemma SecondCall()
    ensures CallAt(SOURCE, FOUND, Main, 6, WORKER, 1)
  {
    assert CallOrder(MAIN_LOG, 4, LINKS, WORKER) == [] by {
      assert CallOrder(MAIN_LOG, 1, LINKS, WORKER) == [];
      assert CallOrder(MAIN_LOG, 2, LINKS, WORKER) == [];
      assert CallOrder(MAIN_LOG, 3, LINKS, WORKER) == [];
    }
    assert CallOrder(MAIN_LOG, 5, LINKS, WORKER) == ["a"];
    assert CallOrder(MAIN_LOG, 6, LINKS, WORKER) == ["a"];
  }

  /** The failing input: in this accepted session call b is followed by the turn of call c. */
  lemma OvertakenTurnsDiffer() returns (i: nat)
    ensures Named(SOURCE) && Admitted(SOURCE, ROOM, ROOM) && Calling(SOURCE, ROOM, ROOM, i, WORKER)
    ensures TurnShown(SOURCE, ROOM, ROOM, i, WORKER, 6, 1) && Shown(SOURCE, ROOM, ROOM).value.0[i].owner == Main
    ensures MAIN_LOG[6] == At(Calls("b", Some(WORKER)))
    ensures Delegate(SOURCE).Ok? && History(Delegate(SOURCE).value.calls, WORKER)[1].uuid == "c"
  {
    hide Delegate, Admitted, FamilyOrder.Drain, Turn, Rooted, CallAt, PlanThreads;
    SessionIsAdmitted();
    SessionDelegates();
    SecondCall();
    assert SOURCE.agents == AGENTS && WORKER in AGENTS;
    var depth := map[Main := 0, WORKER := 1];
    i := PlaceOfCall(SOURCE, ROOM, ROOM, depth, Main, 6, WORKER, 1);
    var p, m := TurnsFollowTheirCalls(SOURCE, ROOM, ROOM, depth, i, WORKER);
    SameCall(SOURCE, FOUND, Main, 6, WORKER, 1, m);
  }
}
