/** Turns and calls in the interleaved Kimi session: which turn stands behind which call. */
module KimiPlacement {
  import opened Base
  import opened Orders
  import opened KimiRows
  import opened KimiDelegation
  import opened KimiFamily
  import opened KimiAlignment
  import KimiCalls
  import KimiThread
  import KimiTurns
  import FamilyOrder

  // ---------------------------------------------------------------- the calls to one child come from one log

  lemma {:induction false} OthersKeepHistory(agents: map<string, Agent>, parent: string, log: seq<Entry>, n: nat,
                                             calls: map<string, seq<Call>>, c: string)
    requires n <= |log| && Scan(agents, parent, log, n, calls).Ok? && c in agents && agents[c].parent != parent
    ensures History(Scan(agents, parent, log, n, calls).value.calls, c) == History(calls, c)
  {
    hide Step;
    if n > 0 {
      OthersKeepHistory(agents, parent, log, n - 1, calls, c);
      StepLinks(Scan(agents, parent, log, n - 1, calls).value, agents, parent, n - 1, log[n - 1]);
    }
  }

  ghost predicate ScannedFrom(src: Source, id: string, calls: map<string, seq<Call>>, d: Desk) {
    ScanParent(src.agents, id, LogOf(src, id), calls) == Ok(d)
  }

  /** The history of `c` was filed by its labelled parent alone, starting from nothing. */
  ghost predicate Filed(src: Source, s: Scanned, c: string)
    requires c in src.agents
  {
    var q := src.agents[c].parent;
    if q in s.desks then
      && History(s.calls, c) == History(s.desks[q].calls, c)
      && exists calls :: History(calls, c) == [] && ScannedFrom(src, q, calls, s.desks[q])
    else History(s.calls, c) == []
  }

  lemma {:induction false} HistoryIsFiled(src: Source, k: nat, c: string)
    requires Named(src) && k <= |src.names| + 1 && Scans(src, k).Ok? && c in src.agents
    ensures Filed(src, Scans(src, k).value, c)
  {
    hide ScanParent, DeskOk, Named, CallsKnown;
    if k > 0 {
      HistoryIsFiled(src, k - 1, c);
      ScansKnow(src, k - 1);
      var before, after, id := Scans(src, k - 1).value, Scans(src, k).value, Id(src, k - 1);
      if id in before.desks {
        var j :| 0 <= j < k - 1 && id == Id(src, j);
        IdsDiffer(src, j, k - 1);
      }
      assert ScannedFrom(src, id, before.calls, after.desks[id]);
      if src.agents[c].parent != id {
        KeptByOthers(src, id, before.calls, c);
      }
    }
  }

  lemma KeptByOthers(src: Source, id: string, calls: map<string, seq<Call>>, c: string)
    requires ScanParent(src.agents, id, LogOf(src, id), calls).Ok? && c in src.agents && src.agents[c].parent != id
    ensures History(ScanParent(src.agents, id, LogOf(src, id), calls).value.calls, c) == History(calls, c)
  {
    hide Scan;
    OthersKeepHistory(src.agents, id, LogOf(src, id), |LogOf(src, id)|, calls, c);
  }

  // ---------------------------------------------------------------- frames follow rows

  /** The main thread shows its session state before its first row. */
  function Lead(ctx: KimiThread.Context): nat {
    if ctx.isChild then 0 else 1
  }

  lemma {:induction false} FramesFollowRows(log: seq<Entry>, ctx: KimiThread.Context, m: nat, n: nat)
    requires m <= n <= |log| && KimiThread.Run(log, ctx, n).Ok? && KimiCalls.NoUndo(log, n)
    ensures KimiThread.Run(log, ctx, m).Ok?
    ensures |KimiThread.Run(log, ctx, m).value.frames| == m + Lead(ctx)
    ensures KimiThread.Run(log, ctx, m).value.frames <= KimiThread.Run(log, ctx, n).value.frames
    decreases n
  {
    hide KimiThread.Step, KimiCalls.TurnsAt, KimiTurns.Opens;
    if m < n {
      KimiTurns.RunStep(log, ctx, n);
      FramesFollowRows(log, ctx, m, n - 1);
      KimiCalls.StepAdvances(KimiThread.Run(log, ctx, n - 1).value, ctx, n - 1, log[n - 1]);
    } else if n > 0 {
      KimiTurns.RunStep(log, ctx, n);
      FramesFollowRows(log, ctx, n - 1, n - 1);
      KimiCalls.StepAdvances(KimiThread.Run(log, ctx, n - 1).value, ctx, n - 1, log[n - 1]);
    }
  }

  /** Row `p` has its frame, which links as the row does. */
  lemma FrameOfRow(log: seq<Entry>, ctx: KimiThread.Context, p: nat)
    requires p < |log| && KimiThread.Run(log, ctx, |log|).Ok? && KimiCalls.NoUndo(log, |log|)
    ensures var frames := KimiThread.Run(log, ctx, |log|).value.frames;
            && |frames| == |log| + Lead(ctx)
            && FamilyOrder.FirstLink(frames[p + Lead(ctx)].events) == KimiCalls.LinkOf(ctx.callChildren, log[p].row)
  {
    hide KimiThread.Step, KimiCalls.TurnsAt, KimiTurns.Opens, KimiCalls.LinkOf, KimiCalls.Added, FamilyOrder.FirstLink;
    FramesFollowRows(log, ctx, |log|, |log|);
    FramesFollowRows(log, ctx, p + 1, |log|);
    FramesFollowRows(log, ctx, p, |log|);
    KimiTurns.RunStep(log, ctx, p + 1);
    var t := KimiThread.Run(log, ctx, p).value;
    KimiCalls.StepAdvances(t, ctx, p, log[p]);
    KimiCalls.AddedLinks(t, ctx, p, log[p]);
  }

  lemma LeadCallsNobody(log: seq<Entry>, ctx: KimiThread.Context, owner: string, c: string)
    requires KimiThread.Run(log, ctx, |log|).Ok? && KimiCalls.NoUndo(log, |log|)
    ensures var frames := KimiThread.Run(log, ctx, |log|).value.frames;
            && Lead(ctx) <= |frames|
            && FamilyOrder.CallCount(KimiCalls.Tag(owner, 0, frames)[..Lead(ctx)], c) == 0
            && (Lead(ctx) == 1 ==> FamilyOrder.Link(KimiCalls.Tag(owner, 0, frames)[0]) == None)
  {
    hide KimiThread.Step;
    FramesFollowRows(log, ctx, 0, |log|);
    var frames := KimiThread.Run(log, ctx, |log|).value.frames;
    if !ctx.isChild {
      assert frames[0].events == [];
      var f := KimiCalls.Tag(owner, 0, frames)[0];
      assert KimiCalls.Tag(owner, 0, frames)[..1] == [] + [f];
      FamilyOrder.CallCountSnoc([], f, c);
    }
  }

  /** The frames that call `c` before row `p`'s are the calls to `c` before row `p`. */
  lemma {:induction false} CallsBefore(log: seq<Entry>, ctx: KimiThread.Context, owner: string, p: nat, c: string)
    requires p <= |log| && KimiThread.Run(log, ctx, |log|).Ok? && KimiCalls.NoUndo(log, |log|)
    ensures var frames := KimiThread.Run(log, ctx, |log|).value.frames;
            && |frames| == |log| + Lead(ctx)
            && FamilyOrder.CallCount(KimiCalls.Tag(owner, 0, frames)[..p + Lead(ctx)], c)
               == |CallOrder(log, p, ctx.callChildren, c)|
  {
    hide KimiThread.Run, KimiCalls.LinkOf, FamilyOrder.FirstLink, FamilyOrder.CallCount;
    FramesFollowRows(log, ctx, |log|, |log|);
    if p == 0 {
      LeadCallsNobody(log, ctx, owner, c);
    } else {
      CallsBefore(log, ctx, owner, p - 1, c);
      FrameOfRow(log, ctx, p - 1);
      var tagged := KimiCalls.Tag(owner, 0, KimiThread.Run(log, ctx, |log|).value.frames);
      var at := p - 1 + Lead(ctx);
      assert tagged[..at + 1] == tagged[..at] + [tagged[at]];
      FamilyOrder.CallCountSnoc(tagged[..at], tagged[at], c);
    }
  }

  // ---------------------------------------------------------------- no turn is empty

  ghost predicate Filled(t: KimiThread.Thread) {
    t.frames != [] && forall k :: 0 <= k < |t.turnsForCalls| ==> t.turnsForCalls[k] != []
  }

  lemma FilledStep(t: KimiThread.Thread, next: KimiThread.Thread, ctx: KimiThread.Context, i: nat, r: Row,
                   f: KimiThread.Frame)
    requires KimiCalls.Advances(t, next, ctx, i, r, f) && (Filled(t) || |KimiCalls.TurnsAt(t, ctx, i, r)| == 1)
    ensures Filled(next)
  {
    hide KimiTurns.Opens;
    var turns := KimiCalls.TurnsAt(t, ctx, i, r);
    forall k | 0 <= k < |next.turnsForCalls|
      ensures next.turnsForCalls[k] != []
    {
      if k < |turns| - 1 {
        assert next.turnsForCalls[k] == t.turnsForCalls[k];
      }
    }
  }

  lemma {:induction false} TurnsAreFilled(log: seq<Entry>, ctx: KimiThread.Context, n: nat)
    requires 0 < n <= |log| && KimiThread.Run(log, ctx, n).Ok? && KimiCalls.NoUndo(log, n)
    ensures Filled(KimiThread.Run(log, ctx, n).value)
  {
    hide KimiThread.Step, KimiCalls.Advances, Filled;
    KimiTurns.RunStep(log, ctx, n);
    var t := KimiThread.Run(log, ctx, n - 1).value;
    KimiCalls.StepAdvances(t, ctx, n - 1, log[n - 1]);
    if n > 1 {
      TurnsAreFilled(log, ctx, n - 1);
    }
    FilledStep(t, KimiThread.Run(log, ctx, n).value, ctx, n - 1, log[n - 1].row,
               KimiCalls.Added(t, ctx, n - 1, log[n - 1]));
  }

  lemma {:induction false} TaggedTurn(owner: string, from: nat, turns: seq<seq<KimiThread.Frame>>, k: nat)
    requires k < |turns|
    ensures |KimiCalls.TagTurns(owner, from, turns)[k]| == |turns[k]|
    decreases |turns|
  {
    if k > 0 {
      TaggedTurn(owner, from + |turns[0]|, turns[1..], k - 1);
    }
  }

  // ---------------------------------------------------------------- calls in the session

  function LeadOf(id: string): nat {
    if id == Main then 1 else 0
  }

  /** Row `p` of thread `id` is its call number `m` to `c`. */
  ghost predicate CallAt(src: Source, s: Scanned, id: string, p: nat, c: string, m: nat) {
    && id in s.desks && p < |LogOf(src, id)|
    && KimiCalls.LinkOf(s.desks[id].links, LogOf(src, id)[p].row) == Some(c)
    && m == |CallOrder(LogOf(src, id), p, s.desks[id].links, c)| < |History(s.calls, c)|
  }

  /** As many calls to `c` have their receipts before this one as are made before it. */
  ghost predicate Keeps(src: Source, s: Scanned, id: string, p: nat, c: string, m: nat)
    requires CallAt(src, s, id, p, c, m)
  {
    |EarlierReplies(LogOf(src, id), s.desks[id].links, c, LogOf(src, id)[p].row.uuid)| == m
  }

  lemma SameCall(src: Source, s: Scanned, id: string, p: nat, c: string, x: nat, m: nat)
    requires CallAt(src, s, id, p, c, x) && CallAt(src, s, id, p, c, m)
    ensures x == m
  {
  }

  /** The child's labelled parent, and what was on record when its log was scanned. */
  lemma ParentScan(src: Source, c: string) returns (calls: map<string, seq<Call>>)
    requires Named(src) && Delegate(src).Ok? && c in src.agents
    ensures var s, q := Delegate(src).value, src.agents[c].parent;
            && q in s.desks && History(calls, c) == [] && ScannedFrom(src, q, calls, s.desks[q])
            && History(s.calls, c) == History(s.desks[q].calls, c)
            && |History(s.calls, c)| == |KeysTo(s.desks[q].links, c)|
  {
    hide Scans, Answered, ScannedFrom, KeysTo;
    ChildrenCalled(src, c);
    HistoryIsFiled(src, |src.names| + 1, c);
    var s, q := Delegate(src).value, src.agents[c].parent;
    calls :| History(calls, c) == [] && ScannedFrom(src, q, calls, s.desks[q]);
  }

  lemma LinkedByParent(src: Source, id: string, c: string, u: string)
    requires Named(src) && Delegate(src).Ok? && id in Delegate(src).value.desks
    requires u in Delegate(src).value.desks[id].links && Delegate(src).value.desks[id].links[u] == c
    ensures c in src.agents && src.agents[c].parent == id
  {
    hide Scans, Answered, AgentCalled;
    ScansKnow(src, |src.names| + 1);
    var d := Delegate(src).value.desks[id];
    assert DeskOk(src, id, d);
    assert c in d.links.Values;
  }

  /** The `m`-th answered call is the `m`-th call row exactly when `m` receipts come before its own. */
  lemma CallIsAnswered(src: Source, id: string, p: nat, c: string, m: nat)
    requires Named(src) && Delegate(src).Ok? && CallAt(src, Delegate(src).value, id, p, c, m)
    ensures var s := Delegate(src).value;
            History(s.calls, c)[m].uuid == LogOf(src, id)[p].row.uuid <==> Keeps(src, s, id, p, c, m)
  {
    hide Delegate, Scan, CallOrder, EarlierReplies;
    var s, u := Delegate(src).value, LogOf(src, id)[p].row.uuid;
    LinkedByParent(src, id, c, u);
    var calls := ParentScan(src, c);
    OneTurnMeets(src.agents, id, LogOf(src, id), calls, c, u, m);
  }

  lemma {:induction false} CallOrderAt(log: seq<Entry>, n: nat, links: map<string, string>, c: string, p: nat)
    requires p < n <= |log| && KimiCalls.LinkOf(links, log[p].row) == Some(c)
    ensures |CallOrder(log, p, links, c)| < |CallOrder(log, n, links, c)|
  {
    if p < n - 1 {
      CallOrderAt(log, n - 1, links, c, p);
    }
  }

  /** The `x`-th call to a child has its row. */
  lemma {:induction false} CallOrderRows(log: seq<Entry>, n: nat, links: map<string, string>, c: string, x: nat)
    returns (p: nat)
    requires n <= |log| && x < |CallOrder(log, n, links, c)|
    ensures p < n && KimiCalls.LinkOf(links, log[p].row) == Some(c) && log[p].row.uuid == CallOrder(log, n, links, c)[x]
    ensures x == |CallOrder(log, p, links, c)|
  {
    if x < |CallOrder(log, n - 1, links, c)| {
      p := CallOrderRows(log, n - 1, links, c, x);
    } else {
      p := n - 1;
    }
  }

  /** A planned thread of the session and its rows. */
  ghost predicate ThreadPlanned(src: Source, s: Scanned, id: string, plan: Plan) {
    && PlanOk(src, s, id, plan) && ThreadFits(src, s, id, plan.thread)
    && KimiCalls.NoUndo(LogOf(src, id), |LogOf(src, id)|)
  }

  lemma ThreadIsPlanned(src: Source, events: nat, usage: nat, id: string)
    requires Named(src) && src.agents != map[] && Admitted(src, events, usage) && (id == Main || id in src.agents)
    ensures id in PlansOf(src, events, usage).plans
    ensures ThreadPlanned(src, Delegate(src).value, id, PlansOf(src, events, usage).plans[id])
  {
    hide Delegate, PlanThreads, DeskOk, ThreadFits, PlanOk;
    var s := Delegate(src).value;
    AllFit(src, events, usage, id);
    PlansOk(src, s, |src.names| + 1, events, usage);
    ThreadIsCut(src, s, id, PlansOf(src, events, usage).plans[id]);
  }

  /** All calls of a thread to one child. */
  lemma CallsInAll(src: Source, s: Scanned, id: string, plan: Plan, c: string)
    requires ThreadPlanned(src, s, id, plan) && c in src.agents
    ensures |CallOrder(LogOf(src, id), |LogOf(src, id)|, s.desks[id].links, c)| == |KeysTo(s.desks[id].links, c)|
  {
    hide KimiThread.Run, FamilyOrder.CallCount, KeysTo, KimiCalls.LinksKnown, Flatten, History, CallOrder;
    var log := LogOf(src, id);
    CallsBefore(log, plan.ctx, id, |log|, c);
    var tagged := KimiCalls.Tag(id, 0, plan.thread.frames);
    assert tagged[..|tagged|] == tagged;
  }

  /** A frame that calls `c` is its row's call. */
  lemma CallFrameStands(src: Source, events: nat, usage: nat, id: string, at: nat, c: string)
    requires Named(src) && src.agents != map[] && Admitted(src, events, usage) && (id == Main || id in src.agents)
    requires id in PlansOf(src, events, usage).plans && at < |PlansOf(src, events, usage).plans[id].thread.frames|
    requires FamilyOrder.FirstLink(PlansOf(src, events, usage).plans[id].thread.frames[at].events) == Some(c)
    ensures LeadOf(id) <= at
    ensures var tagged := KimiCalls.Tag(id, 0, PlansOf(src, events, usage).plans[id].thread.frames);
            CallAt(src, Delegate(src).value, id, at - LeadOf(id), c, FamilyOrder.CallCount(tagged[..at], c))
  {
    hide Delegate, PlanThreads, KimiThread.Run, FamilyOrder.CallCount, FamilyOrder.FirstLink, KeysTo,
         KimiCalls.LinksKnown, Flatten, History;
    hide CallOrder;
    var s, plan, log := Delegate(src).value, PlansOf(src, events, usage).plans[id], LogOf(src, id);
    ThreadIsPlanned(src, events, usage, id);
    LeadCallsNobody(log, plan.ctx, id, c);
    CallsBefore(log, plan.ctx, id, |log|, c);
    var p := at - LeadOf(id);
    FrameOfRow(log, plan.ctx, p);
    CallsBefore(log, plan.ctx, id, p, c);
    CallOrderAt(log, |log|, plan.ctx.callChildren, c, p);
    LinkedByParent(src, id, c, log[p].row.uuid);
    ChildrenCalled(src, c);
    CallsInAll(src, s, id, plan, c);
  }

  lemma TurnIsFilled(src: Source, events: nat, usage: nat, c: string, m: nat)
    requires Named(src) && src.agents != map[] && Admitted(src, events, usage) && c in src.agents
    requires c in PlansOf(src, events, usage).plans && m < |PlansOf(src, events, usage).plans[c].thread.turnsForCalls|
    ensures KimiCalls.TagTurns(c, 0, PlansOf(src, events, usage).plans[c].thread.turnsForCalls)[m] != []
  {
    hide Delegate, PlanThreads, KimiThread.Run, FamilyOrder.CallCount, KeysTo, KimiCalls.LinksKnown, Flatten, History;
    var plan, log := PlansOf(src, events, usage).plans[c], LogOf(src, c);
    ThreadIsPlanned(src, events, usage, c);
    TurnsAreFilled(log, plan.ctx, |log|);
    TaggedTurn(c, 0, plan.thread.turnsForCalls, m);
  }

  // ---------------------------------------------------------------- turns in the session

  /** The session as the interleaving shows it. */
  ghost function Shown(src: Source, events: nat, usage: nat): Result<(seq<FamilyOrder.Frame>, FamilyOrder.Cursors)>
    requires Admitted(src, events, usage)
    requires var p := PlansOf(src, events, usage); Main in p.plans && src.agents.Keys <= p.plans.Keys
  {
    var fam := FamilyOf(src, PlansOf(src, events, usage));
    FamilyOrder.Drain(fam, fam.root, map[])
  }

  /** The session is interleaved, and frame `i` of it calls `c`. */
  ghost predicate Calling(src: Source, events: nat, usage: nat, i: nat, c: string) {
    && Admitted(src, events, usage)
    && (var p := PlansOf(src, events, usage); Main in p.plans && src.agents.Keys <= p.plans.Keys)
    && Shown(src, events, usage).Ok? && i < |Shown(src, events, usage).value.0|
    && FamilyOrder.Link(Shown(src, events, usage).value.0[i]) == Some(c)
  }

  /** Frame `i` stands for row `p` of its thread, its call number `m` to `c`, and behind it stands the
    * first frame of the child's turn `m`. */
  ghost predicate TurnShown(src: Source, events: nat, usage: nat, i: nat, c: string, p: nat, m: nat)
    requires Calling(src, events, usage, i, c)
  {
    var out, turns := Shown(src, events, usage).value.0, FamilyOf(src, PlansOf(src, events, usage)).turns;
    && out[i].slot == p + LeadOf(out[i].owner) && CallAt(src, Delegate(src).value, out[i].owner, p, c, m)
    && c in turns && m < |turns[c]| && turns[c][m] != [] && i + 1 < |out| && out[i + 1] == turns[c][m][0]
  }

  /** What a thread shows in the session. */
  ghost predicate ThreadShown(src: Source, events: nat, usage: nat, out: seq<FamilyOrder.Frame>, id: string)
    requires Admitted(src, events, usage)
  {
    id in PlansOf(src, events, usage).plans
    && FamilyOrder.OwnFrames(out, id) == KimiCalls.Tag(id, 0, PlansOf(src, events, usage).plans[id].thread.frames)
  }

  lemma CallIsPlaced(src: Source, events: nat, usage: nat, depth: map<string, nat>, i: nat, c: string)
    returns (p: nat, m: nat)
    requires Named(src) && src.agents != map[] && Rooted(src.agents, depth) && Calling(src, events, usage, i, c)
    ensures var out := Shown(src, events, usage).value.0;
            && m == FamilyOrder.CallCount(out[..i], c) && out[i].slot == p + LeadOf(out[i].owner)
            && CallAt(src, Delegate(src).value, out[i].owner, p, c, m)
  {
    hide Delegate, PlanThreads, FamilyOrder.Drain, FamilyOrder.Splice, FamilyOrder.Tree, FamilyOrder.OwnFrames,
         FamilyOrder.FirstLink, CallAt;
    hide FamilyOrder.CallCount, FamilyOrder.AllProper, Below, KimiCalls.TagTurns;
    var fam, line := FamilyOf(src, PlansOf(src, events, usage)), LineageOf(src, depth);
    var out := Shown(src, events, usage).value.0;
    SessionIsTree(src, events, usage, depth);
    FamilyOrder.OutIsProper(fam, line);
    FamilyOrder.ParentIsCaller(fam, line, out, i, c);
    SessionInterleaves(src, events, usage, depth);
    assert ThreadShown(src, events, usage, out, out[i].owner);
    var at := FamilyOrder.CountsOwn(fam, line, out, i, c);
    CallFrameStands(src, events, usage, out[i].owner, at, c);
    p, m := at - LeadOf(out[i].owner), FamilyOrder.CallCount(out[..i], c);
  }

  /** Main result. In an admitted session every call is followed at once by a turn of the child it
    * calls; and it is the turn of this very call exactly when as many calls to the child have their
    * receipts before it as are made before it. */
  lemma TurnsFollowTheirCalls(src: Source, events: nat, usage: nat, depth: map<string, nat>, i: nat, c: string)
    returns (p: nat, m: nat)
    requires Named(src) && src.agents != map[] && Rooted(src.agents, depth) && Calling(src, events, usage, i, c)
    ensures TurnShown(src, events, usage, i, c, p, m)
    ensures var s, id := Delegate(src).value, Shown(src, events, usage).value.0[i].owner;
            History(s.calls, c)[m].uuid == LogOf(src, id)[p].row.uuid <==> Keeps(src, s, id, p, c, m)
  {
    hide Delegate, PlanThreads, FamilyOrder.Drain, FamilyOrder.Tree, FamilyOrder.FirstLink, FamilyOrder.CallCount,
         Below, CallAt, Keeps;
    hide KimiCalls.TagTurns, History;
    p, m := CallIsPlaced(src, events, usage, depth, i, c);
    var fam := FamilyOf(src, PlansOf(src, events, usage));
    FamilyOrder.TurnFollowsCall(fam, fam.root, map[], i, c);
    TurnIsFilled(src, events, usage, c, m);
    CallIsAnswered(src, Shown(src, events, usage).value.0[i].owner, p, c, m);
  }

  /** A call row whose own turn is not the one in its place. */
  lemma DisplacedCall(src: Source, events: nat, usage: nat, c: string) returns (p: nat, x: nat)
    requires Named(src) && Admitted(src, events, usage) && c in src.agents
    requires var q := src.agents[c].parent;
             q in Delegate(src).value.desks && !InOrder(LogOf(src, q), Delegate(src).value.desks[q].links, c)
    ensures var s, q := Delegate(src).value, src.agents[c].parent;
            CallAt(src, s, q, p, c, x) && History(s.calls, c)[x].uuid != LogOf(src, q)[p].row.uuid
  {
    hide Delegate, PlanThreads, Scan, CallOrder, InOrder, KeysTo, History, ThreadFits, PlanOk;
    var s, q := Delegate(src).value, src.agents[c].parent;
    var calls := ParentScan(src, c);
    TurnsMeetCalls(src.agents, q, LogOf(src, q), calls, c);
    ParentIsThread(src, events, usage, c);
    ThreadIsPlanned(src, events, usage, q);
    CallsInAll(src, s, q, PlansOf(src, events, usage).plans[q], c);
    var made, filed :=
      CallOrder(LogOf(src, q), |LogOf(src, q)|, s.desks[q].links, c), ReceiptOrder(History(s.calls, c));
    x := FirstDifference(made, filed);
    p := CallOrderRows(LogOf(src, q), |LogOf(src, q)|, s.desks[q].links, c, x);
  }

  lemma ParentIsThread(src: Source, events: nat, usage: nat, c: string)
    requires Named(src) && Admitted(src, events, usage) && c in src.agents
    ensures src.agents[c].parent == Main || src.agents[c].parent in src.agents
  {
    ParentPlaced(src, events, usage, c);
  }

  /** The call row has its frame in the session. */
  lemma PlaceOfCall(src: Source, events: nat, usage: nat, depth: map<string, nat>, id: string, p: nat, c: string,
                    x: nat) returns (i: nat)
    requires Named(src) && src.agents != map[] && Rooted(src.agents, depth) && Admitted(src, events, usage)
    requires (id == Main || id in src.agents) && CallAt(src, Delegate(src).value, id, p, c, x)
    ensures Calling(src, events, usage, i, c)
    ensures Shown(src, events, usage).value.0[i].owner == id
            && Shown(src, events, usage).value.0[i].slot == p + LeadOf(id)
  {
    hide Delegate, PlanThreads, FamilyOrder.Drain, FamilyOrder.OwnFrames, FamilyOrder.FirstLink, Below, KimiThread.Run,
         CallOrder, History;
    hide ThreadFits;
    SessionInterleaves(src, events, usage, depth);
    ThreadIsPlanned(src, events, usage, id);
    var out, plan := Shown(src, events, usage).value.0, PlansOf(src, events, usage).plans[id];
    FrameOfRow(LogOf(src, id), plan.ctx, p);
    assert ThreadShown(src, events, usage, out, id);
    i := FamilyOrder.OwnIsShown(out, id, p + LeadOf(id));
  }

  /** Main result, the other half. If some call to a child has its receipt after that of a later call,
    * then some call of the session is followed by another call's turn. */
  lemma DisorderDisplaces(src: Source, events: nat, usage: nat, depth: map<string, nat>, c: string)
    returns (i: nat, p: nat, m: nat)
    requires Named(src) && Rooted(src.agents, depth) && Admitted(src, events, usage) && c in src.agents
    requires var q := src.agents[c].parent;
             q in Delegate(src).value.desks && !InOrder(LogOf(src, q), Delegate(src).value.desks[q].links, c)
    ensures Calling(src, events, usage, i, c) && TurnShown(src, events, usage, i, c, p, m)
    ensures var s, q := Delegate(src).value, src.agents[c].parent;
            Shown(src, events, usage).value.0[i].owner == q && History(s.calls, c)[m].uuid != LogOf(src, q)[p].row.uuid
  {
    hide Delegate, PlanThreads, FamilyOrder.Drain, FamilyOrder.FirstLink, Below, InOrder, CallOrder, History, Keeps;
    var q := src.agents[c].parent;
    var p', x := DisplacedCall(src, events, usage, c);
    ParentIsThread(src, events, usage, c);
    i := PlaceOfCall(src, events, usage, depth, q, p', c, x);
    p, m := TurnsFollowTheirCalls(src, events, usage, depth, i, c);
  }
}
