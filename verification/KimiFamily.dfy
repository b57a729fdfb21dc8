/** A whole Kimi session: the metadata's parent walk, the delegation check, the threads, and
  * the proof that what they accept separately makes the interleaving complete. */
module KimiFamily {
  import opened Base
  import opened KimiRows
  import opened KimiDelegation
  import KimiCalls
  import KimiThread
  import KimiTurns
  import FamilyOrder

  /** `names` lists the children in file order. */
  datatype Source = Source(records: seq<Entry>, names: seq<string>, agents: map<string, Agent>,
                           logs: map<string, seq<Entry>>, forked: bool)

  /** The agents object and the wire files name the same children. */
  predicate Named(src: Source) {
    && Distinct(src.names) && Main !in src.agents && src.logs.Keys == src.agents.Keys
    && (forall c :: c in src.names ==> c in src.agents) && (forall c :: c in src.agents ==> c in src.names)
  }

  // ---------------------------------------------------------------- the parent walk

  /** Every label names the main agent or another child. */
  predicate Declared(agents: map<string, Agent>) {
    forall c :: c in agents ==> agents[c].parent == Main || agents[c].parent in agents
  }

  /** One step up from `c` is one step nearer to the main agent. */
  predicate Below(agents: map<string, Agent>, depth: map<string, nat>, c: string)
    requires c in agents
  {
    c in depth && agents[c].parent in depth && depth[c] == depth[agents[c].parent] + 1
  }

  /** `depth` shows that the labels form a tree below the main agent. */
  ghost predicate Rooted(agents: map<string, Agent>, depth: map<string, nat>) {
    Main in depth && depth[Main] == 0 && forall c :: c in agents ==> Below(agents, depth, c)
  }

  /** A chain of labels: each agent's parent is the next one. */
  predicate Chain(agents: map<string, Agent>, path: seq<string>) {
    && (forall k :: 0 <= k < |path| ==> path[k] in agents)
    && forall k :: 0 <= k < |path| - 1 ==> agents[path[k]].parent == path[k + 1]
  }

  lemma {:induction false} ChainDescends(agents: map<string, Agent>, depth: map<string, nat>, path: seq<string>,
                                         at: nat, k: nat)
    requires Chain(agents, path) && at <= k < |path|
    ensures Rooted(agents, depth) ==>
              path[at] in depth && path[k] in depth && depth[path[at]] == depth[path[k]] + k - at
  {
    if at < k {
      ChainDescends(agents, depth, path, at, k - 1);
      assert Rooted(agents, depth) ==> Below(agents, depth, path[k - 1]);
    } else {
      assert Rooted(agents, depth) ==> Below(agents, depth, path[k]);
    }
  }

  /** A chain that leads back to its start fits no tree. */
  lemma CycleIsNoTree(agents: map<string, Agent>, depth: map<string, nat>, path: seq<string>, at: nat)
    requires Chain(agents, path) && at < |path| && agents[path[|path| - 1]].parent == path[at]
    ensures !Rooted(agents, depth)
  {
    ChainDescends(agents, depth, path, at, |path| - 1);
    assert Rooted(agents, depth) ==> Below(agents, depth, path[|path| - 1]);
  }

  function Elements(path: seq<string>): set<string> {
    set c | c in path
  }

  /** The agents already known to lead to the main agent. */
  ghost predicate Known(agents: map<string, Agent>, connected: set<string>, depth: map<string, nat>) {
    && depth.Keys == connected && Main in connected && depth[Main] == 0
    && forall c :: c in connected ==> c == Main || (c in agents && Below(agents, depth, c))
  }

  /** A path that ends next to a known agent becomes known. */
  lemma {:induction false} Deepen(agents: map<string, Agent>, connected: set<string>, depth: map<string, nat>,
                                  path: seq<string>, end: string)
    returns (deeper: map<string, nat>)
    requires Known(agents, connected, depth) && Main !in agents && end in connected
    requires Chain(agents, path) && Distinct(path) && (forall k :: 0 <= k < |path| ==> path[k] !in connected)
    requires path != [] ==> agents[path[|path| - 1]].parent == end
    ensures Known(agents, connected + Elements(path), deeper)
    decreases |path|
  {
    if path == [] {
      deeper := depth;
      assert connected + Elements(path) == connected;
    } else {
      var rest := path[1..];
      var below := Deepen(agents, connected, depth, rest, end);
      var up := agents[path[0]].parent;
      assert up == if |path| > 1 then rest[0] else end;
      ElementsCons(path);
      assert connected + Elements(path) == connected + Elements(rest) + {path[0]};
      assert path[0] !in rest;
      deeper := below[path[0] := below[up] + 1];
      KnownGrows(agents, connected + Elements(rest), below, path[0]);
    }
  }

  lemma ElementsCons(path: seq<string>)
    requires path != []
    ensures Elements(path) == Elements(path[1..]) + {path[0]}
  {
    assert path == [path[0]] + path[1..];
  }

  lemma KnownGrows(agents: map<string, Agent>, connected: set<string>, depth: map<string, nat>, c: string)
    requires Known(agents, connected, depth) && c in agents && c !in connected && agents[c].parent in connected
    ensures Known(agents, connected + {c}, depth[c := depth[agents[c].parent] + 1])
  {
  }

  /** `chain` leads from `from` to its next agent `current` outside the known agents. */
  ghost predicate Climb(agents: map<string, Agent>, connected: set<string>, chain: seq<string>, from: string,
                        current: string) {
    && Chain(agents, chain) && Distinct(chain) && (forall k :: 0 <= k < |chain| ==> chain[k] !in connected)
    && if chain == [] then current == from else chain[0] == from && agents[chain[|chain| - 1]].parent == current
  }

  lemma ClimbOn(agents: map<string, Agent>, connected: set<string>, chain: seq<string>, from: string, current: string)
    requires Climb(agents, connected, chain, from, current) && current in agents && current !in connected
    requires current !in Elements(chain)
    ensures Climb(agents, connected, chain + [current], from, agents[current].parent)
    ensures Elements(chain + [current]) == Elements(chain) + {current}
    ensures agents.Keys - Elements(chain + [current]) < agents.Keys - Elements(chain)
  {
    assert current in agents.Keys - Elements(chain);
  }

  lemma ClimbStart(agents: map<string, Agent>, connected: set<string>, chain: seq<string>, from: string,
                   current: string)
    requires Climb(agents, connected, chain, from, current) && current in connected
    ensures from in connected + Elements(chain)
  {
  }

  /** The walk of `metadata`: it succeeds exactly when the labels form a tree. */
  method ConnectParents(names: seq<string>, agents: map<string, Agent>)
    returns (ok: bool, ghost depth: map<string, nat>)
    requires Declared(agents) && Main !in agents
    requires (forall c :: c in names ==> c in agents) && (forall c :: c in agents ==> c in names)
    ensures ok ==> Rooted(agents, depth)
    ensures ok <==> exists d :: Rooted(agents, d)
  {
    hide Below;
    var connected := {Main};
    depth := map[Main := 0];
    var at := 0;
    while at < |names|
      invariant 0 <= at <= |names|
      invariant Known(agents, connected, depth)
      invariant forall k :: 0 <= k < at ==> names[k] in connected
    {
      var path, current := {}, names[at];
      ghost var chain: seq<string> := [];
      while current !in connected
        invariant current == Main || current in agents
        invariant Climb(agents, connected, chain, names[at], current) && path == Elements(chain)
        decreases agents.Keys - path
      {
        if current in path {
          ghost var back: nat :| back < |chain| && chain[back] == current;
          forall d: map<string, nat>
            ensures !Rooted(agents, d)
          {
            CycleIsNoTree(agents, d, chain, back);
          }
          return false, depth;
        }
        ClimbOn(agents, connected, chain, names[at], current);
        path := path + {current};
        chain := chain + [current];
        current := agents[current].parent;
      }
      depth := Deepen(agents, connected, depth, chain, current);
      ClimbStart(agents, connected, chain, names[at], current);
      connected := connected + path;
      at := at + 1;
    }
    forall c | c in agents
      ensures Below(agents, depth, c)
    {
      var k :| 0 <= k < |names| && names[k] == c;
      assert names[k] in connected;
    }
    assert Rooted(agents, depth);
    ok := true;
  }

  // ---------------------------------------------------------------- delegation over the whole session

  /** Parents in the order they are scanned: the main agent, then the children. */
  function Id(src: Source, k: nat): string
    requires k <= |src.names|
  {
    if k == 0 then Main else src.names[k - 1]
  }

  function LogOf(src: Source, id: string): seq<Entry> {
    if id in src.logs then src.logs[id] else src.records
  }

  datatype Scanned = Scanned(desks: map<string, Desk>, calls: map<string, seq<Call>>)

  function Scans(src: Source, k: nat): Result<Scanned>
    requires k <= |src.names| + 1
  {
    if k == 0 then Ok(Scanned(map[], map[]))
    else
      var before :- Scans(src, k - 1);
      var id := Id(src, k - 1);
      var d :- ScanParent(src.agents, id, LogOf(src, id), before.calls);
      Ok(Scanned(before.desks[id := d], d.calls))
  }

  /** The child's turns are its answered calls; background children do not delegate further. */
  predicate Answered(src: Source, s: Scanned, c: string) {
    && c in src.agents && Main in s.desks && c in s.desks
    && TurnsMatch(History(s.calls, c), s.desks[Main].tasks, c, src.agents[c].profile, LogOf(src, c))
    && (s.desks[c].links != map[] ==>
          forall k :: 0 <= k < |History(s.calls, c)| ==> !History(s.calls, c)[k].receipt.Launched?)
  }

  function Delegate(src: Source): Result<Scanned> {
    var s :- Scans(src, |src.names| + 1);
    if |s.calls| == |src.names| && forall c :: c in src.names ==> Answered(src, s, c) then Ok(s) else Err(Format)
  }

  // ---------------------------------------------------------------- threads within the shared budgets

  datatype Plan = Plan(ctx: KimiThread.Context, thread: KimiThread.Thread)

  datatype Planned = Planned(plans: map<string, Plan>, events: nat, usage: nat)

  function Left(limit: nat, spent: nat): nat {
    if spent <= limit then limit - spent else 0
  }

  function ContextOf(src: Source, s: Scanned, id: string, events: nat, usage: nat): KimiThread.Context
    requires id in s.desks
  {
    KimiThread.Context(id != Main, s.desks[id].links,
                       if id == Main then s.desks[id].taskRows else map[], src.forked, events, usage)
  }

  /** The first `k` threads, each within what the earlier ones left of the budgets. */
  function PlanThreads(src: Source, s: Scanned, k: nat, events: nat, usage: nat): Result<Planned>
    requires k <= |src.names| + 1
  {
    if k == 0 then Ok(Planned(map[], 0, 0))
    else
      var before :- PlanThreads(src, s, k - 1, events, usage);
      var id := Id(src, k - 1);
      if id !in s.desks then Err(Format)
      else
        var ctx := ContextOf(src, s, id, Left(events, before.events), Left(usage, before.usage));
        if !KimiThread.Accepted(LogOf(src, id), ctx) then Err(Format)
        else
          var t := KimiThread.Run(LogOf(src, id), ctx, |LogOf(src, id)|).value;
          Ok(Planned(before.plans[id := Plan(ctx, t)], before.events + t.events, before.usage + t.usageCount))
  }

  /** The family that the interleaving walks. */
  function FamilyOf(src: Source, p: Planned): FamilyOrder.Family
    requires Main in p.plans && src.agents.Keys <= p.plans.Keys
  {
    FamilyOrder.Family(Main, KimiCalls.Tag(Main, 0, p.plans[Main].thread.frames),
                       map c | c in src.agents :: KimiCalls.TagTurns(c, 0, p.plans[c].thread.turnsForCalls))
  }

  // ---------------------------------------------------------------- what delegation established

  ghost predicate DeskOk(src: Source, id: string, d: Desk) {
    && (forall u :: u in d.links ==> AgentCalled(LogOf(src, id), |LogOf(src, id)|, u))
    && (forall c :: c in d.links.Values ==> c in src.agents && src.agents[c].parent == id)
    && (src.agents != map[] ==> forall k :: 0 <= k < |LogOf(src, id)| ==> !EditsHistory(LogOf(src, id)[k].row))
  }

  lemma ScanDesk(src: Source, id: string, calls: map<string, seq<Call>>)
    requires ScanParent(src.agents, id, LogOf(src, id), calls).Ok?
    ensures DeskOk(src, id, ScanParent(src.agents, id, LogOf(src, id), calls).value)
  {
    hide Scan, AgentCalled;
    var log := LogOf(src, id);
    var d := Scan(src.agents, id, log, |log|, calls).value;
    forall u | u in d.links
      ensures AgentCalled(log, |log|, u)
    {
      LinksWereCalled(src.agents, id, log, |log|, calls, u);
    }
    forall c | c in d.links.Values
      ensures c in src.agents && src.agents[c].parent == id
    {
      var u :| u in d.links && d.links[u] == c;
      assert u in KeysTo(d.links, c);
      CallsCounted(src.agents, id, log, |log|, calls, c);
    }
    if src.agents != map[] {
      NoEdits(src.agents, id, log, |log|, calls);
    }
  }

  /** The calls to `c` on record are the links of its parent, once that was scanned. */
  ghost predicate CallsKnown(src: Source, s: Scanned, c: string)
    requires c in src.agents
  {
    var p := src.agents[c].parent;
    |History(s.calls, c)| == if p in s.desks then |KeysTo(s.desks[p].links, c)| else 0
  }

  lemma IdsDiffer(src: Source, j: nat, k: nat)
    requires Named(src) && j < k <= |src.names|
    ensures Id(src, j) != Id(src, k)
  {
    assert src.names[k - 1] in src.names;
  }

  lemma {:induction false} ScansKnow(src: Source, k: nat)
    requires Named(src) && k <= |src.names| + 1 && Scans(src, k).Ok?
    ensures forall j :: 0 <= j < k ==> Id(src, j) in Scans(src, k).value.desks
    ensures forall id :: id in Scans(src, k).value.desks ==>
              DeskOk(src, id, Scans(src, k).value.desks[id]) && exists j :: 0 <= j < k && id == Id(src, j)
    ensures forall c :: c in src.agents ==> CallsKnown(src, Scans(src, k).value, c)
    ensures forall c :: c in Scans(src, k).value.calls ==> c in src.agents && Scans(src, k).value.calls[c] != []
  {
    hide ScanParent, DeskOk, Named, CallsKnown;
    if k == 0 {
      NothingScanned(src);
    } else {
      ScansKnow(src, k - 1);
      var before, id := Scans(src, k - 1).value, Id(src, k - 1);
      ScanDesk(src, id, before.calls);
      assert id !in before.desks by {
        if id in before.desks {
          var j :| 0 <= j < k - 1 && id == Id(src, j);
          IdsDiffer(src, j, k - 1);
        }
      }
      forall c | c in src.agents
        ensures CallsKnown(src, Scans(src, k).value, c)
      {
        CallsKnownStep(src, before, id, c);
      }
      forall c | c in Scans(src, k).value.calls
        ensures c in src.agents && Scans(src, k).value.calls[c] != []
      {
        ParentCallsChildren(src, before.calls, id, c);
      }
    }
  }

  lemma NothingScanned(src: Source)
    ensures forall c :: c in src.agents ==> CallsKnown(src, Scanned(map[], map[]), c)
  {
  }

  lemma ParentCallsChildren(src: Source, calls: map<string, seq<Call>>, id: string, c: string)
    requires ScanParent(src.agents, id, LogOf(src, id), calls).Ok? && (c in calls ==> c in src.agents && calls[c] != [])
    ensures var d := ScanParent(src.agents, id, LogOf(src, id), calls).value;
            c in d.calls ==> c in src.agents && d.calls[c] != []
  {
    hide Scan;
    CalledAreChildren(src.agents, id, LogOf(src, id), |LogOf(src, id)|, calls, c);
  }

  lemma CallsKnownStep(src: Source, before: Scanned, id: string, c: string)
    requires c in src.agents && CallsKnown(src, before, c) && id !in before.desks
    requires ScanParent(src.agents, id, LogOf(src, id), before.calls).Ok?
    ensures var d := ScanParent(src.agents, id, LogOf(src, id), before.calls).value;
            CallsKnown(src, Scanned(before.desks[id := d], d.calls), c)
  {
    hide Scan;
    CallsCounted(src.agents, id, LogOf(src, id), |LogOf(src, id)|, before.calls, c);
  }

  lemma {:induction false} NamesCounted(names: seq<string>)
    requires Distinct(names)
    ensures |Elements(names)| == |names|
  {
    if names != [] {
      NamesCounted(names[1..]);
      ElementsCons(names);
      assert names[0] !in names[1..];
    }
  }

  /** Every child was called, and as often as its parent links to it. */
  lemma ChildrenCalled(src: Source, c: string)
    requires Named(src) && Delegate(src).Ok? && c in src.agents
    ensures var s := Delegate(src).value;
            && src.agents[c].parent in s.desks && Main in s.desks && c in s.desks
            && |History(s.calls, c)| == |KeysTo(s.desks[src.agents[c].parent].links, c)| > 0
  {
    hide DeskOk, Answered, Scans;
    var s := Delegate(src).value;
    ScansKnow(src, |src.names| + 1);
    assert Id(src, 0) in s.desks;
    NamesCounted(src.names);
    assert Elements(src.names) == src.agents.Keys;
    SameSize(s.calls.Keys, src.agents.Keys);
    assert c in s.calls;
    assert c in src.names;
    var k :| 0 <= k < |src.names| && src.names[k] == c;
    assert Id(src, k + 1) == c;
  }

  // ---------------------------------------------------------------- what the threads established

  ghost predicate PlanOk(src: Source, s: Scanned, id: string, plan: Plan) {
    && id in s.desks && KimiThread.Accepted(LogOf(src, id), plan.ctx)
    && plan.ctx.isChild == (id != Main) && plan.ctx.callChildren == s.desks[id].links
    && (id != Main ==> plan.ctx.taskRows == map[])
    && plan.thread == KimiThread.Run(LogOf(src, id), plan.ctx, |LogOf(src, id)|).value
  }

  lemma {:induction false} PlansOk(src: Source, s: Scanned, k: nat, events: nat, usage: nat)
    requires k <= |src.names| + 1 && PlanThreads(src, s, k, events, usage).Ok?
    ensures forall j :: 0 <= j < k ==> Id(src, j) in PlanThreads(src, s, k, events, usage).value.plans
    ensures forall id :: id in PlanThreads(src, s, k, events, usage).value.plans ==>
              PlanOk(src, s, id, PlanThreads(src, s, k, events, usage).value.plans[id])
  {
    hide KimiThread.Run, KimiThread.Accepted, PlanOk;
    if k > 0 {
      PlansOk(src, s, k - 1, events, usage);
      var id := Id(src, k - 1);
      OnePlanOk(src, s, id, PlanThreads(src, s, k, events, usage).value.plans[id]);
    }
  }

  lemma OnePlanOk(src: Source, s: Scanned, id: string, plan: Plan)
    requires id in s.desks && KimiThread.Accepted(LogOf(src, id), plan.ctx)
    requires plan.ctx == ContextOf(src, s, id, plan.ctx.eventLimit, plan.ctx.usageLimit)
    requires plan.thread == KimiThread.Run(LogOf(src, id), plan.ctx, |LogOf(src, id)|).value
    ensures PlanOk(src, s, id, plan)
  {
    hide KimiThread.Run;
  }

  /** What a planned thread brings to the family. */
  ghost predicate ThreadFits(src: Source, s: Scanned, id: string, t: KimiThread.Thread)
    requires id in s.desks
  {
    && Flatten(t.turnsForCalls) == t.frames && KimiCalls.LinksKnown(s.desks[id].links, t.frames)
    && (id in src.agents ==> |t.turnsForCalls| == |History(s.calls, id)|)
    && forall c :: c in src.agents ==>
         FamilyOrder.CallCount(KimiCalls.Tag(id, 0, t.frames), c) == |KeysTo(s.desks[id].links, c)|
  }

  lemma ThreadIsCut(src: Source, s: Scanned, id: string, plan: Plan)
    requires PlanOk(src, s, id, plan) && DeskOk(src, id, s.desks[id]) && src.agents != map[]
    ensures KimiCalls.Cut(plan.thread, plan.ctx) && KimiCalls.LinksKnown(s.desks[id].links, plan.thread.frames)
    ensures KimiCalls.NoUndo(LogOf(src, id), |LogOf(src, id)|)
  {
    hide KimiThread.Run, KimiCalls.Cut, AgentCalled;
    var log := LogOf(src, id);
    assert KimiCalls.NoUndo(log, |log|);
    KimiCalls.TurnsAreFrames(log, plan.ctx, |log|);
    KimiCalls.FramesLink(log, plan.ctx, |log|);
  }

  lemma ChildTurns(src: Source, s: Scanned, id: string, plan: Plan)
    requires PlanOk(src, s, id, plan) && DeskOk(src, id, s.desks[id]) && id in src.agents && id != Main
    requires Answered(src, s, id) && History(s.calls, id) != []
    ensures |plan.thread.turnsForCalls| == |History(s.calls, id)|
  {
    hide KimiThread.Run, Matched, AgentCalled, History;
    var log := LogOf(src, id);
    ThreadIsCut(src, s, id, plan);
    TurnsAreCalls(History(s.calls, id), s.desks[Main].tasks, id, src.agents[id].profile, log);
    KimiCalls.PromptsCounted(log, plan.ctx, |log|);
  }

  lemma PlanFits(src: Source, s: Scanned, id: string, plan: Plan)
    requires PlanOk(src, s, id, plan) && DeskOk(src, id, s.desks[id]) && src.agents != map[] && Main !in src.agents
    requires id in src.agents ==> Answered(src, s, id) && History(s.calls, id) != []
    ensures ThreadFits(src, s, id, plan.thread)
  {
    hide KimiThread.Run, AgentCalled, Answered, FamilyOrder.CallCount, KimiCalls.Tag, KimiCalls.LinksKnown, Flatten,
         KeysTo, History;
    ThreadIsCut(src, s, id, plan);
    if id in src.agents {
      ChildTurns(src, s, id, plan);
    }
    forall c | c in src.agents
      ensures FamilyOrder.CallCount(KimiCalls.Tag(id, 0, plan.thread.frames), c) == |KeysTo(s.desks[id].links, c)|
    {
      KimiCalls.CallsAreLinks(LogOf(src, id), plan.ctx, id, c);
    }
  }

  /** Delegation and every thread accepted the session. */
  predicate Admitted(src: Source, events: nat, usage: nat) {
    && Delegate(src).Ok?
    && PlanThreads(src, Delegate(src).value, |src.names| + 1, events, usage).Ok?
  }

  function PlansOf(src: Source, events: nat, usage: nat): Planned
    requires Admitted(src, events, usage)
  {
    PlanThreads(src, Delegate(src).value, |src.names| + 1, events, usage).value
  }

  lemma AllFit(src: Source, events: nat, usage: nat, id: string)
    requires Named(src) && src.agents != map[] && Admitted(src, events, usage) && (id == Main || id in src.agents)
    ensures id in PlansOf(src, events, usage).plans && id in Delegate(src).value.desks
    ensures DeskOk(src, id, Delegate(src).value.desks[id])
    ensures ThreadFits(src, Delegate(src).value, id, PlansOf(src, events, usage).plans[id].thread)
  {
    hide Scans, PlanThreads, Answered, DeskOk, ThreadFits, PlanOk;
    var s := Delegate(src).value;
    ScansKnow(src, |src.names| + 1);
    PlansOk(src, s, |src.names| + 1, events, usage);
    if id != Main {
      ChildrenCalled(src, id);
      assert id in src.names;
      var k :| 0 <= k < |src.names| && src.names[k] == id;
      assert Id(src, k + 1) == id;
    } else {
      assert Id(src, 0) == Main;
    }
    PlanInDesk(src, s, id, PlansOf(src, events, usage).plans[id]);
    PlanFits(src, s, id, PlansOf(src, events, usage).plans[id]);
  }

  lemma PlanInDesk(src: Source, s: Scanned, id: string, plan: Plan)
    requires PlanOk(src, s, id, plan)
    ensures id in s.desks
  {
  }

  // ---------------------------------------------------------------- the interleaving is complete

  function LineageOf(src: Source, depth: map<string, nat>): FamilyOrder.Lineage {
    FamilyOrder.Lineage(map c | c in src.agents :: src.agents[c].parent, depth)
  }

  lemma LinksProper(src: Source, s: Scanned, fam: FamilyOrder.Family, line: FamilyOrder.Lineage, id: string,
                    f: FamilyOrder.Frame)
    requires id in s.desks && DeskOk(src, id, s.desks[id]) && fam.turns.Keys == src.agents.Keys
    requires line.parent == (map c | c in src.agents :: src.agents[c].parent) && f.owner == id
    requires FamilyOrder.Link(f).Some? ==> FamilyOrder.Link(f).value in s.desks[id].links.Values
    ensures FamilyOrder.Proper(fam, line, f)
  {
    hide AgentCalled;
  }

  /** The facts about one thread that the traversal needs. */
  ghost predicate Ready(src: Source, s: Scanned, id: string, t: KimiThread.Thread) {
    id in s.desks && DeskOk(src, id, s.desks[id]) && ThreadFits(src, s, id, t)
  }

  lemma RootOwned(src: Source, s: Scanned, fam: FamilyOrder.Family, line: FamilyOrder.Lineage, t: KimiThread.Thread)
    requires Ready(src, s, Main, t) && fam.turns.Keys == src.agents.Keys && fam.root == KimiCalls.Tag(Main, 0, t.frames)
    requires line.parent == (map c | c in src.agents :: src.agents[c].parent)
    ensures FamilyOrder.OwnedBy(fam, line, fam.root, Main)
  {
    hide AgentCalled, FamilyOrder.Proper, DeskOk, FamilyOrder.CallCount, KeysTo, Flatten;
    forall i | 0 <= i < |fam.root|
      ensures fam.root[i].owner == Main && FamilyOrder.Proper(fam, line, fam.root[i])
    {
      assert KimiCalls.LinkKnown(s.desks[Main].links, t.frames[i]);
      LinksProper(src, s, fam, line, Main, fam.root[i]);
    }
  }

  lemma TurnIsOwned(src: Source, s: Scanned, fam: FamilyOrder.Family, line: FamilyOrder.Lineage, c: string,
                    t: KimiThread.Thread, at: nat)
    requires Ready(src, s, c, t) && fam.turns.Keys == src.agents.Keys && c in fam.turns
    requires fam.turns[c] == KimiCalls.TagTurns(c, 0, t.turnsForCalls) && at < |fam.turns[c]|
    requires line.parent == (map c | c in src.agents :: src.agents[c].parent)
    ensures FamilyOrder.TurnOwned(fam, line, c, at)
  {
    hide AgentCalled, FamilyOrder.Proper, DeskOk, FamilyOrder.CallCount, KeysTo, Flatten, KimiCalls.LinksKnown;
    KimiCalls.TagOwned(c, 0, t.turnsForCalls, s.desks[c].links, at);
    var turn := fam.turns[c][at];
    forall i | 0 <= i < |turn|
      ensures turn[i].owner == c && FamilyOrder.Proper(fam, line, turn[i])
    {
      LinksProper(src, s, fam, line, c, turn[i]);
    }
  }

  /** The admitted session is a tree in the traversal's sense. */
  lemma SessionIsTree(src: Source, events: nat, usage: nat, depth: map<string, nat>)
    requires Named(src) && src.agents != map[] && Admitted(src, events, usage) && Rooted(src.agents, depth)
    ensures Main in PlansOf(src, events, usage).plans && src.agents.Keys <= PlansOf(src, events, usage).plans.Keys
    ensures FamilyOrder.Tree(FamilyOf(src, PlansOf(src, events, usage)), LineageOf(src, depth))
  {
    hide Delegate, PlanThreads, DeskOk, ThreadFits, Below, FamilyOrder.OwnedBy, FamilyOrder.TurnOwned;
    var s, p, line := Delegate(src).value, PlansOf(src, events, usage), LineageOf(src, depth);
    AllFit(src, events, usage, Main);
    forall c | c in src.agents
      ensures c in p.plans && Ready(src, s, c, p.plans[c].thread)
    {
      AllFit(src, events, usage, c);
    }
    var fam := FamilyOf(src, p);
    RootOwned(src, s, fam, line, p.plans[Main].thread);
    forall c | c in fam.turns
      ensures FamilyOrder.ChildPlaced(fam, line, c)
    {
      assert Below(src.agents, depth, c);
      ParentPlaced(src, events, usage, c);
      ChildIsPlaced(src, fam, depth, c);
    }
    forall c, t | c in fam.turns && 0 <= t < |fam.turns[c]|
      ensures FamilyOrder.TurnOwned(fam, line, c, t)
    {
      TurnIsOwned(src, s, fam, line, c, p.plans[c].thread, t);
    }
  }

  lemma ParentPlaced(src: Source, events: nat, usage: nat, c: string)
    requires Named(src) && Admitted(src, events, usage) && c in src.agents
    ensures src.agents[c].parent == Main || src.agents[c].parent in src.agents
  {
    hide Scans, Answered, DeskOk, PlanThreads;
    ChildrenCalled(src, c);
    ScansKnow(src, |src.names| + 1);
    var j :| 0 <= j < |src.names| + 1 && src.agents[c].parent == Id(src, j);
    assert j > 0 ==> src.names[j - 1] in src.names;
  }

  lemma ChildIsPlaced(src: Source, fam: FamilyOrder.Family, depth: map<string, nat>, c: string)
    requires c in src.agents && Below(src.agents, depth, c) && fam.rootId == Main && fam.turns.Keys == src.agents.Keys
    requires src.agents[c].parent == Main || src.agents[c].parent in src.agents
    ensures FamilyOrder.ChildPlaced(fam, LineageOf(src, depth), c)
  {
  }

  /** Calls and turns match in number for every child. */
  lemma SessionIsBalanced(src: Source, events: nat, usage: nat, depth: map<string, nat>)
    requires Named(src) && src.agents != map[] && Admitted(src, events, usage) && Rooted(src.agents, depth)
    requires Main in PlansOf(src, events, usage).plans && src.agents.Keys <= PlansOf(src, events, usage).plans.Keys
    ensures FamilyOrder.Balanced(FamilyOf(src, PlansOf(src, events, usage)), LineageOf(src, depth))
  {
    hide Delegate, PlanThreads, DeskOk, ThreadFits, Below, FamilyOrder.ChildPlaced, FamilyOrder.AllTurns,
         FamilyOrder.CallCount;
    var s, p, line := Delegate(src).value, PlansOf(src, events, usage), LineageOf(src, depth);
    var fam := FamilyOf(src, p);
    forall c | c in fam.turns
      ensures FamilyOrder.ChildPlaced(fam, line, c)
      ensures FamilyOrder.CallCount(FamilyOrder.AllTurns(fam, line.parent[c]), c) == |fam.turns[c]|
    {
      var q := src.agents[c].parent;
      assert Below(src.agents, depth, c);
      ParentPlaced(src, events, usage, c);
      ChildIsPlaced(src, fam, depth, c);
      ChildrenCalled(src, c);
      AllFit(src, events, usage, c);
      AllFit(src, events, usage, q);
      AllTurnsTagged(src, s, p, q);
      CountsMeet(src, s, c, p.plans[c].thread, p.plans[q].thread);
    }
  }

  lemma AllTurnsTagged(src: Source, s: Scanned, p: Planned, id: string)
    requires Main in p.plans && src.agents.Keys <= p.plans.Keys && Main !in src.agents
             && (id == Main || id in src.agents)
    requires id in s.desks && ThreadFits(src, s, id, p.plans[id].thread)
    ensures FamilyOrder.AllTurns(FamilyOf(src, p), id) == KimiCalls.Tag(id, 0, p.plans[id].thread.frames)
  {
    hide FamilyOrder.CallCount, KeysTo, KimiCalls.LinksKnown, Flatten, History;
    if id != Main {
      KimiCalls.TagFlatten(id, 0, p.plans[id].thread.turnsForCalls);
    }
  }

  lemma CountsMeet(src: Source, s: Scanned, c: string, child: KimiThread.Thread, parent: KimiThread.Thread)
    requires c in src.agents && c in s.desks && src.agents[c].parent in s.desks
    requires ThreadFits(src, s, c, child) && ThreadFits(src, s, src.agents[c].parent, parent)
    requires |History(s.calls, c)| == |KeysTo(s.desks[src.agents[c].parent].links, c)|
    ensures FamilyOrder.CallCount(KimiCalls.Tag(src.agents[c].parent, 0, parent.frames), c) == |child.turnsForCalls|
  {
    hide FamilyOrder.CallCount, KeysTo, KimiCalls.LinksKnown, KimiCalls.Tag, Flatten, History;
  }

  /** Main result. Whatever the metadata, the delegation check and the threads accept, the
    * interleaving meets a turn at every call, uses up every turn of every child, and shows
    * every frame of every thread exactly once in its own order. */
  lemma SessionInterleaves(src: Source, events: nat, usage: nat, depth: map<string, nat>)
    requires Named(src) && src.agents != map[] && Admitted(src, events, usage) && Rooted(src.agents, depth)
    ensures var p := PlansOf(src, events, usage);
            && Main in p.plans && src.agents.Keys <= p.plans.Keys
            && var fam := FamilyOf(src, p);
               && FamilyOrder.Drain(fam, fam.root, map[]).Ok?
               && var out := FamilyOrder.Drain(fam, fam.root, map[]).value;
                  && FamilyOrder.OwnFrames(out.0, Main) == KimiCalls.Tag(Main, 0, p.plans[Main].thread.frames)
                  && (forall c :: c in src.agents ==>
                        && FamilyOrder.Cursor(out.1, c) == |p.plans[c].thread.turnsForCalls|
                        && FamilyOrder.OwnFrames(out.0, c) == KimiCalls.Tag(c, 0, p.plans[c].thread.frames))
                  && forall i :: 0 <= i < |out.0| ==> out.0[i].owner == Main || out.0[i].owner in src.agents
  {
    hide Delegate, PlanThreads, FamilyOrder.Tree, FamilyOrder.Balanced, FamilyOrder.Drain, FamilyOrder.OwnFrames;
    hide KimiCalls.Tag, KimiCalls.TagTurns, ThreadFits;
    SessionIsTree(src, events, usage, depth);
    SessionIsBalanced(src, events, usage, depth);
    var s, p := Delegate(src).value, PlansOf(src, events, usage);
    var fam := FamilyOf(src, p);
    FamilyOrder.FamilyComplete(fam, LineageOf(src, depth));
    forall c | c in src.agents
      ensures Flatten(fam.turns[c]) == KimiCalls.Tag(c, 0, p.plans[c].thread.frames)
    {
      AllFit(src, events, usage, c);
      AllTurnsTagged(src, s, p, c);
    }
  }

  // ---------------------------------------------------------------- the numbers of the whole session

  /** The ids of the first `k` threads. */
  function Ids(src: Source, k: nat): seq<string>
    requires k <= |src.names| + 1
  {
    if k == 0 then [] else Ids(src, k - 1) + [Id(src, k - 1)]
  }

  lemma {:induction false} IdsDistinct(src: Source, k: nat)
    requires Named(src) && k <= |src.names| + 1
    ensures Distinct(Ids(src, k)) && |Ids(src, k)| == k
    ensures forall j :: 0 <= j < k ==> Ids(src, k)[j] == Id(src, j)
  {
    if k > 0 {
      IdsDistinct(src, k - 1);
      forall j | 0 <= j < k - 1
        ensures Id(src, j) != Id(src, k - 1)
      {
        IdsDiffer(src, j, k - 1);
      }
    }
  }

  lemma IdsAreMembers(src: Source, c: string)
    requires Named(src)
    ensures c in Ids(src, |src.names| + 1) <==> c == Main || c in src.agents
  {
    var ids := Ids(src, |src.names| + 1);
    IdsDistinct(src, |src.names| + 1);
    forall j | 0 <= j < |ids|
      ensures ids[j] == Main || ids[j] in src.agents
    {
      assert ids[j] == Id(src, j);
      assert j > 0 ==> src.names[j - 1] in src.names;
    }
    if c == Main {
      assert ids[0] == Id(src, 0);
    } else if c in src.agents {
      assert c in src.names;
      var k :| 0 <= k < |src.names| && src.names[k] == c;
      assert ids[k + 1] == Id(src, k + 1);
    }
  }

  function Events(plans: map<string, Plan>, ids: seq<string>): nat {
    if ids == [] then 0
    else Events(plans, ids[..|ids| - 1]) + if ids[|ids| - 1] in plans then plans[ids[|ids| - 1]].thread.events else 0
  }

  lemma {:induction false} EventsKept(plans: map<string, Plan>, ids: seq<string>, id: string, plan: Plan)
    requires id !in ids
    ensures Events(plans[id := plan], ids) == Events(plans, ids)
  {
    if ids != [] {
      EventsKept(plans, ids[..|ids| - 1], id, plan);
    }
  }

  lemma {:induction false} EventsAddUp(src: Source, s: Scanned, k: nat, events: nat, usage: nat)
    requires Named(src) && k <= |src.names| + 1 && PlanThreads(src, s, k, events, usage).Ok?
    ensures PlanThreads(src, s, k, events, usage).value.events
            == Events(PlanThreads(src, s, k, events, usage).value.plans, Ids(src, k))
  {
    hide KimiThread.Run, KimiThread.Accepted, Named;
    if k > 0 {
      EventsAddUp(src, s, k - 1, events, usage);
      IdsDistinct(src, k);
      var before, after, id :=
        PlanThreads(src, s, k - 1, events, usage).value, PlanThreads(src, s, k, events, usage).value, Id(src, k - 1);
      var ids := Ids(src, k - 1);
      assert Ids(src, k) == ids + [id];
      assert (ids + [id])[..|ids|] == ids;
      assert id !in ids;
      EventsKept(before.plans, ids, id, after.plans[id]);
    }
  }

  lemma {:induction false} TagTotal(id: string, frames: seq<KimiThread.Frame>)
    ensures FamilyOrder.EventTotal(KimiCalls.Tag(id, 0, frames)) == |KimiTurns.Shown(frames)|
  {
    if frames != [] {
      var last := |frames| - 1;
      TagTotal(id, frames[..last]);
      assert frames[..last] + [frames[last]] == frames;
      KimiCalls.TagSnoc(id, 0, frames[..last], frames[last]);
      FamilyOrder.TotalAppend(KimiCalls.Tag(id, 0, frames[..last]), [FamilyOrder.Frame(id, last, frames[last].events)]);
      assert [FamilyOrder.Frame(id, last, frames[last].events)][1..] == [];
    }
  }

  lemma ThreadTotal(src: Source, s: Scanned, id: string, plan: Plan)
    requires PlanOk(src, s, id, plan)
    ensures FamilyOrder.EventTotal(KimiCalls.Tag(id, 0, plan.thread.frames)) == plan.thread.events
  {
    hide KimiThread.Run, KimiTurns.Shown, FamilyOrder.EventTotal;
    KimiTurns.RunInv(LogOf(src, id), plan.ctx, |LogOf(src, id)|);
    KimiTurns.InvShows(plan.thread);
    TagTotal(id, plan.thread.frames);
  }

  lemma {:induction false} TargetSnoc(fam: FamilyOrder.Family, ids: seq<string>, id: string)
    ensures FamilyOrder.Target(fam, ids + [id])
            == FamilyOrder.Target(fam, ids) + FamilyOrder.EventTotal(FamilyOrder.AllTurns(fam, id))
  {
    if ids == [] {
      assert [] + [id] == [id];
    } else {
      TargetSnoc(fam, ids[1..], id);
      assert (ids + [id])[1..] == ids[1..] + [id];
    }
  }

  lemma {:induction false} TargetIsEvents(fam: FamilyOrder.Family, plans: map<string, Plan>, ids: seq<string>)
    requires forall j :: 0 <= j < |ids| ==>
               ids[j] in plans
               && FamilyOrder.EventTotal(FamilyOrder.AllTurns(fam, ids[j])) == plans[ids[j]].thread.events
    ensures FamilyOrder.Target(fam, ids) == Events(plans, ids)
  {
    hide FamilyOrder.EventTotal, FamilyOrder.AllTurns;
    if ids != [] {
      var last := |ids| - 1;
      TargetIsEvents(fam, plans, ids[..last]);
      TargetSnoc(fam, ids[..last], ids[last]);
      assert ids[..last] + [ids[last]] == ids;
    }
  }

  /** Main result. The interleaved events are numbered 0, 1, 2, ... and are exactly as many as
    * the target reports, the sum over all threads. */
  lemma SessionNumbers(src: Source, events: nat, usage: nat, depth: map<string, nat>)
    requires Named(src) && src.agents != map[] && Admitted(src, events, usage) && Rooted(src.agents, depth)
    ensures var p := PlansOf(src, events, usage);
            && Main in p.plans && src.agents.Keys <= p.plans.Keys
            && var fam := FamilyOf(src, p);
               && FamilyOrder.Drain(fam, fam.root, map[]).Ok?
               && var out := FamilyOrder.Ordered(FamilyOrder.Drain(fam, fam.root, map[]).value.0, 0);
                  |FamilyOrder.Indices(out)| == p.events && CountsFrom(0, FamilyOrder.Indices(out))
  {
    hide Delegate, PlanThreads, FamilyOrder.Tree, FamilyOrder.Balanced, FamilyOrder.Drain, FamilyOrder.EventTotal,
         FamilyOrder.AllTurns;
    hide KimiCalls.Tag, KimiCalls.TagTurns, ThreadFits, PlanOk, CountsFrom, FamilyOrder.Indices,
         FamilyOrder.Ordered, DeskOk;
    var n := |src.names| + 1;
    var s, p := Delegate(src).value, PlansOf(src, events, usage);
    SessionIsTree(src, events, usage, depth);
    SessionIsBalanced(src, events, usage, depth);
    var fam, ids := FamilyOf(src, p), Ids(src, n);
    IdsDistinct(src, n);
    forall c
      ensures c in ids <==> c == fam.rootId || c in fam.turns
    {
      IdsAreMembers(src, c);
    }
    FamilyOrder.NumbersMeetTarget(fam, LineageOf(src, depth), ids);
    PlansOk(src, s, n, events, usage);
    forall j | 0 <= j < |ids|
      ensures ids[j] in p.plans
              && FamilyOrder.EventTotal(FamilyOrder.AllTurns(fam, ids[j])) == p.plans[ids[j]].thread.events
    {
      assert ids[j] in ids;
      AllFit(src, events, usage, ids[j]);
      AllTurnsTagged(src, s, p, ids[j]);
      ThreadTotal(src, s, ids[j], p.plans[ids[j]]);
    }
    TargetIsEvents(fam, p.plans, ids);
    EventsAddUp(src, s, n, events, usage);
  }
}
