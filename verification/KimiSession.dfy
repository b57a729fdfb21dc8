/** When a whole Kimi session is admitted: which parent logs are complete, which children may
  * delegate, and how the threads share their budgets. */
module KimiSession {
  import opened Base
  import opened KimiRows
  import opened KimiDelegation
  import KimiDesk
  import KimiThread
  import KimiCounts
  import opened KimiFamily

  // ---------------------------------------------------------------- complete parent logs

  /** Every call is known by one uuid, and every link answers one of the calls. */
  ghost predicate Paired(d: Desk) {
    && (forall i, j :: 0 <= i < j < |d.pending| ==> d.pending[i].uuid != d.pending[j].uuid)
    && (forall u :: u in d.links ==> CallOf(d.pending, u).Some?)
  }

  lemma FoundByUuid(pending: seq<AgentCall>, uuid: string)
    ensures CallOf(pending, uuid).Some? <==> exists k :: 0 <= k < |pending| && pending[k].uuid == uuid
  {
  }

  lemma {:induction false} ScanPairs(agents: map<string, Agent>, parent: string, log: seq<Entry>, n: nat,
                                     calls: map<string, seq<Call>>)
    requires n <= |log| && Scan(agents, parent, log, n, calls).Ok?
    ensures Paired(Scan(agents, parent, log, n, calls).value)
  {
    hide Step, CallOf, FindCall;
    var d := Scan(agents, parent, log, n, calls).value;
    if n > 0 {
      ScanPairs(agents, parent, log, n - 1, calls);
      var before := Scan(agents, parent, log, n - 1, calls).value;
      StepPending(before, agents, parent, n - 1, log[n - 1]);
      if IsAgentCall(log[n - 1].row) {
        FoundByUuid(before.pending, log[n - 1].row.uuid);
      }
    }
    forall u | u in d.links
      ensures CallOf(d.pending, u).Some?
    {
      LinksWereCalled(agents, parent, log, n, calls, u);
      PendingCalls(agents, parent, log, n, calls, u);
    }
  }

  function Uuids(pending: seq<AgentCall>): set<string> {
    set k | 0 <= k < |pending| :: pending[k].uuid
  }

  lemma {:induction false} UuidCount(pending: seq<AgentCall>)
    requires forall i, j :: 0 <= i < j < |pending| ==> pending[i].uuid != pending[j].uuid
    ensures |Uuids(pending)| == |pending|
  {
    if pending != [] {
      var last := |pending| - 1;
      UuidCount(pending[..last]);
      assert Uuids(pending) == Uuids(pending[..last]) + {pending[last].uuid};
      assert pending[last].uuid !in Uuids(pending[..last]);
    }
  }

  lemma SubsetOfSize(a: set<string>, b: set<string>)
    requires a <= b
    ensures |a| <= |b| && (|a| == |b| <==> a == b)
  {
    assert b == a + (b - a) && |b| == |a| + |b - a|;
  }

  /** All calls are answered exactly if as many links as calls are on record. */
  lemma LinksCount(d: Desk)
    requires Paired(d)
    ensures |d.pending| == |d.links| <==> forall u :: CallOf(d.pending, u).Some? ==> u in d.links
  {
    hide CallOf;
    UuidCount(d.pending);
    forall u
      ensures CallOf(d.pending, u).Some? <==> u in Uuids(d.pending)
    {
      FoundByUuid(d.pending, u);
    }
    SubsetOfSize(d.links.Keys, Uuids(d.pending));
    assert |d.links| == |d.links.Keys|;
  }

  lemma TasksStarted(agents: map<string, Agent>, parent: string, log: seq<Entry>, calls: map<string, seq<Call>>,
                     id: string)
    requires Scan(agents, parent, log, |log|, calls).Ok?
    ensures var d := Scan(agents, parent, log, |log|, calls).value; id in d.tasks ==> id in d.starts
  {
    hide Scan, Clocks;
    TaskLife(agents, parent, log, |log|, calls, id);
  }

  lemma CallsComplete(agents: map<string, Agent>, parent: string, log: seq<Entry>, calls: map<string, seq<Call>>)
    requires Scan(agents, parent, log, |log|, calls).Ok?
    ensures var d := Scan(agents, parent, log, |log|, calls).value;
            |d.pending| == |d.links|
            <==> forall u :: AgentCalled(log, |log|, u) ==> KimiDesk.Answered(log, |log|, u)
  {
    hide Scan, CallOf, FindCall, AgentCalled, KimiDesk.Answered, KimiDesk.RowsRead, KimiDesk.TasksRead,
         KimiDesk.Receipts, KimiDesk.Called, KimiDesk.AnsweredTo, History;
    var n, d := |log|, Scan(agents, parent, log, |log|, calls).value;
    KimiDesk.DeskIsRead(agents, parent, log, n, calls);
    ScanPairs(agents, parent, log, n, calls);
    LinksCount(d);
    forall u
      ensures CallOf(d.pending, u).Some? <==> AgentCalled(log, n, u)
    {
      PendingCalls(agents, parent, log, n, calls, u);
    }
  }

  lemma TasksComplete(agents: map<string, Agent>, parent: string, log: seq<Entry>, calls: map<string, seq<Call>>)
    requires Scan(agents, parent, log, |log|, calls).Ok?
    ensures var n, d := |log|, Scan(agents, parent, log, |log|, calls).value;
            |d.tasks| == |d.starts| && AllDelivered(d.tasks) <==>
            && (forall id :: KimiDesk.Been(log, n, Starting, id) ==> KimiDesk.Been(log, n, Launching, id))
            && (forall id :: KimiDesk.Been(log, n, Launching, id) ==> KimiDesk.Been(log, n, Delivering, id))
  {
    hide Scan, KimiDesk.Been, KimiDesk.DeskRead, KimiDesk.TasksRead;
    var n, d := |log|, Scan(agents, parent, log, |log|, calls).value;
    forall id
      ensures id in d.tasks ==> id in d.starts
      ensures id in d.starts <==> KimiDesk.Been(log, n, Starting, id)
      ensures id in d.tasks <==> KimiDesk.Been(log, n, Launching, id)
      ensures id in d.tasks ==> (d.tasks[id].delivery.Some? <==> KimiDesk.Been(log, n, Delivering, id))
    {
      TasksStarted(agents, parent, log, calls, id);
      TaskOnDesk(agents, parent, log, calls, id);
    }
    SubsetOfSize(d.tasks.Keys, d.starts.Keys);
    assert |d.tasks| == |d.tasks.Keys| && |d.starts| == |d.starts.Keys|;
    if |d.tasks| == |d.starts| {
      assert d.tasks.Keys == d.starts.Keys;
    }
  }

  lemma TaskOnDesk(agents: map<string, Agent>, parent: string, log: seq<Entry>, calls: map<string, seq<Call>>,
                   id: string)
    requires Scan(agents, parent, log, |log|, calls).Ok?
    ensures var n, d := |log|, Scan(agents, parent, log, |log|, calls).value;
            && (id in d.starts <==> KimiDesk.Been(log, n, Starting, id))
            && (id in d.tasks <==> KimiDesk.Been(log, n, Launching, id))
            && (id in d.tasks ==> (d.tasks[id].delivery.Some? <==> KimiDesk.Been(log, n, Delivering, id)))
  {
    hide Scan, KimiDesk.Been, KimiDesk.CallsRead, KimiDesk.RowsRead, KimiDesk.At;
    KimiDesk.DeskIsRead(agents, parent, log, |log|, calls);
    assert KimiDesk.TasksRead(log, |log|, Scan(agents, parent, log, |log|, calls).value, id);
  }

  /** A parent's log whose rows are accepted is complete exactly if each of its Agent calls has its
    * receipt, each started task its launch receipt, and each launched task its delivered notice. */
  lemma ParentCompleteExactly(agents: map<string, Agent>, parent: string, log: seq<Entry>,
                              calls: map<string, seq<Call>>)
    requires Scan(agents, parent, log, |log|, calls).Ok?
    ensures var n := |log|;
            ScanParent(agents, parent, log, calls).Ok? <==>
            && (forall u :: AgentCalled(log, n, u) ==> KimiDesk.Answered(log, n, u))
            && (forall id :: KimiDesk.Been(log, n, Starting, id) ==> KimiDesk.Been(log, n, Launching, id))
            && (forall id :: KimiDesk.Been(log, n, Launching, id) ==> KimiDesk.Been(log, n, Delivering, id))
  {
    hide Scan, AgentCalled, AllDelivered, KimiDesk.Been, KimiDesk.Answered;
    CallsComplete(agents, parent, log, calls);
    TasksComplete(agents, parent, log, calls);
  }

  // ---------------------------------------------------------------- children that run in the background

  /** A child that was launched in the background calls no agent itself. */
  lemma BackgroundsDoNotDelegate(src: Source, c: string, k: nat, u: string)
    requires Named(src) && Delegate(src).Ok? && c in src.names
    requires k < |History(Delegate(src).value.calls, c)| && History(Delegate(src).value.calls, c)[k].receipt.Launched?
    ensures !AgentCalled(LogOf(src, c), |LogOf(src, c)|, u)
  {
    hide Scans, ScanParent, TurnsMatch, AgentCalled, CallOf;
    var n := |src.names| + 1;
    var s, log := Scans(src, n).value, LogOf(src, c);
    assert Answered(src, s, c) && s.desks[c].links == map[];
    var calls := DeskScanned(src, n, c);
    NothingCalled(src.agents, c, log, calls, u);
  }

  /** A complete log without links calls no agent. */
  lemma NothingCalled(agents: map<string, Agent>, parent: string, log: seq<Entry>, calls: map<string, seq<Call>>,
                      u: string)
    requires ScanParent(agents, parent, log, calls).Ok? && ScanParent(agents, parent, log, calls).value.links == map[]
    ensures !AgentCalled(log, |log|, u)
  {
    hide Scan, CallOf;
    ScanPairs(agents, parent, log, |log|, calls);
    LinksCount(Scan(agents, parent, log, |log|, calls).value);
    PendingCalls(agents, parent, log, |log|, calls, u);
  }

  /** The desk of an agent is what its log left, scanned with the calls known before it. */
  lemma {:induction false} DeskScanned(src: Source, k: nat, id: string) returns (calls: map<string, seq<Call>>)
    requires k <= |src.names| + 1 && Scans(src, k).Ok? && id in Scans(src, k).value.desks
    ensures ScanParent(src.agents, id, LogOf(src, id), calls) == Ok(Scans(src, k).value.desks[id])
  {
    hide ScanParent;
    var before := Scans(src, k - 1).value;
    if id == Id(src, k - 1) {
      calls := before.calls;
    } else {
      calls := DeskScanned(src, k - 1, id);
    }
  }

  // ---------------------------------------------------------------- shared budgets

  lemma AddWithinLimits(t: KimiThread.Thread, ctx: KimiThread.Context, line: nat, key: KimiThread.Key,
                        output: seq<Option<string>>, usage: nat)
    requires |t.turnsForCalls| > 0 && KimiThread.Add(t, ctx, line, key, output, usage).Ok?
    ensures KimiThread.Add(t, ctx, line, key, output, usage).value.events <= ctx.eventLimit
    ensures KimiThread.Add(t, ctx, line, key, output, usage).value.usageCount <= ctx.usageLimit
  {
  }

  lemma RunWithinLimits(log: seq<Entry>, ctx: KimiThread.Context, n: nat)
    requires n <= |log| && KimiThread.Run(log, ctx, n).Ok?
    ensures KimiThread.Run(log, ctx, n).value.events <= ctx.eventLimit
    ensures KimiThread.Run(log, ctx, n).value.usageCount <= ctx.usageLimit
  {
    hide KimiThread.Decide, KimiThread.Add;
    if n > 0 {
      var before := KimiThread.Run(log, ctx, n - 1).value;
      var effect := KimiThread.Decide(before, ctx, n - 1, log[n - 1]).value;
      AddWithinLimits(effect.t, ctx, n - 1, effect.key, effect.output, effect.usage);
    } else if !ctx.isChild {
      AddWithinLimits(KimiThread.EmptyThread, ctx, 0, KimiThread.StateKey, [], 0);
    }
  }

  /** The rows of the first `k` logs that carry a sample. */
  function SampleTotal(src: Source, k: nat): nat
    requires k <= |src.names| + 1
  {
    if k == 0 then 0
    else
      var log := LogOf(src, Id(src, k - 1));
      SampleTotal(src, k - 1) + |KimiCounts.SampleRows(log, |log|)|
  }

  /** Main result. The threads of an accepted session stay within the budgets together, and the
    * reported samples are the rows of all logs that carry one. */
  lemma {:induction false} ThreadsShareBudgets(src: Source, s: Scanned, k: nat, events: nat, usage: nat)
    requires k <= |src.names| + 1 && PlanThreads(src, s, k, events, usage).Ok?
    ensures var p := PlanThreads(src, s, k, events, usage).value;
            p.events <= events && p.usage <= usage && p.usage == SampleTotal(src, k)
  {
    hide KimiThread.Run, KimiCounts.SampleRows;
    if k > 0 {
      ThreadsShareBudgets(src, s, k - 1, events, usage);
      var before, log := PlanThreads(src, s, k - 1, events, usage).value, LogOf(src, Id(src, k - 1));
      var ctx := ContextOf(src, s, Id(src, k - 1), Left(events, before.events), Left(usage, before.usage));
      RunWithinLimits(log, ctx, |log|);
      KimiCounts.UsageCounted(log, ctx, |log|);
    }
  }
}
