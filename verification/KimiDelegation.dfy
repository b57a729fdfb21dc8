/** `delegation`: which Agent call started which child turn, and the life of background tasks. */
module KimiDelegation {
  import opened Base
  import opened KimiRows

  const Main := "main"

  /** The labels of a child agent: who calls it, and under which profile. */
  datatype Agent = Agent(parent: string, profile: string)

  datatype AgentCall = AgentCall(uuid: string, callId: string, args: AgentArgs)

  /** An answered call; `line` is the row of its receipt. */
  datatype Call = Call(uuid: string, args: AgentArgs, receipt: Receipt, line: nat)

  datatype Started = Started(line: nat, info: TaskInfo)

  datatype Ended = Ended(line: nat, at: nat, endedAt: nat, tail: Option<string>)

  datatype Notified = Notified(line: nat, origin: Origin, input: Option<seq<Part>>)

  datatype Task = Task(childId: string, description: string, receipt: nat,
                       terminal: Option<Ended>, notice: Option<Notified>, delivery: Option<nat>)

  /** The maps that one parent's rows fill; `calls` is shared by all parents. */
  datatype Desk = Desk(pending: seq<AgentCall>, links: map<string, string>, tasks: map<string, Task>,
                       starts: map<string, Started>, taskRows: map<nat, string>, calls: map<string, seq<Call>>)

  function History(calls: map<string, seq<Call>>, c: string): seq<Call> {
    if c in calls then calls[c] else []
  }

  // ---------------------------------------------------------------- one function per row kind

  /** The first call, in the order they were made, that `wanted` describes. */
  function FindCall(pending: seq<AgentCall>, wanted: AgentCall -> bool): (r: Option<AgentCall>)
    ensures r.Some? ==> r.value in pending && wanted(r.value)
    ensures r.None? ==> forall k :: 0 <= k < |pending| ==> !wanted(pending[k])
  {
    if pending == [] then None
    else if wanted(pending[0]) then Some(pending[0])
    else FindCall(pending[1..], wanted)
  }

  function CallOf(pending: seq<AgentCall>, uuid: string): Option<AgentCall> {
    FindCall(pending, (call: AgentCall) => call.uuid == uuid)
  }

  function OnStarted(d: Desk, parent: string, i: nat, e: Entry): Result<Desk>
    requires e.row.TaskStarted?
  {
    var id, info := e.row.taskId, e.row.info;
    var call := FindCall(d.pending, (call: AgentCall) => call.callId == info.callId && call.uuid !in d.links);
    if parent != Main || call.None? || !call.value.args.background || id in d.starts || !e.row.shape
       || info.description != call.value.args.description || info.startedAt != e.at then Err(Unsupported)
    else Ok(d.(starts := d.starts[id := Started(i, info)], taskRows := d.taskRows[i := id]))
  }

  function OnTerminated(d: Desk, i: nat, e: Entry): Result<Desk>
    requires e.row.TaskTerminated?
  {
    var id := e.row.taskId;
    if id !in d.tasks || id !in d.starts || d.tasks[id].terminal.Some? || !e.row.shape
       || e.row.endedAt < d.starts[id].info.startedAt || e.at < e.row.endedAt
          || e.row.info != d.starts[id].info then Err(Unsupported)
    else
      Ok(d.(tasks := d.tasks[id := d.tasks[id].(terminal := Some(Ended(i, e.at, e.row.endedAt, e.row.tail)))],
            taskRows := d.taskRows[i := id]))
  }

  predicate IsNotice(r: Row) {
    r.Prompt? && r.origin.kind.FromTask?
  }

  function OnNotice(d: Desk, i: nat, e: Entry): Result<Desk>
    requires IsNotice(e.row)
  {
    var id := e.row.origin.kind.taskId;
    if id !in d.tasks || d.tasks[id].terminal.None? || d.tasks[id].notice.Some? || e.at < d.tasks[id].terminal.value.at
       || e.row.notice != Some(Notice(d.tasks[id].childId, d.tasks[id].description)) then Err(Unsupported)
    else
      Ok(d.(tasks := d.tasks[id := d.tasks[id].(notice := Some(Notified(i, e.row.origin, e.row.input)))],
            taskRows := d.taskRows[i := id]))
  }

  predicate IsDelivery(r: Row) {
    r.Message? && r.origin.kind.FromTask?
  }

  function OnDelivery(d: Desk, i: nat, e: Entry): Result<Desk>
    requires IsDelivery(e.row)
  {
    var id, r := e.row.origin.kind.taskId, e.row;
    if id !in d.tasks || d.tasks[id].notice.None? || d.tasks[id].delivery.Some? || !r.userRole || r.id.Some?
      || !r.noToolCalls
       || r.origin != d.tasks[id].notice.value.origin
          || r.content != d.tasks[id].notice.value.input then Err(Unsupported)
    else Ok(d.(tasks := d.tasks[id := d.tasks[id].(delivery := Some(i))], taskRows := d.taskRows[i := id]))
  }

  predicate IsAgentCall(r: Row) {
    r.ToolCall? && r.name == "Agent"
  }

  function OnAgentCall(d: Desk, parent: string, e: Entry): Result<Desk>
    requires IsAgentCall(e.row)
  {
    if CallOf(d.pending, e.row.uuid).Some? || e.row.args.None? || (e.row.args.value.background && parent != Main) then
      Err(Unsupported)
    else Ok(d.(pending := d.pending + [AgentCall(e.row.uuid, e.row.callId, e.row.args.value)]))
  }

  /** The receipt has the form its call's arguments ask for. */
  predicate ReceiptFits(args: AgentArgs, receipt: Receipt) {
    if args.background then receipt.Launched? && args.description == Some(receipt.description) else receipt.Completed?
  }

  /** The receipt names a child of this parent, new or resumed as the arguments say. */
  predicate ChildFits(agents: map<string, Agent>, parent: string, args: AgentArgs, c: string, profile: string,
                      first: bool) {
    && c in agents && agents[c].parent == parent && agents[c].profile == profile
    && (args.profile.Some? ==> args.profile.value == profile)
    && if first then args.resume.None? else args.resume == Some(c) && args.profile.None?
  }

  function OnReceipt(d: Desk, agents: map<string, Agent>, parent: string, i: nat, e: Entry): Result<Desk>
    requires e.row.ToolResult?
  {
    var asked := CallOf(d.pending, e.row.parentUuid);
    if asked.None? then Ok(d)
    else
      var call, receipt := asked.value, e.row.receipt;
      if !ReceiptFits(call.args, receipt) || e.row.isError || e.row.callId != call.callId || call.uuid in d.links then
        Err(Unsupported)
      else
        var c := receipt.childId;
        if !ChildFits(agents, parent, call.args, c, receipt.profile, History(d.calls, c) == []) then Err(Unsupported)
        else
          var answered :=
            d.(calls := d.calls[c := History(d.calls, c) + [Call(call.uuid, call.args, receipt, i)]],
               links := d.links[call.uuid := c]);
          if receipt.Completed? then Ok(answered)
          else
            var id := receipt.taskId;
            if id in d.tasks || id !in d.starts || d.starts[id].info.agentId != c
              || d.starts[id].info.profile != receipt.profile
               || d.starts[id].info.callId != call.callId then Err(Unsupported)
            else Ok(answered.(tasks := d.tasks[id := Task(c, receipt.description, i, None, None, None)]))
  }

  /** One row of a parent; `family` says whether the session has children at all. */
  function Step(d: Desk, agents: map<string, Agent>, parent: string, i: nat, e: Entry): Result<Desk> {
    if agents != map[] && EditsHistory(e.row) then Err(Unsupported)
    else if e.row.TaskStarted? then OnStarted(d, parent, i, e)
    else if e.row.TaskTerminated? then OnTerminated(d, i, e)
    else if IsNotice(e.row) then OnNotice(d, i, e)
    else if IsDelivery(e.row) then OnDelivery(d, i, e)
    else if IsAgentCall(e.row) then OnAgentCall(d, parent, e)
    else if e.row.ToolResult? then OnReceipt(d, agents, parent, i, e)
    else Ok(d)
  }

  /** The desk after the first `n` rows of a parent's log. */
  function Scan(agents: map<string, Agent>, parent: string, log: seq<Entry>, n: nat,
                calls: map<string, seq<Call>>): Result<Desk>
    requires n <= |log|
  {
    if n == 0 then Ok(Desk([], map[], map[], map[], map[], calls))
    else var before :- Scan(agents, parent, log, n - 1, calls);
         Step(before, agents, parent, n - 1, log[n - 1])
  }

  predicate AllDelivered(tasks: map<string, Task>) {
    forall id :: id in tasks ==> tasks[id].delivery.Some?
  }

  /** What must hold when a parent's log ends. */
  predicate Closed(d: Desk) {
    |d.pending| == |d.links| && |d.tasks| == |d.starts| && AllDelivered(d.tasks)
  }

  function ScanParent(agents: map<string, Agent>, parent: string, log: seq<Entry>,
                      calls: map<string, seq<Call>>): Result<Desk> {
    var d :- Scan(agents, parent, log, |log|, calls);
    if Closed(d) then Ok(d) else Err(Format)
  }

  // ---------------------------------------------------------------- the life of a background task

  datatype Phase = Starting | Launching | Ending | Notifying | Delivering

  predicate AgentCalled(log: seq<Entry>, n: nat, uuid: string)
    requires n <= |log|
  {
    n > 0 && ((IsAgentCall(log[n - 1].row) && log[n - 1].row.uuid == uuid) || AgentCalled(log, n - 1, uuid))
  }

  /** Row `k` is about task `id`. A launch is one only if it answers an Agent call. */
  predicate Concerns(log: seq<Entry>, k: nat, phase: Phase, id: string)
    requires k < |log|
  {
    var r := log[k].row;
    match phase
    case Starting => r.TaskStarted? && r.taskId == id
    case Launching =>
      r.ToolResult? && r.receipt.Launched? && r.receipt.taskId == id && AgentCalled(log, k, r.parentUuid)
    case Ending => r.TaskTerminated? && r.taskId == id
    case Notifying => IsNotice(r) && r.origin.kind.taskId == id
    case Delivering => IsDelivery(r) && r.origin.kind.taskId == id
  }

  /** All rows of one phase of one task. */
  function Lines(log: seq<Entry>, n: nat, phase: Phase, id: string): seq<nat>
    requires n <= |log|
  {
    if n == 0 then [] else Lines(log, n - 1, phase, id) + if Concerns(log, n - 1, phase, id) then [n - 1] else []
  }

  function Once(line: Option<nat>): seq<nat> {
    if line.None? then [] else [line.value]
  }

  /** Where the desk says each phase of a task happened. */
  function Told(d: Desk, phase: Phase, id: string): Option<nat> {
    if phase.Starting? then (if id in d.starts then Some(d.starts[id].line) else None)
    else if id !in d.tasks then None
    else
      var t := d.tasks[id];
      match phase
      case Launching => Some(t.receipt)
      case Ending => if t.terminal.Some? then Some(t.terminal.value.line) else None
      case Notifying => if t.notice.Some? then Some(t.notice.value.line) else None
      case _ => t.delivery
  }

  predicate Before(earlier: Option<nat>, later: Option<nat>) {
    later.Some? ==> earlier.Some? && earlier.value < later.value
  }

  /** Each phase happens at most once, after the one before it, at the row the desk remembers. */
  ghost predicate Trace(log: seq<Entry>, n: nat, d: Desk, id: string)
    requires n <= |log|
  {
    && (forall phase :: Lines(log, n, phase, id) == Once(Told(d, phase, id)))
    && (forall phase :: Told(d, phase, id).Some? ==> Told(d, phase, id).value < n)
    && Before(Told(d, Starting, id), Told(d, Launching, id)) && Before(Told(d, Launching, id), Told(d, Ending, id))
    && Before(Told(d, Ending, id), Told(d, Notifying, id)) && Before(Told(d, Notifying, id), Told(d, Delivering, id))
  }

  predicate Clocks(log: seq<Entry>, n: nat, d: Desk, id: string)
    requires n <= |log|
  {
    && (id in d.starts ==> d.starts[id].line < n && log[d.starts[id].line].at == d.starts[id].info.startedAt)
    && (id in d.tasks && d.tasks[id].terminal.Some? ==>
          id in d.starts
          && d.starts[id].info.startedAt <= d.tasks[id].terminal.value.endedAt <= d.tasks[id].terminal.value.at
          && d.tasks[id].terminal.value.line < n
             && log[d.tasks[id].terminal.value.line].at == d.tasks[id].terminal.value.at)
    && (id in d.tasks && d.tasks[id].notice.Some? ==>
          d.tasks[id].terminal.Some? && d.tasks[id].notice.value.line < n
          && d.tasks[id].terminal.value.at <= log[d.tasks[id].notice.value.line].at)
  }

  lemma {:induction false} FindAppend(pending: seq<AgentCall>, more: AgentCall, wanted: AgentCall -> bool)
    ensures FindCall(pending + [more], wanted)
            == if FindCall(pending, wanted).Some? then FindCall(pending, wanted)
               else if wanted(more) then Some(more) else None
  {
    if pending == [] {
      assert pending + [more] == [more];
    } else {
      FindAppend(pending[1..], more, wanted);
      assert (pending + [more])[1..] == pending[1..] + [more];
    }
  }

  lemma CallOfAppend(pending: seq<AgentCall>, more: AgentCall, uuid: string)
    ensures CallOf(pending + [more], uuid)
            == if CallOf(pending, uuid).Some? then CallOf(pending, uuid)
               else if more.uuid == uuid then Some(more) else None
  {
    FindAppend(pending, more, (call: AgentCall) => call.uuid == uuid);
  }

  lemma StepPending(d: Desk, agents: map<string, Agent>, parent: string, i: nat, e: Entry)
    requires Step(d, agents, parent, i, e).Ok?
    ensures var after := Step(d, agents, parent, i, e).value;
            if IsAgentCall(e.row) then
              e.row.args.Some? && CallOf(d.pending, e.row.uuid).None?
              && after.pending == d.pending + [AgentCall(e.row.uuid, e.row.callId, e.row.args.value)]
            else after.pending == d.pending
  {
    hide FindCall, CallOf, ReceiptFits, ChildFits;
  }

  /** The pending calls are the Agent calls seen so far. */
  lemma {:induction false} PendingCalls(agents: map<string, Agent>, parent: string, log: seq<Entry>, n: nat,
                                        calls: map<string, seq<Call>>, uuid: string)
    requires n <= |log| && Scan(agents, parent, log, n, calls).Ok?
    ensures CallOf(Scan(agents, parent, log, n, calls).value.pending, uuid).Some? <==> AgentCalled(log, n, uuid)
  {
    hide Step;
    if n > 0 {
      PendingCalls(agents, parent, log, n - 1, calls, uuid);
      var d := Scan(agents, parent, log, n - 1, calls).value;
      StepPending(d, agents, parent, n - 1, log[n - 1]);
      var r := log[n - 1].row;
      if IsAgentCall(r) {
        CallOfAppend(d.pending, AgentCall(r.uuid, r.callId, r.args.value), uuid);
      }
    }
  }

  lemma ToldReceipt(d: Desk, agents: map<string, Agent>, parent: string, log: seq<Entry>, i: nat, phase: Phase,
                    id: string)
    requires i < |log| && log[i].row.ToolResult? && OnReceipt(d, agents, parent, i, log[i]).Ok?
    requires CallOf(d.pending, log[i].row.parentUuid).Some? <==> AgentCalled(log, i, log[i].row.parentUuid)
    ensures Told(OnReceipt(d, agents, parent, i, log[i]).value, phase, id)
            == if Concerns(log, i, phase, id) then Some(i) else Told(d, phase, id)
    ensures Concerns(log, i, phase, id) ==> Told(d, phase, id).None?
  {
    hide FindCall, CallOf, ChildFits, AgentCalled, History;
    var asked := CallOf(d.pending, log[i].row.parentUuid);
    if asked.Some? && log[i].row.receipt.Launched? {
      var id' := log[i].row.receipt.taskId;
      assert id' !in d.tasks;
      assert OnReceipt(d, agents, parent, i, log[i]).value.tasks.Keys == d.tasks.Keys + {id'};
    } else {
      assert OnReceipt(d, agents, parent, i, log[i]).value.tasks == d.tasks;
    }
  }

  lemma ToldTask(d: Desk, log: seq<Entry>, i: nat, phase: Phase, id: string, result: Result<Desk>)
    requires i < |log| && result.Ok?
    requires (log[i].row.TaskTerminated? && result == OnTerminated(d, i, log[i]))
             || (IsNotice(log[i].row) && result == OnNotice(d, i, log[i]))
                || (IsDelivery(log[i].row) && result == OnDelivery(d, i, log[i]))
    ensures Told(result.value, phase, id) == if Concerns(log, i, phase, id) then Some(i) else Told(d, phase, id)
    ensures Concerns(log, i, phase, id) ==> Told(d, phase, id).None?
  {
    hide AgentCalled;
  }

  /** One row sets at most one phase of one task, and never sets a phase twice. */
  lemma StepTold(d: Desk, agents: map<string, Agent>, parent: string, log: seq<Entry>, i: nat, phase: Phase, id: string)
    requires i < |log| && Step(d, agents, parent, i, log[i]).Ok?
    requires log[i].row.ToolResult? ==>
               (CallOf(d.pending, log[i].row.parentUuid).Some? <==> AgentCalled(log, i, log[i].row.parentUuid))
    ensures Told(Step(d, agents, parent, i, log[i]).value, phase, id)
            == if Concerns(log, i, phase, id) then Some(i) else Told(d, phase, id)
    ensures Concerns(log, i, phase, id) ==> Told(d, phase, id).None?
  {
    hide FindCall, CallOf, AgentCalled, OnReceipt, OnTerminated, OnNotice, OnDelivery;
    if log[i].row.ToolResult? {
      ToldReceipt(d, agents, parent, log, i, phase, id);
    } else if log[i].row.TaskTerminated? || IsNotice(log[i].row) || IsDelivery(log[i].row) {
      ToldTask(d, log, i, phase, id, Step(d, agents, parent, i, log[i]));
    }
  }

  /** A phase is set only once the phase before it was. */
  lemma StepOrder(d: Desk, agents: map<string, Agent>, parent: string, log: seq<Entry>, i: nat, id: string)
    requires i < |log| && Step(d, agents, parent, i, log[i]).Ok?
    requires log[i].row.ToolResult? ==>
               (CallOf(d.pending, log[i].row.parentUuid).Some? <==> AgentCalled(log, i, log[i].row.parentUuid))
    ensures Concerns(log, i, Launching, id) ==> Told(d, Starting, id).Some?
    ensures Concerns(log, i, Ending, id) ==> Told(d, Launching, id).Some?
    ensures Concerns(log, i, Notifying, id) ==> Told(d, Ending, id).Some?
    ensures Concerns(log, i, Delivering, id) ==> Told(d, Notifying, id).Some?
  {
    hide FindCall, CallOf, ChildFits, AgentCalled;
  }

  lemma ConcernsOne(log: seq<Entry>, i: nat, id: string, phase: Phase, other: Phase)
    requires i < |log| && Concerns(log, i, phase, id) && Concerns(log, i, other, id)
    ensures phase == other
  {
  }

  lemma TraceStep(d: Desk, agents: map<string, Agent>, parent: string, log: seq<Entry>, i: nat, id: string)
    requires i < |log| && Step(d, agents, parent, i, log[i]).Ok? && Trace(log, i, d, id)
    requires log[i].row.ToolResult? ==>
               (CallOf(d.pending, log[i].row.parentUuid).Some? <==> AgentCalled(log, i, log[i].row.parentUuid))
    ensures Trace(log, i + 1, Step(d, agents, parent, i, log[i]).value, id)
  {
    hide Step, Concerns, Told, CallOf, AgentCalled;
    var after := Step(d, agents, parent, i, log[i]).value;
    StepOrder(d, agents, parent, log, i, id);
    forall phase: Phase
      ensures Told(after, phase, id) == if Concerns(log, i, phase, id) then Some(i) else Told(d, phase, id)
      ensures Lines(log, i + 1, phase, id) == Once(Told(after, phase, id))
    {
      StepTold(d, agents, parent, log, i, phase, id);
    }
    forall phase: Phase, other: Phase | Concerns(log, i, phase, id) && Concerns(log, i, other, id)
      ensures phase == other
    {
      ConcernsOne(log, i, id, phase, other);
    }
  }

  lemma ClocksOld(log: seq<Entry>, i: nat, d: Desk, after: Desk, id: string)
    requires i < |log| && Clocks(log, i, d, id)
    requires (id in after.starts <==> id in d.starts) && (id in d.starts ==> after.starts[id] == d.starts[id])
    requires id in after.tasks ==>
               (id in d.tasks && after.tasks[id].terminal == d.tasks[id].terminal
                && after.tasks[id].notice == d.tasks[id].notice)
               || (after.tasks[id].terminal.None? && after.tasks[id].notice.None?)
    ensures Clocks(log, i + 1, after, id)
  {
  }

  lemma ClocksReceipt(d: Desk, agents: map<string, Agent>, parent: string, log: seq<Entry>, i: nat, id: string)
    requires i < |log| && log[i].row.ToolResult? && OnReceipt(d, agents, parent, i, log[i]).Ok? && Clocks(log, i, d, id)
    ensures Clocks(log, i + 1, OnReceipt(d, agents, parent, i, log[i]).value, id)
  {
    hide FindCall, CallOf, ChildFits, ReceiptFits, History, Clocks;
    ClocksOld(log, i, d, OnReceipt(d, agents, parent, i, log[i]).value, id);
  }

  lemma ClocksTask(d: Desk, parent: string, log: seq<Entry>, i: nat, id: string, result: Result<Desk>)
    requires i < |log| && result.Ok? && Clocks(log, i, d, id)
    requires (log[i].row.TaskTerminated? && result == OnTerminated(d, i, log[i]))
             || (IsNotice(log[i].row) && result == OnNotice(d, i, log[i]))
             || (log[i].row.TaskStarted? && result == OnStarted(d, parent, i, log[i]))
    ensures Clocks(log, i + 1, result.value, id)
  {
    hide FindCall;
  }

  lemma ClocksStep(d: Desk, agents: map<string, Agent>, parent: string, log: seq<Entry>, i: nat, id: string)
    requires i < |log| && Step(d, agents, parent, i, log[i]).Ok? && Clocks(log, i, d, id)
    ensures Clocks(log, i + 1, Step(d, agents, parent, i, log[i]).value, id)
  {
    hide FindCall, CallOf, OnReceipt, OnTerminated, OnNotice, OnStarted, Clocks;
    var e, after := log[i], Step(d, agents, parent, i, log[i]).value;
    if e.row.TaskStarted? || e.row.TaskTerminated? || IsNotice(e.row) {
      ClocksTask(d, parent, log, i, id, Step(d, agents, parent, i, e));
    } else if e.row.ToolResult? {
      ClocksReceipt(d, agents, parent, log, i, id);
    } else {
      ClocksOld(log, i, d, after, id);
    }
  }

  /** What every accepted prefix keeps about every task. */
  lemma {:induction false} TaskLife(agents: map<string, Agent>, parent: string, log: seq<Entry>, n: nat,
                                    calls: map<string, seq<Call>>, id: string)
    requires n <= |log| && Scan(agents, parent, log, n, calls).Ok?
    ensures Trace(log, n, Scan(agents, parent, log, n, calls).value, id)
    ensures Clocks(log, n, Scan(agents, parent, log, n, calls).value, id)
  {
    hide Step, Clocks, Trace;
    if n == 0 {
      NoTrace(log, calls, id);
    } else {
      TaskLife(agents, parent, log, n - 1, calls, id);
      var d := Scan(agents, parent, log, n - 1, calls).value;
      if log[n - 1].row.ToolResult? {
        PendingCalls(agents, parent, log, n - 1, calls, log[n - 1].row.parentUuid);
      }
      TraceStep(d, agents, parent, log, n - 1, id);
      ClocksStep(d, agents, parent, log, n - 1, id);
    }
  }

  lemma NoTrace(log: seq<Entry>, calls: map<string, seq<Call>>, id: string)
    ensures Trace(log, 0, Desk([], map[], map[], map[], map[], calls), id)
    ensures Clocks(log, 0, Desk([], map[], map[], map[], map[], calls), id)
  {
  }

  lemma SameSize<T>(small: set<T>, large: set<T>)
    requires small <= large && |small| == |large|
    ensures small == large
  {
    if small != large {
      var x :| x in large && x !in small;
      SetSize(small, large - {x});
    }
  }

  lemma {:induction false} SetSize<T>(small: set<T>, large: set<T>)
    requires small <= large
    ensures |small| <= |large|
  {
    if small != {} {
      var x :| x in small;
      SetSize(small - {x}, large - {x});
    }
  }

  /** A task's rows of one phase are exactly `[line]`. */
  predicate OnlyAt(log: seq<Entry>, phase: Phase, id: string, line: nat) {
    line < |log| && Lines(log, |log|, phase, id) == [line]
  }

  /** Main result. In an accepted log the started tasks are the launched ones, and each has
    * exactly one start, receipt, termination, notification and delivery, in this order and
    * with clocks that do not go back up to the notification. */
  lemma TaskProtocol(agents: map<string, Agent>, parent: string, log: seq<Entry>, calls: map<string, seq<Call>>,
                     id: string)
    requires ScanParent(agents, parent, log, calls).Ok?
    ensures Lines(log, |log|, Starting, id) == [] <==> Lines(log, |log|, Launching, id) == []
    ensures Lines(log, |log|, Starting, id) != [] ==>
              exists s: nat, r: nat, t: nat, p: nat, c: nat ::
                s < r < t < p < c < |log|
                && OnlyAt(log, Starting, id, s) && OnlyAt(log, Launching, id, r) && OnlyAt(log, Ending, id, t)
                && OnlyAt(log, Notifying, id, p) && OnlyAt(log, Delivering, id, c)
                && log[s].at <= log[t].at <= log[p].at
  {
    var d := Scan(agents, parent, log, |log|, calls).value;
    hide Scan, Step;
    TaskLife(agents, parent, log, |log|, calls, id);
    forall other | other in d.tasks
      ensures other in d.starts
    {
      TaskLife(agents, parent, log, |log|, calls, other);
      assert Told(d, Launching, other).Some?;
    }
    assert d.tasks.Keys <= d.starts.Keys;
    SameSize(d.tasks.Keys, d.starts.Keys);
    assert id in d.tasks <==> id in d.starts;
    if id in d.starts {
      var t := d.tasks[id];
      assert t.delivery.Some?;
      assert Told(d, Delivering, id) == t.delivery;
      assert Told(d, Notifying, id).Some?;
      assert Told(d, Ending, id).Some?;
      var s, r, q, p, c := d.starts[id].line, t.receipt, t.terminal.value.line, t.notice.value.line, t.delivery.value;
      assert OnlyAt(log, Starting, id, s) && OnlyAt(log, Launching, id, r) && OnlyAt(log, Ending, id, q);
      assert OnlyAt(log, Notifying, id, p) && OnlyAt(log, Delivering, id, c);
    }
  }

  // ---------------------------------------------------------------- calls and receipts in number

  ghost function KeysTo(links: map<string, string>, c: string): set<string> {
    set u | u in links && links[u] == c
  }

  lemma KeysToGrows(links: map<string, string>, u: string, to: string, c: string)
    requires u !in links
    ensures |KeysTo(links[u := to], c)| == |KeysTo(links, c)| + if to == c then 1 else 0
    ensures to != c ==> KeysTo(links[u := to], c) == KeysTo(links, c)
  {
    if to == c {
      assert KeysTo(links[u := to], c) == KeysTo(links, c) + {u};
    } else {
      assert KeysTo(links[u := to], c) == KeysTo(links, c);
    }
  }

  /** Which child a receipt extends, and how. */
  ghost predicate Answers(d: Desk, after: Desk, agents: map<string, Agent>, parent: string, i: nat, e: Entry) {
    && e.row.ToolResult? && CallOf(d.pending, e.row.parentUuid).Some? && e.row.parentUuid !in d.links
    && e.row.receipt != NoReceipt
    && var c, call := e.row.receipt.childId, CallOf(d.pending, e.row.parentUuid).value;
       && c in agents && agents[c].parent == parent && after.links == d.links[e.row.parentUuid := c]
       && after.calls == d.calls[c := History(d.calls, c) + [Call(call.uuid, call.args, e.row.receipt, i)]]
  }

  lemma ReceiptLinks(d: Desk, agents: map<string, Agent>, parent: string, i: nat, e: Entry)
    requires e.row.ToolResult? && OnReceipt(d, agents, parent, i, e).Ok?
    ensures var after := OnReceipt(d, agents, parent, i, e).value;
            if CallOf(d.pending, e.row.parentUuid).Some? then Answers(d, after, agents, parent, i, e) else after == d
  {
    hide FindCall, History;
    if CallOf(d.pending, e.row.parentUuid).Some? {
      assert CallOf(d.pending, e.row.parentUuid).value.uuid == e.row.parentUuid;
    }
  }

  lemma StepLinks(d: Desk, agents: map<string, Agent>, parent: string, i: nat, e: Entry)
    requires Step(d, agents, parent, i, e).Ok?
    ensures var after := Step(d, agents, parent, i, e).value;
            (after.links == d.links && after.calls == d.calls) || Answers(d, after, agents, parent, i, e)
  {
    hide FindCall, CallOf, OnReceipt, Answers;
    if e.row.ToolResult? && Step(d, agents, parent, i, e).Ok? {
      ReceiptLinks(d, agents, parent, i, e);
    }
  }

  /** A child's history grows by one call per link to it, and only its labelled parent links to it. */
  lemma {:induction false} CallsCounted(agents: map<string, Agent>, parent: string, log: seq<Entry>, n: nat,
                                        calls: map<string, seq<Call>>, c: string)
    requires n <= |log| && Scan(agents, parent, log, n, calls).Ok?
    ensures var d := Scan(agents, parent, log, n, calls).value;
            && |History(d.calls, c)| == |History(calls, c)| + |KeysTo(d.links, c)|
            && (KeysTo(d.links, c) != {} ==> c in agents && agents[c].parent == parent)
  {
    hide Step;
    if n > 0 {
      CallsCounted(agents, parent, log, n - 1, calls, c);
      var d := Scan(agents, parent, log, n - 1, calls).value;
      var e := log[n - 1];
      StepLinks(d, agents, parent, n - 1, e);
      if Answers(d, Step(d, agents, parent, n - 1, e).value, agents, parent, n - 1, e) {
        KeysToGrows(d.links, e.row.parentUuid, e.row.receipt.childId, c);
      }
    }
  }

  /** Only children are called, and a called child has a call on record. */
  lemma {:induction false} CalledAreChildren(agents: map<string, Agent>, parent: string, log: seq<Entry>, n: nat,
                                             calls: map<string, seq<Call>>, c: string)
    requires n <= |log| && Scan(agents, parent, log, n, calls).Ok?
    requires c in calls ==> c in agents && calls[c] != []
    ensures var d := Scan(agents, parent, log, n, calls).value; c in d.calls ==> c in agents && d.calls[c] != []
  {
    hide Step;
    if n > 0 {
      CalledAreChildren(agents, parent, log, n - 1, calls, c);
      StepLinks(Scan(agents, parent, log, n - 1, calls).value, agents, parent, n - 1, log[n - 1]);
    }
  }

  lemma {:induction false} LinksWereCalled(agents: map<string, Agent>, parent: string, log: seq<Entry>, n: nat,
                                           calls: map<string, seq<Call>>, u: string)
    requires n <= |log| && Scan(agents, parent, log, n, calls).Ok?
    ensures u in Scan(agents, parent, log, n, calls).value.links ==> AgentCalled(log, n, u)
  {
    hide Step;
    if n > 0 {
      LinksWereCalled(agents, parent, log, n - 1, calls, u);
      StepLinks(Scan(agents, parent, log, n - 1, calls).value, agents, parent, n - 1, log[n - 1]);
      if log[n - 1].row.ToolResult? {
        PendingCalls(agents, parent, log, n - 1, calls, log[n - 1].row.parentUuid);
      }
    }
  }

  /** In a session with children no parent edits its history. */
  lemma {:induction false} NoEdits(agents: map<string, Agent>, parent: string, log: seq<Entry>, n: nat,
                                   calls: map<string, seq<Call>>)
    requires n <= |log| && Scan(agents, parent, log, n, calls).Ok? && agents != map[]
    ensures forall k :: 0 <= k < n ==> !EditsHistory(log[k].row)
  {
    if n > 0 {
      NoEdits(agents, parent, log, n - 1, calls);
    }
    hide OnStarted, OnTerminated, OnNotice, OnDelivery, OnAgentCall, OnReceipt;
  }

  // ---------------------------------------------------------------- the child's side

  /** Where the comparison of a child's turns with its calls stands. */
  datatype Match = Match(turn: nat, active: bool, answer: string)

  const TailLimit := 4096

  function OutputTail(answer: string): string {
    if |answer| <= TailLimit then answer else answer[|answer| - TailLimit..]
  }

  /** The end of a turn agrees with what the parent was told. */
  predicate EndFits(call: Call, tasks: map<string, Task>, c: string, profile: string, answer: string, e: Entry) {
    if call.receipt.Launched? then
      && call.receipt.taskId in tasks && tasks[call.receipt.taskId].terminal.Some?
      && var ended := tasks[call.receipt.taskId].terminal.value;
         e.at <= ended.endedAt && (ended.tail.Some? ==> ended.tail.value == OutputTail(answer))
    else call.receipt == Completed(c, profile, Some(answer))
  }

  function MatchStep(expected: seq<Call>, tasks: map<string, Task>, c: string, profile: string, m: Match,
                     e: Entry): Result<Match> {
    if EditsHistory(e.row) then Err(Unsupported)
    else match e.row
      case Prompt(_, origin, input, _) =>
        if m.active || m.turn >= |expected| || origin.kind != FromSubagentTrigger
           || input != Some([TextPart(expected[m.turn].args.prompt)]) then Err(Unsupported)
        else Ok(m.(active := true, answer := ""))
      case StepBegin(_, _, _) => Ok(m.(answer := ""))
      case Content(_, _, _, _, text, _) => Ok(m.(answer := m.answer + if text.Some? then text.value else ""))
      case ToolCall(_, _, _, _, _, name, _) => if name == "AgentSwarm" then Err(Unsupported) else Ok(m)
      case TurnEnded(completed) =>
        if !m.active || m.turn >= |expected| || !completed || m.answer == ""
           || !EndFits(expected[m.turn], tasks, c, profile, m.answer, e) then Err(Format)
        else Ok(m.(active := false, turn := m.turn + 1))
      case _ => Ok(m)
  }

  function Matched(expected: seq<Call>, tasks: map<string, Task>, c: string, profile: string, log: seq<Entry>,
                   n: nat): Result<Match>
    requires n <= |log|
  {
    if n == 0 then Ok(Match(0, false, ""))
    else var before :- Matched(expected, tasks, c, profile, log, n - 1);
         MatchStep(expected, tasks, c, profile, before, log[n - 1])
  }

  predicate TurnsMatch(expected: seq<Call>, tasks: map<string, Task>, c: string, profile: string, log: seq<Entry>) {
    var m := Matched(expected, tasks, c, profile, log, |log|);
    m.Ok? && !m.value.active && m.value.turn == |expected|
  }

  /** The rows that start, and those that end, a turn of a child. */
  function Prompts(log: seq<Entry>, n: nat): seq<nat>
    requires n <= |log|
  {
    if n == 0 then [] else Prompts(log, n - 1) + if log[n - 1].row.Prompt? then [n - 1] else []
  }

  function Ends(log: seq<Entry>, n: nat): seq<nat>
    requires n <= |log|
  {
    if n == 0 then [] else Ends(log, n - 1) + if log[n - 1].row.TurnEnded? then [n - 1] else []
  }

  /** What the assistant said since the turn's last step began. */
  function Answer(log: seq<Entry>, n: nat): string
    requires n <= |log|
  {
    if n == 0 || log[n - 1].row.Prompt? || log[n - 1].row.StepBegin? then ""
    else Answer(log, n - 1)
         + if log[n - 1].row.Content? && log[n - 1].row.text.Some? then log[n - 1].row.text.value else ""
  }

  predicate PromptFits(expected: seq<Call>, log: seq<Entry>, k: nat, line: nat) {
    && k < |expected| && line < |log| && log[line].row.Prompt?
    && log[line].row.input == Some([TextPart(expected[k].args.prompt)])
  }

  predicate TurnEndFits(expected: seq<Call>, tasks: map<string, Task>, c: string, profile: string, log: seq<Entry>,
                        k: nat, line: nat) {
    k < |expected| && line < |log| && EndFits(expected[k], tasks, c, profile, Answer(log, line), log[line])
  }

  lemma {:induction false} TurnCounts(expected: seq<Call>, tasks: map<string, Task>, c: string, profile: string,
                                      log: seq<Entry>, n: nat)
    requires n <= |log| && Matched(expected, tasks, c, profile, log, n).Ok?
    ensures var m := Matched(expected, tasks, c, profile, log, n).value;
            && m.answer == Answer(log, n) && |Ends(log, n)| == m.turn
            && |Prompts(log, n)| == m.turn + (if m.active then 1 else 0)
    ensures forall k :: 0 <= k < n ==> !EditsHistory(log[k].row)
  {
    hide EndFits;
    if n > 0 {
      TurnCounts(expected, tasks, c, profile, log, n - 1);
    }
  }

  lemma {:induction false} PromptsFit(expected: seq<Call>, tasks: map<string, Task>, c: string, profile: string,
                                      log: seq<Entry>, n: nat)
    requires n <= |log| && Matched(expected, tasks, c, profile, log, n).Ok?
    ensures forall k :: 0 <= k < |Prompts(log, n)| ==>
              Prompts(log, n)[k] < n && PromptFits(expected, log, k, Prompts(log, n)[k])
  {
    hide EndFits, Answer;
    if n > 0 {
      PromptsFit(expected, tasks, c, profile, log, n - 1);
      TurnCounts(expected, tasks, c, profile, log, n - 1);
    }
  }

  lemma {:induction false} EndsFit(expected: seq<Call>, tasks: map<string, Task>, c: string, profile: string,
                                   log: seq<Entry>, n: nat)
    requires n <= |log| && Matched(expected, tasks, c, profile, log, n).Ok?
    ensures forall k :: 0 <= k < |Ends(log, n)| ==>
              Ends(log, n)[k] < n && TurnEndFits(expected, tasks, c, profile, log, k, Ends(log, n)[k])
  {
    hide EndFits, Answer;
    if n > 0 {
      EndsFit(expected, tasks, c, profile, log, n - 1);
      TurnCounts(expected, tasks, c, profile, log, n - 1);
    }
  }

  /** Prompts and ends take turns. */
  predicate Alternate(starts: seq<nat>, ends: seq<nat>) {
    && |ends| <= |starts| <= |ends| + 1
    && (forall k :: 0 <= k < |ends| ==> starts[k] < ends[k])
    && forall k :: 0 < k < |starts| ==> ends[k - 1] < starts[k]
  }

  lemma {:induction false} TurnsAlternate(expected: seq<Call>, tasks: map<string, Task>, c: string, profile: string,
                                          log: seq<Entry>, n: nat)
    requires n <= |log| && Matched(expected, tasks, c, profile, log, n).Ok?
    ensures Alternate(Prompts(log, n), Ends(log, n))
  {
    hide EndFits, Answer, PromptFits, TurnEndFits, MatchStep, Alternate;
    if n > 0 {
      TurnsAlternate(expected, tasks, c, profile, log, n - 1);
      TurnCounts(expected, tasks, c, profile, log, n - 1);
      TurnCounts(expected, tasks, c, profile, log, n);
      PromptsFit(expected, tasks, c, profile, log, n - 1);
      EndsFit(expected, tasks, c, profile, log, n - 1);
      Alternates(Prompts(log, n - 1), Ends(log, n - 1), n - 1, log[n - 1].row.Prompt?, log[n - 1].row.TurnEnded?);
    } else {
      NothingAlternates();
    }
  }

  lemma NothingAlternates()
    ensures Alternate([], [])
  {
  }

  lemma Alternates(starts: seq<nat>, ends: seq<nat>, at: nat, opens: bool, closes: bool)
    requires Alternate(starts, ends) && !(opens && closes) && (opens ==> |starts| == |ends|)
             && (closes ==> |starts| == |ends| + 1)
    requires (forall k :: 0 <= k < |starts| ==> starts[k] < at) && forall k :: 0 <= k < |ends| ==> ends[k] < at
    ensures Alternate(starts + if opens then [at] else [], ends + if closes then [at] else [])
  {
  }

  /** Main result. Turn k of a child was asked for by the k-th answered call, its answer is the
    * one that call's receipt reports, and turns do not overlap. */
  lemma TurnsAreCalls(expected: seq<Call>, tasks: map<string, Task>, c: string, profile: string, log: seq<Entry>)
    requires TurnsMatch(expected, tasks, c, profile, log)
    ensures |Prompts(log, |log|)| == |Ends(log, |log|)| == |expected|
    ensures Alternate(Prompts(log, |log|), Ends(log, |log|))
    ensures forall k :: 0 <= k < |expected| ==>
              PromptFits(expected, log, k, Prompts(log, |log|)[k])
              && TurnEndFits(expected, tasks, c, profile, log, k, Ends(log, |log|)[k])
    ensures forall k :: 0 <= k < |log| ==> !EditsHistory(log[k].row)
  {
    hide EndFits, Answer, PromptFits, TurnEndFits, MatchStep, Alternate;
    TurnCounts(expected, tasks, c, profile, log, |log|);
    PromptsFit(expected, tasks, c, profile, log, |log|);
    EndsFit(expected, tasks, c, profile, log, |log|);
    TurnsAlternate(expected, tasks, c, profile, log, |log|);
  }
}
