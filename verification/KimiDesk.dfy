/** What the Kimi delegation check knows after some rows of a parent's log, and which rows it
  * accepts next, read off the rows themselves. */
module KimiDesk {
  import opened Base
  import opened KimiRows
  import opened KimiDelegation

  // ---------------------------------------------------------------- Agent calls and receipts

  /** The Agent calls of the first `n` rows, in order. */
  function Called(log: seq<Entry>, n: nat): seq<AgentCall>
    requires n <= |log|
  {
    if n == 0 then []
    else
      var r := log[n - 1].row;
      Called(log, n - 1)
      + if IsAgentCall(r) && r.args.Some? then [AgentCall(r.uuid, r.callId, r.args.value)] else []
  }

  /** Row `k` is a receipt for Agent call `uuid`. */
  predicate Receipts(log: seq<Entry>, n: nat, k: nat, uuid: string) {
    k < n <= |log| && log[k].row.ToolResult? && log[k].row.parentUuid == uuid && AgentCalled(log, k, uuid)
  }

  ghost predicate Answered(log: seq<Entry>, n: nat, uuid: string) {
    exists k: nat :: Receipts(log, n, k, uuid)
  }

  function ChildOf(r: Receipt): string {
    if r.Completed? || r.Launched? then r.childId else ""
  }

  /** The answered calls to child `c`, in the order of their receipts. */
  function AnsweredTo(log: seq<Entry>, n: nat, c: string): seq<Call>
    requires n <= |log|
  {
    if n == 0 then []
    else
      var r := log[n - 1].row;
      AnsweredTo(log, n - 1, c)
      + if r.ToolResult? && CallOf(Called(log, n - 1), r.parentUuid).Some? && !r.receipt.NoReceipt?
           && ChildOf(r.receipt) == c
        then [Call(r.parentUuid, CallOf(Called(log, n - 1), r.parentUuid).value.args, r.receipt, n - 1)] else []
  }

  ghost predicate CallsRead(log: seq<Entry>, n: nat, calls: map<string, seq<Call>>, d: Desk)
    requires n <= |log|
  {
    && d.pending == Called(log, n)
    && (forall u :: u in d.links <==> Answered(log, n, u))
    && (forall k: nat, u :: Receipts(log, n, k, u) && u in d.links ==> d.links[u] == ChildOf(log[k].row.receipt))
    && (forall c :: History(d.calls, c) == History(calls, c) + AnsweredTo(log, n, c))
  }

  lemma CallsMove(d: Desk, agents: map<string, Agent>, parent: string, i: nat, e: Entry)
    requires Step(d, agents, parent, i, e).Ok?
    ensures var after := Step(d, agents, parent, i, e).value;
            && after.pending == (if IsAgentCall(e.row) then
                                   d.pending + (if e.row.args.Some? then
                                                  [AgentCall(e.row.uuid, e.row.callId, e.row.args.value)] else [])
                                 else d.pending)
            && (IsAgentCall(e.row) ==> e.row.args.Some?)
            && if e.row.ToolResult? && CallOf(d.pending, e.row.parentUuid).Some? then
                 var c := ChildOf(e.row.receipt);
                 && !e.row.receipt.NoReceipt? && e.row.parentUuid !in d.links
                 && after.links == d.links[e.row.parentUuid := c]
                 && after.calls == d.calls[c := History(d.calls, c)
                                                + [Call(e.row.parentUuid,
                                                        CallOf(d.pending, e.row.parentUuid).value.args,
                                                        e.row.receipt, i)]]
               else after.links == d.links && after.calls == d.calls
  {
    StepPending(d, agents, parent, i, e);
    StepLinks(d, agents, parent, i, e);
    if e.row.ToolResult? {
      ReceiptLinks(d, agents, parent, i, e);
      if CallOf(d.pending, e.row.parentUuid).Some? {
        PendingUuid(d.pending, e.row.parentUuid);
      }
    }
    hide FindCall, CallOf, OnReceipt, ReceiptFits, ChildFits, History;
  }

  lemma PendingUuid(pending: seq<AgentCall>, uuid: string)
    requires CallOf(pending, uuid).Some?
    ensures CallOf(pending, uuid).value.uuid == uuid
  {
  }

  lemma AnsweredNext(log: seq<Entry>, n: nat, u: string)
    requires n < |log|
    ensures var m, r := n + 1, log[n].row;
            Answered(log, m, u) <==>
            Answered(log, n, u) || (r.ToolResult? && r.parentUuid == u && AgentCalled(log, n, u))
  {
    var m, r := n + 1, log[n].row;
    hide AgentCalled;
    if Answered(log, n, u) {
      var k: nat :| Receipts(log, n, k, u);
      assert Receipts(log, m, k, u);
    }
    assert r.ToolResult? && r.parentUuid == u && AgentCalled(log, n, u) ==> Receipts(log, m, n, u);
    if Answered(log, m, u) {
      var k: nat :| Receipts(log, m, k, u);
      assert k == n || Receipts(log, n, k, u);
    }
  }

  lemma CallsReadNext(log: seq<Entry>, n: nat, agents: map<string, Agent>, parent: string,
                      calls: map<string, seq<Call>>, d: Desk)
    requires n < |log| && CallsRead(log, n, calls, d) && Step(d, agents, parent, n, log[n]).Ok?
    requires log[n].row.ToolResult? ==>
               (CallOf(d.pending, log[n].row.parentUuid).Some? <==> AgentCalled(log, n, log[n].row.parentUuid))
    ensures CallsRead(log, n + 1, calls, Step(d, agents, parent, n, log[n]).value)
  {
    hide Step, CallOf, AgentCalled, Answered, History, AnsweredTo, Receipts;
    var m, after := n + 1, Step(d, agents, parent, n, log[n]).value;
    CallsMove(d, agents, parent, n, log[n]);
    LinksNext(log, n, d, after);
    forall c
      ensures History(after.calls, c) == History(calls, c) + AnsweredTo(log, m, c)
    {
      HistoryNext(log, n, d, after, calls, c);
    }
  }

  lemma LinksNext(log: seq<Entry>, n: nat, d: Desk, after: Desk)
    requires n < |log| && (forall u :: u in d.links <==> Answered(log, n, u))
    requires forall k: nat, u :: Receipts(log, n, k, u) && u in d.links ==> d.links[u] == ChildOf(log[k].row.receipt)
    requires var r := log[n].row;
             if r.ToolResult? && AgentCalled(log, n, r.parentUuid) then
               r.parentUuid !in d.links && after.links == d.links[r.parentUuid := ChildOf(r.receipt)]
             else after.links == d.links
    ensures var m := n + 1;
            && (forall u :: u in after.links <==> Answered(log, m, u))
            && (forall k: nat, u :: Receipts(log, m, k, u) && u in after.links ==>
                  after.links[u] == ChildOf(log[k].row.receipt))
  {
    hide AgentCalled, Answered;
    var m := n + 1;
    forall u
      ensures u in after.links <==> Answered(log, m, u)
    {
      AnsweredNext(log, n, u);
    }
    forall k: nat, u | Receipts(log, m, k, u) && u in after.links
      ensures after.links[u] == ChildOf(log[k].row.receipt)
    {
      if k < n {
        assert Receipts(log, n, k, u);
        AnsweredAt(log, n, k, u);
      }
    }
  }

  lemma HistoryNext(log: seq<Entry>, n: nat, d: Desk, after: Desk, calls: map<string, seq<Call>>, c: string)
    requires n < |log| && d.pending == Called(log, n) &&
             History(d.calls, c) == History(calls, c) + AnsweredTo(log, n, c)
    requires var r := log[n].row;
             if r.ToolResult? && CallOf(d.pending, r.parentUuid).Some? then
               !r.receipt.NoReceipt?
               && after.calls == d.calls[ChildOf(r.receipt) :=
                                         History(d.calls, ChildOf(r.receipt))
                                         + [Call(r.parentUuid, CallOf(d.pending, r.parentUuid).value.args,
                                              r.receipt, n)]]
             else after.calls == d.calls
    ensures History(after.calls, c) == History(calls, c) + AnsweredTo(log, n + 1, c)
  {
    hide CallOf;
    var m := n + 1;
    var more := AnsweredTo(log, m, c)[|AnsweredTo(log, n, c)|..];
    assert AnsweredTo(log, m, c) == AnsweredTo(log, n, c) + more;
    Assoc(History(calls, c), AnsweredTo(log, n, c), more);
    assert History(d.calls, c) + [] == History(d.calls, c);
  }

  lemma AnsweredAt(log: seq<Entry>, n: nat, k: nat, u: string)
    requires Receipts(log, n, k, u)
    ensures Answered(log, n, u)
  {
  }

  // ---------------------------------------------------------------- background tasks

  predicate At(log: seq<Entry>, n: nat, k: nat, phase: Phase, id: string) {
    k < n <= |log| && Concerns(log, k, phase, id)
  }

  ghost predicate Been(log: seq<Entry>, n: nat, phase: Phase, id: string) {
    exists k: nat :: At(log, n, k, phase, id)
  }

  /** Rows of the notification protocol, and the task each is about. */
  function TaskOf(r: Row): Option<string> {
    match r
    case TaskStarted(id, _, _) => Some(id)
    case TaskTerminated(id, _, _, _, _) => Some(id)
    case Prompt(_, origin, _, _) => if origin.kind.FromTask? then Some(origin.kind.taskId) else None
    case Message(_, _, _, origin, _) => if origin.kind.FromTask? then Some(origin.kind.taskId) else None
    case _ => None
  }

  ghost predicate TaskIs(log: seq<Entry>, n: nat, t: Task, id: string) {
    && (forall k: nat :: At(log, n, k, Launching, id) ==>
          t.childId == ChildOf(log[k].row.receipt) && t.receipt == k
          && (log[k].row.ToolResult? && log[k].row.receipt.Launched? ==>
             t.description == log[k].row.receipt.description))
    && (forall k: nat :: At(log, n, k, Ending, id) && log[k].row.TaskTerminated? ==>
          t.terminal == Some(Ended(k, log[k].at, log[k].row.endedAt, log[k].row.tail)))
    && (forall k: nat :: At(log, n, k, Notifying, id) && log[k].row.Prompt? ==>
          t.notice == Some(Notified(k, log[k].row.origin, log[k].row.input)))
    && (forall k: nat :: At(log, n, k, Delivering, id) ==> t.delivery == Some(k))
    && (t.terminal.Some? <==> Been(log, n, Ending, id)) && (t.notice.Some? <==> Been(log, n, Notifying, id))
    && (t.delivery.Some? <==> Been(log, n, Delivering, id))
  }

  ghost predicate TasksRead(log: seq<Entry>, n: nat, d: Desk, id: string)
    requires n <= |log|
  {
    && (id in d.starts <==> Been(log, n, Starting, id))
    && (forall k: nat :: At(log, n, k, Starting, id) && log[k].row.TaskStarted? && id in d.starts ==>
          d.starts[id] == Started(k, log[k].row.info))
    && (id in d.tasks <==> Been(log, n, Launching, id))
    && (id in d.tasks ==> TaskIs(log, n, d.tasks[id], id))
    && (id !in d.tasks ==> !Been(log, n, Ending, id) && !Been(log, n, Notifying, id) && !Been(log, n, Delivering, id))
  }

  ghost predicate RowsRead(log: seq<Entry>, n: nat, d: Desk)
    requires n <= |log|
  {
    forall k: nat :: (k in d.taskRows <==> k < n && TaskOf(log[k].row).Some?)
                && (k in d.taskRows ==> TaskOf(log[k].row) == Some(d.taskRows[k]))
  }

  lemma BeenNext(log: seq<Entry>, n: nat, phase: Phase, id: string)
    requires n < |log|
    ensures var m := n + 1; Been(log, m, phase, id) <==> Been(log, n, phase, id) || Concerns(log, n, phase, id)
  {
    var m := n + 1;
    hide Concerns;
    if Been(log, n, phase, id) {
      var k: nat :| At(log, n, k, phase, id);
      assert At(log, m, k, phase, id);
    }
    assert Concerns(log, n, phase, id) ==> At(log, m, n, phase, id);
    if Been(log, m, phase, id) {
      var k: nat :| At(log, m, k, phase, id);
      assert k == n || At(log, n, k, phase, id);
    }
  }

  /** How a row moves one task. */
  ghost predicate TaskMoves(d: Desk, after: Desk, log: seq<Entry>, i: nat, id: string)
    requires i < |log|
  {
    var r := log[i].row;
    && (if Concerns(log, i, Starting, id) then
          id !in d.starts && after.starts == d.starts[id := Started(i, r.info)]
        else (id in after.starts <==> id in d.starts) && (id in d.starts ==> after.starts[id] == d.starts[id]))
    && (if Concerns(log, i, Launching, id) then
          && id !in d.tasks && id in after.tasks
          && after.tasks[id] == Task(ChildOf(r.receipt), r.receipt.description, i, None, None, None)
        else if Concerns(log, i, Ending, id) then
          && id in d.tasks && d.tasks[id].terminal.None? && id in after.tasks
          && after.tasks[id] == d.tasks[id].(terminal := Some(Ended(i, log[i].at, r.endedAt, r.tail)))
        else if Concerns(log, i, Notifying, id) then
          && id in d.tasks && d.tasks[id].notice.None? && id in after.tasks
          && after.tasks[id] == d.tasks[id].(notice := Some(Notified(i, r.origin, r.input)))
        else if Concerns(log, i, Delivering, id) then
          && id in d.tasks && d.tasks[id].delivery.None? && id in after.tasks
          && after.tasks[id] == d.tasks[id].(delivery := Some(i))
        else (id in after.tasks <==> id in d.tasks) && (id in d.tasks ==> after.tasks[id] == d.tasks[id]))
    && after.taskRows == if TaskOf(r).Some? then d.taskRows[i := TaskOf(r).value] else d.taskRows
  }

  lemma ReceiptMovesTask(d: Desk, agents: map<string, Agent>, parent: string, log: seq<Entry>, i: nat, id: string)
    requires i < |log| && log[i].row.ToolResult? && OnReceipt(d, agents, parent, i, log[i]).Ok?
    requires CallOf(d.pending, log[i].row.parentUuid).Some? <==> AgentCalled(log, i, log[i].row.parentUuid)
    ensures TaskMoves(d, OnReceipt(d, agents, parent, i, log[i]).value, log, i, id)
  {
    hide FindCall, CallOf, AgentCalled, ChildFits, History;
  }

  lemma StartMovesTask(d: Desk, parent: string, log: seq<Entry>, i: nat, id: string)
    requires i < |log| && log[i].row.TaskStarted? && OnStarted(d, parent, i, log[i]).Ok?
    ensures TaskMoves(d, OnStarted(d, parent, i, log[i]).value, log, i, id)
  {
    hide FindCall, AgentCalled;
  }

  lemma LaterMovesTask(d: Desk, log: seq<Entry>, i: nat, id: string, result: Result<Desk>)
    requires i < |log| && result.Ok?
    requires (log[i].row.TaskTerminated? && result == OnTerminated(d, i, log[i]))
             || (IsNotice(log[i].row) && result == OnNotice(d, i, log[i]))
             || (IsDelivery(log[i].row) && result == OnDelivery(d, i, log[i]))
    ensures TaskMoves(d, result.value, log, i, id)
  {
    hide AgentCalled;
  }

  lemma StepMovesTask(d: Desk, agents: map<string, Agent>, parent: string, log: seq<Entry>, i: nat, id: string)
    requires i < |log| && Step(d, agents, parent, i, log[i]).Ok?
    requires log[i].row.ToolResult? ==>
               (CallOf(d.pending, log[i].row.parentUuid).Some? <==> AgentCalled(log, i, log[i].row.parentUuid))
    ensures TaskMoves(d, Step(d, agents, parent, i, log[i]).value, log, i, id)
  {
    hide FindCall, CallOf, AgentCalled, OnReceipt, OnStarted, OnTerminated, OnNotice, OnDelivery, TaskMoves,
         OnAgentCall;
    var r := log[i].row;
    if r.ToolResult? {
      ReceiptMovesTask(d, agents, parent, log, i, id);
    } else if r.TaskStarted? {
      StartMovesTask(d, parent, log, i, id);
    } else if r.TaskTerminated? || IsNotice(r) || IsDelivery(r) {
      LaterMovesTask(d, log, i, id, Step(d, agents, parent, i, log[i]));
    } else {
      OthersMoveNoTask(d, agents, parent, log, i, id);
    }
  }

  lemma OthersMoveNoTask(d: Desk, agents: map<string, Agent>, parent: string, log: seq<Entry>, i: nat, id: string)
    requires i < |log| && Step(d, agents, parent, i, log[i]).Ok?
    requires var r := log[i].row;
             !r.ToolResult? && !r.TaskStarted? && !r.TaskTerminated? && !IsNotice(r) && !IsDelivery(r)
    ensures TaskMoves(d, Step(d, agents, parent, i, log[i]).value, log, i, id)
  {
    hide CallOf, AgentCalled;
  }

  lemma TasksReadNext(log: seq<Entry>, n: nat, d: Desk, after: Desk, id: string)
    requires n < |log| && TasksRead(log, n, d, id) && TaskMoves(d, after, log, n, id)
    ensures TasksRead(log, n + 1, after, id)
  {
    hide Been, Concerns;
    var m := n + 1;
    forall phase: Phase
      ensures Been(log, m, phase, id) <==> Been(log, n, phase, id) || Concerns(log, n, phase, id)
    {
      BeenNext(log, n, phase, id);
    }
    forall k: nat, phase: Phase
      ensures At(log, m, k, phase, id) <==> At(log, n, k, phase, id) || (k == n && Concerns(log, n, phase, id))
      ensures At(log, n, k, phase, id) ==> Been(log, n, phase, id)
    {
      BeenAt(log, n, k, phase, id);
    }
    forall phase: Phase, other: Phase | Concerns(log, n, phase, id) && Concerns(log, n, other, id)
      ensures phase == other
    {
      ConcernsOne(log, n, id, phase, other);
    }
    hide At;
  }

  lemma BeenAt(log: seq<Entry>, n: nat, k: nat, phase: Phase, id: string)
    ensures At(log, n, k, phase, id) ==> Been(log, n, phase, id)
  {
  }

  // ---------------------------------------------------------------- the desk after n rows

  ghost predicate DeskRead(log: seq<Entry>, n: nat, calls: map<string, seq<Call>>, d: Desk)
    requires n <= |log|
  {
    CallsRead(log, n, calls, d) && RowsRead(log, n, d) && forall id :: TasksRead(log, n, d, id)
  }

  lemma NothingRead(log: seq<Entry>, calls: map<string, seq<Call>>)
    ensures DeskRead(log, 0, calls, Desk([], map[], map[], map[], map[], calls))
  {
    forall c
      ensures History(calls, c) == History(calls, c) + AnsweredTo(log, 0, c)
    {
    }
  }

  lemma RowsReadNext(log: seq<Entry>, n: nat, d: Desk, after: Desk)
    requires n < |log| && RowsRead(log, n, d)
    requires after.taskRows
             == if TaskOf(log[n].row).Some? then d.taskRows[n := TaskOf(log[n].row).value] else d.taskRows
    ensures RowsRead(log, n + 1, after)
  {
    hide TaskOf;
  }

  /** After every accepted prefix of a parent's log the desk holds exactly what its rows say: the
    * Agent calls, which child each receipt named, the life of every task and the rows of the
    * notification protocol. */
  lemma {:induction false} DeskIsRead(agents: map<string, Agent>, parent: string, log: seq<Entry>, n: nat,
                                      calls: map<string, seq<Call>>)
    requires n <= |log| && Scan(agents, parent, log, n, calls).Ok?
    ensures DeskRead(log, n, calls, Scan(agents, parent, log, n, calls).value)
  {
    hide Step, CallsRead, RowsRead, TasksRead, TaskMoves, CallOf, AgentCalled;
    if n == 0 {
      NothingRead(log, calls);
    } else {
      DeskIsRead(agents, parent, log, n - 1, calls);
      var d, after := Scan(agents, parent, log, n - 1, calls).value, Scan(agents, parent, log, n, calls).value;
      if log[n - 1].row.ToolResult? {
        PendingCalls(agents, parent, log, n - 1, calls, log[n - 1].row.parentUuid);
      }
      CallsReadNext(log, n - 1, agents, parent, calls, d);
      forall id
        ensures TasksRead(log, n, after, id)
      {
        StepMovesTask(d, agents, parent, log, n - 1, id);
        TasksReadNext(log, n - 1, d, after, id);
      }
      StepMovesTask(d, agents, parent, log, n - 1, "");
      RowsMoved(d, after, log, n - 1);
      RowsReadNext(log, n - 1, d, after);
    }
  }

  lemma RowsMoved(d: Desk, after: Desk, log: seq<Entry>, i: nat)
    requires i < |log| && TaskMoves(d, after, log, i, "")
    ensures after.taskRows
            == if TaskOf(log[i].row).Some? then d.taskRows[i := TaskOf(log[i].row).value] else d.taskRows
  {
  }

  // ---------------------------------------------------------------- the rows that may come next

  /** The first Agent call with this id that has no receipt. */
  ghost predicate FirstOpen(log: seq<Entry>, n: nat, callId: string, j: nat)
    requires n <= |log|
  {
    var called := Called(log, n);
    && j < |called| && called[j].callId == callId && !Answered(log, n, called[j].uuid)
    && forall i :: 0 <= i < j && called[i].callId == callId ==> Answered(log, n, called[i].uuid)
  }

  /** A task starts for the first open background call with its call id, and says what it says. */
  ghost predicate StartFits(log: seq<Entry>, n: nat, parent: string)
    requires n < |log| && log[n].row.TaskStarted?
  {
    var r := log[n].row;
    && parent == Main && r.shape && r.info.startedAt == log[n].at && !Been(log, n, Starting, r.taskId)
    && exists j: nat :: FirstOpen(log, n, r.info.callId, j) && Called(log, n)[j].args.background
                        && Called(log, n)[j].args.description == r.info.description
  }

  /** A launched task ends as it was started, and not before. */
  ghost predicate EndingFits(log: seq<Entry>, n: nat)
    requires n < |log| && log[n].row.TaskTerminated?
  {
    var r := log[n].row;
    && r.shape && r.endedAt <= log[n].at && Been(log, n, Launching, r.taskId) && !Been(log, n, Ending, r.taskId)
    && exists k: nat :: At(log, n, k, Starting, r.taskId) && log[k].row.TaskStarted?
                        && log[k].row.info == r.info && r.info.startedAt <= r.endedAt
  }

  /** The notification comes after the termination and is about the launched child. */
  ghost predicate NoticeFits(log: seq<Entry>, n: nat)
    requires n < |log| && IsNotice(log[n].row)
  {
    var r, id := log[n].row, log[n].row.origin.kind.taskId;
    && !Been(log, n, Notifying, id)
    && (exists k: nat :: At(log, n, k, Ending, id) && log[k].at <= log[n].at)
    && exists k: nat :: At(log, n, k, Launching, id) && log[k].row.ToolResult? && log[k].row.receipt.Launched?
                        && r.notice == Some(Notice(log[k].row.receipt.childId, log[k].row.receipt.description))
  }

  /** The delivery repeats the notification, once. */
  ghost predicate DeliveryFits(log: seq<Entry>, n: nat)
    requires n < |log| && IsDelivery(log[n].row)
  {
    var r, id := log[n].row, log[n].row.origin.kind.taskId;
    && r.userRole && r.id.None? && r.noToolCalls && !Been(log, n, Delivering, id)
    && exists k: nat :: At(log, n, k, Notifying, id) && log[k].row.Prompt?
                        && log[k].row.origin == r.origin && log[k].row.input == r.content
  }

  ghost predicate AgentCallFits(log: seq<Entry>, n: nat, parent: string)
    requires n < |log| && IsAgentCall(log[n].row)
  {
    var r := log[n].row;
    r.args.Some? && !AgentCalled(log, n, r.uuid) && (r.args.value.background ==> parent == Main)
  }

  /** The receipt of an Agent call: it has the form that was asked for and names a child of this
    * parent; a launch names a started task of that child and call. */
  ghost predicate ReceiptAccepted(log: seq<Entry>, n: nat, agents: map<string, Agent>, parent: string,
                                  calls: map<string, seq<Call>>, call: AgentCall)
    requires n < |log| && log[n].row.ToolResult?
  {
    var r, args := log[n].row, call.args;
    && !r.isError && r.callId == call.callId && !Answered(log, n, call.uuid)
    && (if args.background then r.receipt.Launched? && args.description == Some(r.receipt.description)
        else r.receipt.Completed?)
    && var c, profile := r.receipt.childId, r.receipt.profile;
       && c in agents && agents[c] == Agent(parent, profile) && (args.profile.Some? ==> args.profile.value == profile)
       && (if History(calls, c) + AnsweredTo(log, n, c) == [] then args.resume.None?
           else args.resume == Some(c) && args.profile.None?)
       && (r.receipt.Launched? ==>
             && !Been(log, n, Launching, r.receipt.taskId)
             && exists k: nat :: At(log, n, k, Starting, r.receipt.taskId) && log[k].row.TaskStarted?
                                 && log[k].row.info.agentId == c && log[k].row.info.profile == profile
                                 && log[k].row.info.callId == r.callId)
  }

  ghost predicate Follows(log: seq<Entry>, n: nat, agents: map<string, Agent>, parent: string,
                          calls: map<string, seq<Call>>)
    requires n < |log|
  {
    var r := log[n].row;
    && (agents != map[] ==> !EditsHistory(r))
    && (r.TaskStarted? ==> StartFits(log, n, parent)) && (r.TaskTerminated? ==> EndingFits(log, n))
    && (IsNotice(r) ==> NoticeFits(log, n)) && (IsDelivery(r) ==> DeliveryFits(log, n))
    && (IsAgentCall(r) ==> AgentCallFits(log, n, parent))
    && (r.ToolResult? && CallOf(Called(log, n), r.parentUuid).Some? ==>
          ReceiptAccepted(log, n, agents, parent, calls, CallOf(Called(log, n), r.parentUuid).value))
  }

  lemma {:induction false} FirstFound(pending: seq<AgentCall>, wanted: AgentCall -> bool)
    ensures var f := FindCall(pending, wanted);
            && (f.Some? ==> exists j: nat :: j < |pending| && pending[j] == f.value && wanted(pending[j])
                                             && forall i :: 0 <= i < j ==> !wanted(pending[i]))
            && (f.None? ==> forall i :: 0 <= i < |pending| ==> !wanted(pending[i]))
  {
    if pending != [] && !wanted(pending[0]) {
      FirstFound(pending[1..], wanted);
      var f := FindCall(pending[1..], wanted);
      if f.Some? {
        var j: nat :| j < |pending[1..]| && pending[1..][j] == f.value && wanted(pending[1..][j])
                      && forall i :: 0 <= i < j ==> !wanted(pending[1..][i]);
        assert pending[j + 1] == f.value;
        assert forall i :: 0 < i < j + 1 ==> pending[i] == pending[1..][i - 1];
      } else {
        assert forall i :: 0 < i < |pending| ==> pending[i] == pending[1..][i - 1];
      }
    }
  }

  lemma StartExactly(log: seq<Entry>, n: nat, parent: string, calls: map<string, seq<Call>>, d: Desk)
    requires n < |log| && log[n].row.TaskStarted? && DeskRead(log, n, calls, d)
    ensures OnStarted(d, parent, n, log[n]).Ok? <==> StartFits(log, n, parent)
  {
    var info := log[n].row.info;
    assert TasksRead(log, n, d, log[n].row.taskId);
    var wanted := (call: AgentCall) => call.callId == info.callId && call.uuid !in d.links;
    FirstFound(d.pending, wanted);
    var f := FindCall(d.pending, wanted);
    hide FindCall, Answered, Been, TasksRead, AnsweredTo;
    if f.Some? {
      var j: nat :| j < |d.pending| && d.pending[j] == f.value && wanted(d.pending[j])
                    && forall i :: 0 <= i < j ==> !wanted(d.pending[i]);
      assert FirstOpen(log, n, info.callId, j);
      forall i: nat | FirstOpen(log, n, info.callId, i)
        ensures i == j
      {
        OneOpen(log, n, info.callId, i, j);
      }
    }
  }

  lemma OneOpen(log: seq<Entry>, n: nat, callId: string, i: nat, j: nat)
    requires n <= |log| && FirstOpen(log, n, callId, i) && FirstOpen(log, n, callId, j)
    ensures i == j
  {
    hide Answered;
  }

  lemma EndingExactly(log: seq<Entry>, n: nat, d: Desk)
    requires n < |log| && log[n].row.TaskTerminated? && TasksRead(log, n, d, log[n].row.taskId)
    ensures OnTerminated(d, n, log[n]).Ok? <==> EndingFits(log, n)
  {
    var id := log[n].row.taskId;
    if Been(log, n, Starting, id) {
      var k: nat :| At(log, n, k, Starting, id);
    }
  }

  lemma NoticeExactly(log: seq<Entry>, n: nat, d: Desk)
    requires n < |log| && IsNotice(log[n].row) && TasksRead(log, n, d, log[n].row.origin.kind.taskId)
    ensures OnNotice(d, n, log[n]).Ok? <==> NoticeFits(log, n)
  {
    var id := log[n].row.origin.kind.taskId;
    if Been(log, n, Launching, id) {
      var k: nat :| At(log, n, k, Launching, id);
    }
    if Been(log, n, Ending, id) {
      var k: nat :| At(log, n, k, Ending, id);
    }
    hide AgentCalled;
  }

  lemma DeliveryExactly(log: seq<Entry>, n: nat, d: Desk)
    requires n < |log| && IsDelivery(log[n].row) && TasksRead(log, n, d, log[n].row.origin.kind.taskId)
    ensures OnDelivery(d, n, log[n]).Ok? <==> DeliveryFits(log, n)
  {
    var id := log[n].row.origin.kind.taskId;
    if Been(log, n, Notifying, id) {
      var k: nat :| At(log, n, k, Notifying, id);
    }
    hide AgentCalled;
  }

  lemma ReceiptExactly(log: seq<Entry>, n: nat, agents: map<string, Agent>, parent: string,
                       calls: map<string, seq<Call>>, d: Desk)
    requires n < |log| && log[n].row.ToolResult? && DeskRead(log, n, calls, d)
    requires CallOf(d.pending, log[n].row.parentUuid).Some?
    ensures OnReceipt(d, agents, parent, n, log[n]).Ok? <==>
            ReceiptAccepted(log, n, agents, parent, calls, CallOf(d.pending, log[n].row.parentUuid).value)
  {
    var r := log[n].row;
    PendingUuid(d.pending, r.parentUuid);
    hide CallOf, Answered, AgentCalled, AnsweredTo;
    if r.receipt.Launched? {
      var id := r.receipt.taskId;
      assert TasksRead(log, n, d, id);
      if Been(log, n, Starting, id) {
        var k: nat :| At(log, n, k, Starting, id);
      }
    }
    hide TaskIs, History;
  }

  /** A row is accepted behind an accepted prefix exactly if it follows it. */
  lemma RowTakenExactly(agents: map<string, Agent>, parent: string, log: seq<Entry>, n: nat,
                        calls: map<string, seq<Call>>)
    requires n < |log| && Scan(agents, parent, log, n, calls).Ok?
    ensures Scan(agents, parent, log, n + 1, calls).Ok? <==> Follows(log, n, agents, parent, calls)
  {
    hide OnStarted, OnTerminated, OnNotice, OnDelivery, OnReceipt, StartFits, EndingFits, NoticeFits, DeliveryFits,
         ReceiptAccepted, TasksRead, CallOf, FindCall, AgentCalled, EditsHistory, RowsRead;
    DeskIsRead(agents, parent, log, n, calls);
    var d, r := Scan(agents, parent, log, n, calls).value, log[n].row;
    if r.TaskStarted? {
      StartExactly(log, n, parent, calls, d);
    } else if r.TaskTerminated? {
      EndingExactly(log, n, d);
    } else if IsNotice(r) {
      NoticeExactly(log, n, d);
    } else if IsDelivery(r) {
      DeliveryExactly(log, n, d);
    } else if IsAgentCall(r) {
      PendingCalls(agents, parent, log, n, calls, r.uuid);
    } else if r.ToolResult? && CallOf(d.pending, r.parentUuid).Some? {
      ReceiptExactly(log, n, agents, parent, calls, d);
    } else if r.ToolResult? {
      NoReceipt(d, agents, parent, n, log[n]);
    }
  }

  lemma NoReceipt(d: Desk, agents: map<string, Agent>, parent: string, i: nat, e: Entry)
    requires e.row.ToolResult? && CallOf(d.pending, e.row.parentUuid).None?
    ensures OnReceipt(d, agents, parent, i, e) == Ok(d)
  {
  }
}
