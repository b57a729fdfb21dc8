/** Decoded rows of a Kimi wire log. Checks that look at one row alone are made by the
  * decoder: a row that fails them is `Broken`, and refused wherever it appears. */
module KimiRows {
  import opened Base

  datatype OriginKind = FromUser | FromSubagentTrigger | FromTask(taskId: string) | Injected(known: bool)
    | FromElsewhere

  /** `code` stands for the rest of the JSON, so that origins compare as whole values. */
  datatype Origin = Origin(kind: OriginKind, code: int)

  datatype Part = TextPart(text: string) | OtherPart(code: int)

  datatype RequestKind = LoopRequest | CompactionRequest | OtherRequest

  datatype Scope = SessionScope | TurnScope | OtherScope

  /** The arguments of an Agent call. */
  datatype AgentArgs = AgentArgs(prompt: string, background: bool, resume: Option<string>, profile: Option<string>,
                                 description: Option<string>)

  /** A native receipt. `summary` is Some(answer) when the whole output is the native
    * completion text for that answer. */
  datatype Receipt =
    | NoReceipt
    | Completed(childId: string, profile: string, summary: Option<string>)
    | Launched(taskId: string, childId: string, profile: string, description: string)

  /** The immutable part of a background task's description, and its clock. */
  datatype TaskInfo = TaskInfo(agentId: string, profile: string, callId: string, description: Option<string>,
                               startedAt: nat, code: int)

  /** What the text of a completion notice says it is about. */
  datatype Notice = Notice(childId: string, description: string)

  datatype Row =
    | Metadata
    | Prompt(promptId: string, origin: Origin, input: Option<seq<Part>>, notice: Option<Notice>)
    | Message(id: Option<string>, userRole: bool, noToolCalls: bool, origin: Origin, content: Option<seq<Part>>)
    | Forked
    | Request(kind: RequestKind, stepOf: Option<(string, nat)>, model: string, alias: string)
    | UsageRecord(scope: Scope, model: string, usageOk: bool, counted: bool)
    | CompactionBegin(manual: bool)
    | ApplyCompaction(start: int, end: int, shape: bool)
    | CompactionComplete
    | Undo(count: nat)
    | StepBegin(uuid: string, turnId: string, number: nat)
    | StepEnd(uuid: string, turnId: string, number: nat, finishOk: bool, usage: Option<bool>)
    | Content(uuid: string, stepUuid: string, turnId: string, number: nat, text: Option<string>, shown: bool)
    | ToolCall(uuid: string, stepUuid: string, turnId: string, number: nat, callId: string, name: string,
               args: Option<AgentArgs>)
    | ToolResult(callId: string, parentUuid: string, isError: bool, receipt: Receipt)
    | TurnEnded(completed: bool)
    | TaskStarted(taskId: string, info: TaskInfo, shape: bool)
    | TaskTerminated(taskId: string, info: TaskInfo, endedAt: nat, shape: bool, tail: Option<string>)
    | RawOnly
    | Unknown
    | Broken

  /** `at` is the row's clock; `agentOk` says that the row belongs to its file's agent. */
  datatype Entry = Entry(row: Row, at: nat, agentOk: bool)

  predicate IsCompactionRow(r: Row) {
    r.CompactionBegin? || r.CompactionComplete?
  }

  /** History edits that a family with children does not admit. */
  predicate EditsHistory(r: Row) {
    IsCompactionRow(r) || r.Undo? || r.ApplyCompaction? || r.Forked?
  }
}
