/** The Claude record normaliser: how one decoded record is classified against the
  * history admitted so far, and what admitting it changes.
  *
  * A `Record` is a decoded JSONL row. Checks that look at the row alone (field shapes,
  * provider wording) are booleans of the row; every check that looks at the history is
  * spelled out below.
  */
module ClaudeRecords {
  import opened Base

  /** `record.uuid`: missing, present but not an admissible identity, or usable. */
  datatype Identity = Absent | Invalid(text: string) | Valid(id: string)

  /** `record.parentUuid`: undefined, null or a string. */
  datatype Parent = Missing | Null | Named(id: string)

  datatype RecordType = User | Assistant | Attachment | LastPrompt | OtherType

  datatype Call = Call(uuid: string, name: string, path: Option<string>, background: bool)

  datatype Block =
    | TextBlock(command: bool, chunks: nat)
    | ThinkingBlock(bodies: seq<bool>)
    | ToolUseBlock(id: string, name: string, path: Option<string>, background: bool)
    | ToolResultBlock(callId: Option<string>, isError: bool)
    | OtherBlock

  /** `content` is None when it is neither text nor an array. */
  datatype Message = Message(role: RecordType, id: Option<string>, model: string, content: Option<seq<Block>>)

  datatype ControlKind = Ordinary | Boundary | Summary | File | Meta | Caveat | Command | Stdout | Synthetic

  /** A compaction boundary; `shape` stands for its row-local checks. */
  datatype BoundaryFacts = BoundaryFacts(shape: bool, logicalParent: Option<string>, ids: seq<string>,
                                         all: seq<string>, anchor: string, manual: bool)

  /** A Read receipt; `textual` stands for its row-local checks. */
  datatype Receipt = Receipt(textual: bool, filePath: Option<string>)

  datatype Selector = Selector(shape: bool, explicit: bool, leaf: Parent)

  datatype AttachmentFacts = FileContent | Reminder | BadAttachment

  /** Facts used only between a compaction summary and the next conversation record. */
  datatype ResumeFacts = ResumeFacts(attachment: AttachmentFacts, localCommand: bool, commandShape: bool,
                                     commandKind: Option<ControlKind>, syntheticShape: bool)

  datatype Record = Record(
    kind: RecordType, uuid: Identity, parent: Parent,
    sessionOk: bool, threadOk: bool, bookkeeping: bool, creationOk: bool,
    isMeta: bool, notification: bool, notificationOk: bool,
    slug: Identity, boundary: Option<BoundaryFacts>,
    logicalParent: bool, summaryFlags: bool, summaryShape: bool, promptId: string,
    resume: ResumeFacts, synthetic: bool,
    message: Option<Message>, assistantUuid: Option<string>, receipt: Option<Receipt>,
    stamped: bool, usage: Option<string>, selector: Option<Selector>, body: int)

  type Position = nat   // the index of a physical line; byte offsets grow with it

  datatype Indexed = Indexed(first: Position, value: Position, kind: ControlKind)

  datatype Stage =
    | Copies
    | AwaitSummary(boundary: string, summary: string, manual: bool, slug: Option<string>)
    | Resume(boundary: string, summary: string, manual: bool, slug: Option<string>, promptId: string)

  datatype Response = Response(id: string, model: string, pending: map<string, Call>)

  /** `Normalization`: the history admitted so far on the current path. */
  datatype Norm = Norm(recordOrder: seq<string>, records: map<string, Indexed>, calls: map<string, Call>,
                       leaf: Option<string>, order: nat, continuation: Option<Stage>, response: Option<Response>)

  const EmptyNorm := Norm([], map[], map[], None, 0, None, None)

  datatype Action = Action(rawOnly: bool, copy: bool, kind: ControlKind, continuation: Option<Stage>)

  datatype Line = Blank | Row(record: Record)

  function Blocks(r: Record): seq<Block> {
    if r.message.Some? && r.message.value.content.Some? then r.message.value.content.value else []
  }

  function ToolResults(blocks: seq<Block>): seq<Block> {
    if blocks == [] then []
    else (if blocks[0].ToolResultBlock? then [blocks[0]] else []) + ToolResults(blocks[1..])
  }

  function Results(r: Record): seq<Block> {
    ToolResults(Blocks(r))
  }

  predicate Identified(r: Record) {
    !r.uuid.Absent? || r.kind == User || r.kind == Assistant || r.boundary.Some? || r.summaryFlags
  }

  predicate AtLeaf(parent: Parent, leaf: Option<string>) {
    match leaf
    case None => parent == Null
    case Some(u) => parent == Named(u)
  }

  function SourceBoundary(r: Record, ctx: Norm): Result<Stage>
    requires r.boundary.Some? && r.uuid.Valid?
  {
    var b := r.boundary.value;
    if !b.shape || ctx.leaf.None? || b.logicalParent != ctx.leaf
       || (exists id :: id in b.ids && id !in ctx.records) || (exists id :: id in b.all && id !in ctx.records)
       || b.anchor in ctx.records || r.slug.Invalid? then Err(Unsupported)
    else Ok(AwaitSummary(r.uuid.id, b.anchor, b.manual, if r.slug.Valid? then Some(r.slug.id) else None))
  }

  /** One tool result of a user record belongs to an open call and follows it. */
  predicate ResultAdmissible(r: Record, b: Block, ctx: Norm)
    requires b.ToolResultBlock? && ctx.response.Some?
  {
    var pending := ctx.response.value.pending;
    && b.callId.Some? && b.callId.value in pending
    && var call := pending[b.callId.value];
       && (r.assistantUuid.Some? ==> r.assistantUuid.value == call.uuid)
       && (AtLeaf(r.parent, ctx.leaf) || r.parent == Named(call.uuid))
       && (call.name == "Read" && call.path.Some? && !b.isError && r.receipt.Some? ==>
             r.receipt.value.textual && r.receipt.value.filePath == call.path)
  }

  predicate OrdinaryParent(r: Record, ctx: Norm) {
    var results := Results(r);
    if results == [] then AtLeaf(r.parent, ctx.leaf)
    else
      && r.kind == User && ctx.response.Some?
      && (forall i, j :: 0 <= i < j < |results| && results[i].ToolResultBlock? && results[j].ToolResultBlock? ==>
            results[i].callId != results[j].callId)
      && (forall i :: 0 <= i < |results| && results[i].ToolResultBlock? ==> ResultAdmissible(r, results[i], ctx))
  }

  /** A replayed row must equal the committed one; a replay may add a slug, never change one. */
  predicate SameReplay(r: Record, original: Record) {
    if !original.slug.Absent? then r == original
    else if !r.slug.Absent? then r.slug.Valid? && r.(slug := Absent) == original
    else r == original
  }

  predicate IsRow(file: seq<Line>, at: Position) {
    at < |file| && file[at].Row?
  }

  /** The decision for one record; it only reads the history. */
  function Normalize(file: seq<Line>, r: Record, ctx: Norm): Result<Action> {
    var stage := ctx.continuation;
    if !r.sessionOk || (Identified(r) && (!r.threadOk || !r.uuid.Valid?)) then Err(Unsupported)
    else if r.uuid.Absent? then
      if stage.Some? && !r.bookkeeping then Err(Unsupported) else Ok(Action(true, false, Ordinary, stage))
    else if r.uuid.id in ctx.records then
      var indexed := ctx.records[r.uuid.id];
      if stage.Some? && stage.value.AwaitSummary? then Err(Unsupported)
      else if !IsRow(file, indexed.value) then Err(Changed)
      else if !SameReplay(r, file[indexed.value].record) then Err(Unsupported)
      else Ok(Action(true, true, indexed.kind, Some(Copies)))
    else if r.boundary.Some? then
      if stage.Some? && stage.value.AwaitSummary? then Err(Unsupported)
      else var next :- SourceBoundary(r, ctx);
           Ok(Action(true, false, Boundary, Some(next)))
    else if stage == Some(Copies) then Err(Unsupported)
    else if stage.Some? && stage.value.AwaitSummary? then
      var s := stage.value;
      if !r.summaryShape || r.uuid.id != s.summary || r.parent != Named(s.boundary)
         || (s.slug.Some? && r.slug != Valid(s.slug.value)) then Err(Unsupported)
      else Ok(Action(true, false, Summary, Some(Resume(s.boundary, s.summary, s.manual, s.slug, r.promptId))))
    else if r.logicalParent || r.summaryFlags || !OrdinaryParent(r, ctx) then Err(Unsupported)
    else if stage.Some? && r.kind == Attachment then
      match r.resume.attachment
      case FileContent => Ok(Action(true, false, File, stage))
      case Reminder => Ok(Action(true, false, Ordinary, stage))
      case BadAttachment => Err(Unsupported)
    else if stage.Some? && (r.isMeta || (r.kind == User && r.resume.localCommand)) then
      if !r.resume.commandShape || r.resume.commandKind.None? then Err(Unsupported)
      else Ok(Action(true, false, r.resume.commandKind.value, stage))
    else if r.synthetic then
      if stage.Some? && r.resume.syntheticShape && ctx.leaf.Some? && ctx.leaf.value in ctx.records
         && ctx.records[ctx.leaf.value].kind in {Stdout, Meta}
      then Ok(Action(true, false, Synthetic, stage)) else Err(Unsupported)
    else
      var ordinary := r.kind == User || r.kind == Assistant;
      if ordinary && (r.message.None? || r.message.value.role != r.kind) then Err(Unsupported)
      else Ok(Action(r.isMeta, false, Ordinary, if ordinary && !r.isMeta then None else stage))
  }

  /** Registers the tool uses of an assistant record; an id may be used once in a session. */
  function AddCalls(uuid: string, blocks: seq<Block>, calls: map<string, Call>, pending: map<string, Call>)
    : Result<(map<string, Call>, map<string, Call>)>
  {
    if blocks == [] then Ok((calls, pending))
    else match blocks[0]
      case ToolUseBlock(id, name, path, background) =>
        if id in calls then Err(Unsupported)
        else var call := Call(uuid, name, path, background);
             AddCalls(uuid, blocks[1..], calls[id := call], pending[id := call])
      case _ => AddCalls(uuid, blocks[1..], calls, pending)
  }

  function CloseCalls(results: seq<Block>, pending: map<string, Call>): map<string, Call> {
    if results == [] then pending
    else CloseCalls(results[1..],
                    if results[0].ToolResultBlock? && results[0].callId.Some? then pending - {results[0].callId.value}
                    else pending)
  }

  /** Where the record is entered, before its content is looked at. */
  function Enter(ctx: Norm, r: Record, at: Position, a: Action): Norm {
    var listed :=
      if !r.uuid.Valid? then ctx
      else if a.copy then
        if r.uuid.id in ctx.records
        then ctx.(records := ctx.records[r.uuid.id := ctx.records[r.uuid.id].(value := at)]) else ctx
      else ctx.(records := ctx.records[r.uuid.id := Indexed(at, at, a.kind)], leaf := Some(r.uuid.id),
                recordOrder := if r.uuid.id in ctx.records then ctx.recordOrder else ctx.recordOrder + [r.uuid.id]);
    listed.(continuation := a.continuation, order := ctx.order + 1,
            response := if a.kind == Boundary then None else ctx.response)
  }

  /** The response an assistant record continues, or the new one it opens. */
  function OpenResponse(current: Option<Response>, id: string, model: string): Response {
    if current.Some? && current.value.id == id && current.value.model == model then current.value
    else Response(id, model, map[])
  }

  function Commit(ctx: Norm, r: Record, at: Position, a: Action): Result<Norm> {
    var entered := Enter(ctx, r, at, a);
    if a.rawOnly then Ok(entered)
    else if r.kind == Assistant && r.message.Some? && r.uuid.Valid? then
      var m := r.message.value;
      var open := OpenResponse(entered.response, if m.id.Some? then m.id.value else r.uuid.id, m.model);
      var added :- AddCalls(r.uuid.id, Blocks(r), entered.calls, open.pending);
      Ok(entered.(calls := added.0, response := Some(open.(pending := added.1))))
    else if r.kind == User then
      var results := Results(r);
      Ok(entered.(response :=
        if results == [] || entered.response.None? then None
        else Some(entered.response.value.(pending := CloseCalls(results, entered.response.value.pending)))))
    else Ok(entered)
  }

  /** One admitted record: decide, then commit. */
  function Admit(file: seq<Line>, ctx: Norm, r: Record, at: Position): Result<Norm> {
    var a :- Normalize(file, r, ctx);
    Commit(ctx, r, at, a)
  }

  /** The source's mutable `Normalization` object. */
  class Normalization {
    var recordOrder: seq<string>
    var records: map<string, Indexed>
    var calls: map<string, Call>
    var leaf: Option<string>
    var order: nat
    var continuation: Option<Stage>
    var response: Option<Response>

    function Value(): Norm
      reads this
    {
      Norm(recordOrder, records, calls, leaf, order, continuation, response)
    }

    constructor ()
      ensures Value() == EmptyNorm
    {
      recordOrder, records, calls, leaf := [], map[], map[], None;
      order, continuation, response := 0, None, None;
    }

    /** Lists the record and moves the leaf. */
    method EnterRecord(r: Record, at: Position, a: Action)
      modifies this
      ensures Value() == Enter(old(Value()), r, at, a)
    {
      if r.uuid.Valid? {
        if a.copy {
          if r.uuid.id in records {
            records := records[r.uuid.id := records[r.uuid.id].(value := at)];
          }
        } else {
          if r.uuid.id !in records {
            recordOrder := recordOrder + [r.uuid.id];
          }
          records := records[r.uuid.id := Indexed(at, at, a.kind)];
          leaf := Some(r.uuid.id);
        }
      }
      continuation := a.continuation;
      order := order + 1;
      if a.kind == Boundary {
        response := None;
      }
    }

    method RegisterCalls(uuid: string, blocks: seq<Block>) returns (ok: bool)
      requires response.Some?
      modifies this`calls, this`response
      ensures response.Some?
      ensures var spec := AddCalls(uuid, blocks, old(calls), old(response).value.pending);
              (ok <==> spec.Ok?) && (ok ==> spec.value == (calls, response.value.pending))
      ensures response.value.id == old(response).value.id && response.value.model == old(response).value.model
    {
      ok := true;
      var i := 0;
      while i < |blocks|
        invariant 0 <= i <= |blocks|
        invariant response.Some?
        invariant response.value.id == old(response).value.id && response.value.model == old(response).value.model
        invariant AddCalls(uuid, blocks, old(calls), old(response).value.pending)
                  == AddCalls(uuid, blocks[i..], calls, response.value.pending)
      {
        if blocks[i].ToolUseBlock? {
          var b := blocks[i];
          if b.id in calls {
            return false;
          }
          var call := Call(uuid, b.name, b.path, b.background);
          calls := calls[b.id := call];
          response := Some(response.value.(pending := response.value.pending[b.id := call]));
        }
        assert blocks[i..][1..] == blocks[i + 1..];
        i := i + 1;
      }
      assert blocks[i..] == [];
    }

    method CloseResults(results: seq<Block>)
      requires response.Some?
      modifies this`response
      ensures response == Some(old(response).value.(pending := CloseCalls(results, old(response).value.pending)))
    {
      var i := 0;
      while i < |results|
        invariant 0 <= i <= |results|
        invariant response.Some? && response.value == old(response).value.(pending := response.value.pending)
        invariant CloseCalls(results, old(response).value.pending) == CloseCalls(results[i..], response.value.pending)
      {
        if results[i].ToolResultBlock? && results[i].callId.Some? {
          response := Some(response.value.(pending := response.value.pending - {results[i].callId.value}));
        }
        assert results[i..][1..] == results[i + 1..];
        i := i + 1;
      }
      assert results[i..] == [];
    }

    /** Updates the object in place; `ok` is false where the source throws. */
    method CommitRecord(r: Record, at: Position, a: Action) returns (ok: bool)
      modifies this
      ensures ok <==> Commit(old(Value()), r, at, a).Ok?
      ensures ok ==> Commit(old(Value()), r, at, a) == Ok(Value())
    {
      ok := true;
      EnterRecord(r, at, a);
      if a.rawOnly {
        return;
      }
      if r.kind == Assistant && r.message.Some? && r.uuid.Valid? {
        var m := r.message.value;
        var id := if m.id.Some? then m.id.value else r.uuid.id;
        if response.None? || response.value.id != id || response.value.model != m.model {
          response := Some(Response(id, m.model, map[]));
        }
        ok := RegisterCalls(r.uuid.id, Blocks(r));
      } else if r.kind == User {
        var results := Results(r);
        if results == [] || response.None? {
          response := None;
        } else {
          CloseResults(results);
        }
      }
    }
  }
}
