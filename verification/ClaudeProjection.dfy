/** What one Claude record contributes to the event history. */
module ClaudeProjection {
  import opened Base
  import opened ClaudeRecords

  /** `sourceEventId`: the record, its content slot, and the piece of a split text. */
  datatype Draft = Draft(uuid: string, slot: nat, part: Option<nat>)

  function Pieces(uuid: string, slot: nat, bodies: seq<bool>, at: nat): seq<Draft>
    requires at <= |bodies|
    decreases |bodies| - at
  {
    if at == |bodies| then []
    else (if bodies[at] then [Draft(uuid, slot, if |bodies| > 1 then Some(at) else None)] else [])
         + Pieces(uuid, slot, bodies, at + 1)
  }

  /** The drafts of one block; tool blocks also consult and extend the calls seen so far. */
  function ProjectBlock(r: Record, uuid: string, slot: nat, b: Block, calls: map<string, Call>)
    : Result<(seq<Draft>, map<string, Call>)>
  {
    match b
    case TextBlock(command, chunks) =>
      Ok((if r.kind == User && command then [] else Pieces(uuid, slot, seq(chunks, _ => true), 0), calls))
    case ThinkingBlock(bodies) =>
      Ok((if r.kind == Assistant then Pieces(uuid, slot, bodies, 0) else [], calls))
    case ToolUseBlock(id, name, path, background) =>
      if r.kind != Assistant then Ok(([], calls))
      else if id in calls then Err(Unsupported)
      else Ok(([Draft(uuid, slot, None)], calls[id := Call(uuid, name, path, background)]))
    case ToolResultBlock(callId, _) =>
      if r.kind != User || callId.None? then Ok(([], calls))
      else if callId.value !in calls
              || (r.assistantUuid.Some? && r.assistantUuid.value != calls[callId.value].uuid) then Err(Unsupported)
      else Ok(([Draft(uuid, slot, None)], calls))
    case OtherBlock => Ok(([], calls))
  }

  function ProjectBlocks(r: Record, uuid: string, slot: nat, blocks: seq<Block>, calls: map<string, Call>)
    : Result<(seq<Draft>, map<string, Call>)>
    decreases |blocks|
  {
    if blocks == [] then Ok(([], calls))
    else
      var first :- ProjectBlock(r, uuid, slot, blocks[0], calls);
      var rest :- ProjectBlocks(r, uuid, slot + 1, blocks[1..], first.1);
      Ok((first.0 + rest.0, rest.1))
  }

  /** The events of one record and the calls known after it. */
  function Project(r: Record, calls: map<string, Call>): Result<(seq<Draft>, map<string, Call>)> {
    if !r.uuid.Valid? || r.isMeta || (r.kind != User && r.kind != Assistant) then Ok(([], calls))
    else if r.message.None? || r.message.value.role != r.kind then Ok(([], calls))
    else if !r.stamped then Err(Format)
    else ProjectBlocks(r, r.uuid.id, 0, Blocks(r), calls)
  }

  /** The usage sample of a record, if it carries a complete one. */
  function UsageOf(r: Record): Option<string> {
    if r.kind == Assistant then r.usage else None
  }
}
