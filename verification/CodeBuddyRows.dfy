/** Decoded CodeBuddy history rows: the fields on which admission, delegation and projection
  * decide. Exact provider wording appears as the outcome of its test. */
module CodeBuddyRows {
  import opened Base

  datatype Kind = Message | Reasoning | FunctionCall | FunctionResult | OtherKind

  datatype Role = User | Assistant | OtherRole

  /** A provider mark: absent, true, false, or something else. */
  datatype Mark = Unset | Yes | No | Odd

  datatype CompactType = NoCompact | EmergencyAuto | PreMessageAuto | UserCommand | OtherCompact

  datatype BlockKind = InputText | OutputText | ReasoningText | OtherBlock

  /** One content block; `text` is None when it is not a string. */
  datatype Block = Block(kind: BlockKind, text: Option<string>)

  /** Tests on the only content block: it encloses a conversation summary, which in turn encloses
    * a summary, it encloses a framework summary, and the `/compact` command it came from. */
  datatype Wording = Wording(history: bool, inner: bool, framework: bool, command: Option<string>)

  /** A framework notification: the child's name it mentions, whether it says that the child was
    * reactivated, and the descriptions whose completion it announces. */
  datatype Notice = NoNotice
    | Notice(wellFormed: bool, system: bool, name: Option<string>, reactivates: bool, announces: set<string>)

  /** Arguments of a call: not JSON, JSON that is no object, or the fields that delegation reads.
    * `wider` stands for a name, a team or the fork type; an absent agent type is the default one. */
  datatype Args = NoJson | NoObject
                | Args(message: bool, recipient: Option<string>, content: Option<string>, summary: Option<string>,
                       wider: bool, background: bool, resume: Option<string>, prompt: Option<string>, agent: string,
                       description: Option<string>)

  /** What a delegation result reports: a finished child, a spawned one, a delivered message. */
  datatype Receipt = Receipt(child: Option<string>, plain: bool, afterId: Option<string>, lastId: string,
                             spawn: Option<Spawn>, delivery: Option<Delivery>)

  datatype Spawn = Spawn(child: string, known: bool, name: string, team: string, prompt: Option<string>,
                         description: Option<string>)

  datatype Delivery = Delivery(recipient: string, content: string, summary: string)

  /** Normalized token counters of a response. */
  datatype Tokens = NoTokens | Tokens(message: string, valid: bool, empty: bool, model: string, counts: string)

  datatype Facts = Facts(role: Role, session: Option<string>, parent: Option<string>, logical: Option<string>,
                         time: Option<int>,
                         agent: Option<string>, completed: bool, internal: Mark, summary: Mark, compacted: Mark,
                         compact: CompactType, skipRun: Mark, content: Option<seq<Block>>, wording: Wording,
                         notice: Notice,
                         args: Args, settled: bool, failed: bool, receipt: Receipt, tokens: Tokens, fileSnapshot: bool,
                         branching: bool)

  /** A decoded record. An invalid id and an absent name are "". `response` stands for the session,
    * the parent and the provider fields that siblings must share; `identified` for a valid message
    * and model id; `ordinary` for the absence of delegation and compaction marks; `usage` for
    * counters of any form. */
  datatype Record = Record(id: string, kind: Kind, callId: string, name: string, json: string, response: string,
                           identified: bool, ordinary: bool, usage: bool, facts: Facts)
  {
    predicate UserMessage() {
      kind.Message? && facts.role.User?
    }

    predicate AssistantDone() {
      kind.Message? && facts.role.Assistant? && facts.completed
    }

    /** Rows that take part in the parent chain. */
    predicate Projected() {
      !kind.OtherKind?
    }

    /** The only content block, if there is exactly one. */
    function Only(): Option<Block> {
      if facts.content.Some? && |facts.content.value| == 1 then Some(facts.content.value[0]) else None
    }

    /** The only block is user input with this text. */
    predicate Says(text: string) {
      Only().Some? && Only().value.kind.InputText? && Only().value.text == Some(text)
    }

    /** A follow-up input of an automatic compaction, by its marks. */
    predicate ContextShape() {
      && UserMessage() && facts.internal.Yes? && facts.skipRun.No? && facts.parent.None? && facts.logical.Some?
      && Only().Some? && Only().value.kind.InputText?
    }

    predicate Marked() {
      facts.internal.Yes? || facts.summary.Yes? || facts.compacted.Yes? || !facts.compact.NoCompact?
    }
  }

  datatype Entry = Entry(record: Record, sibling: bool)

  /** A name that can be part of a path. */
  predicate Segment(s: string) {
    s != "" && s != "." && s != ".." && '/' !in s && '\\' !in s
  }

  predicate Plain(c: char) {
    'a' <= c <= 'z' || 'A' <= c <= 'Z' || '0' <= c <= '9' || c == '_' || c == '-'
  }

  /** The storage name of a delegated thread. */
  predicate ChildName(s: string) {
    "agent-" <= s && |s| > 6 && forall k :: 6 <= k < |s| ==> Plain(s[k])
  }
}
