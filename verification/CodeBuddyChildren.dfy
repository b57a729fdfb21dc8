/** Which CodeBuddy child files are accepted for a reference, what of them is shown, and which
  * histories may be the root of a session. */
module CodeBuddyChildren {
  import opened Base
  import opened CodeBuddyRows
  import opened CodeBuddyDelegation
  import opened CodeBuddyChild
  import opened CodeBuddyFamily
  import CodeBuddyRecords

  // ---------------------------------------------------------------- turns and prompts

  /** The row is one input with this text. */
  predicate Inputs(r: Record, text: string) {
    r.facts.content.Some? && |r.facts.content.value| == 1
    && r.facts.content.value[0] == Block(InputText, Some(text))
  }

  /** Rows `at .. end` are the turn of a call: the prompt as it was delegated, at the place where
    * the call resumed or behind the row before, and a completed answer at the end. A foreground
    * turn holds the row that its receipt names; a follow-up was sent to a finished answer. */
  predicate TurnFits(rows: seq<Record>, at: nat, end: nat, call: ChildCall)
    requires at < end <= |rows|
  {
    && rows[end - 1].AssistantDone()
    && match call
       case Foreground(_, prompt, afterId, lastId) =>
         && Inputs(rows[at], prompt) && rows[at].facts.parent == afterId
         && exists k :: at <= k < end && rows[k].id == lastId
       case Background(_, prompt, summary) =>
         Inputs(rows[at], TeammateMessage("team-lead", summary, prompt)) && HangsBehind(rows, at)
       case FollowUp(_, prompt, summary, sentAt) =>
         && Inputs(rows[at], TeammateMessage("team-lead", summary, prompt)) && HangsBehind(rows, at)
         && at > 0 && rows[at - 1].AssistantDone()
         && rows[at - 1].facts.time.Some? && rows[at - 1].facts.time.value <= sentAt
  }

  predicate HangsBehind(rows: seq<Record>, at: nat)
    requires at < |rows|
  {
    if at == 0 then rows[at].facts.parent.None? else rows[at].facts.parent == Some(rows[at - 1].id)
  }

  /** The turn of the `k`-th call: from its prompt to the next one. */
  predicate TurnIs(rows: seq<Record>, calls: seq<ChildCall>, k: nat)
    requires |Users(rows, |rows|)| == |calls| && k < |calls|
  {
    var users := Users(rows, |rows|);
    TurnFits(rows, users[k], if k + 1 < |users| then users[k + 1] else |rows|, calls[k])
  }

  lemma TurnSpelled(rows: seq<Record>, calls: seq<ChildCall>, k: nat)
    requires |Users(rows, |rows|)| == |calls| && k < |calls|
    ensures TurnAnswers(rows, calls, k) <==> TurnIs(rows, calls, k)
  {
    hide Users, TeammateMessage;
  }

  /** Turn `k` is not a foreground call's: its prompt is shown in place of what was delegated. */
  predicate Replaced(rows: seq<Record>, calls: seq<ChildCall>, m: nat, k: nat, id: string)
    requires |Users(rows, |rows|)| == |calls|
  {
    k < m <= |calls| && !calls[k].Foreground? && rows[Users(rows, |rows|)[k]].id == id
  }

  ghost predicate PromptsAre(rows: seq<Record>, calls: seq<ChildCall>, m: nat, prompts: map<string, string>)
    requires |Users(rows, |rows|)| == |calls|
  {
    && (forall id :: id in prompts <==> exists k: nat :: Replaced(rows, calls, m, k, id))
    && (forall k: nat, id :: Replaced(rows, calls, m, k, id) && id in prompts
                             && (forall j: nat :: Replaced(rows, calls, m, j, id) ==> j <= k) ==>
          prompts[id] == calls[k].prompt)
  }

  lemma {:induction false} TurnsExactly(rows: seq<Record>, calls: seq<ChildCall>, m: nat)
    requires |Users(rows, |rows|)| == |calls| && m <= |calls|
    ensures CheckTurns(rows, calls, m).Ok? <==> forall k :: 0 <= k < m ==> TurnAnswers(rows, calls, k)
    ensures CheckTurns(rows, calls, m).Ok? ==> PromptsAre(rows, calls, m, CheckTurns(rows, calls, m).value)
  {
    hide Users, PromptFits, SentAfter, TurnComplete, PromptsAre;
    if m > 0 {
      TurnsExactly(rows, calls, m - 1);
      TurnExactly(rows, calls, m - 1);
      assert CheckTurns(rows, calls, m).Ok? <==> CheckTurns(rows, calls, m - 1).Ok? && TurnAnswers(rows, calls, m - 1);
      if CheckTurns(rows, calls, m).Ok? {
        PromptsMore(rows, calls, m - 1, CheckTurns(rows, calls, m - 1).value, CheckTurns(rows, calls, m).value);
      }
    } else {
      PromptsNone(rows, calls);
    }
  }

  lemma PromptsNone(rows: seq<Record>, calls: seq<ChildCall>)
    requires |Users(rows, |rows|)| == |calls|
    ensures PromptsAre(rows, calls, 0, map[])
  {
    hide Users;
  }

  lemma TurnExactly(rows: seq<Record>, calls: seq<ChildCall>, k: nat)
    requires |Users(rows, |rows|)| == |calls| && k < |calls|
    ensures Users(rows, |rows|)[k] < TurnEnd(rows, Users(rows, |rows|), k) <= |rows|
  {
  }

  /** One call more adds the row of its turn, unless the call is a foreground one. */
  lemma ReplacedMore(rows: seq<Record>, calls: seq<ChildCall>, m: nat, k: nat, id: string)
    requires |Users(rows, |rows|)| == |calls| && m < |calls|
    ensures Replaced(rows, calls, m + 1, k, id) <==>
            Replaced(rows, calls, m, k, id)
            || (k == m && !calls[m].Foreground? && rows[Users(rows, |rows|)[m]].id == id)
    ensures Replaced(rows, calls, m, k, id) ==> k < m
  {
    hide Users;
  }

  lemma KeysMore(rows: seq<Record>, calls: seq<ChildCall>, m: nat, id: string)
    requires |Users(rows, |rows|)| == |calls| && m < |calls|
    ensures var n := m + 1;
            (exists k: nat :: Replaced(rows, calls, n, k, id)) <==>
            (exists k: nat :: Replaced(rows, calls, m, k, id))
            || (!calls[m].Foreground? && rows[Users(rows, |rows|)[m]].id == id)
  {
    hide Users, Replaced;
    var n := m + 1;
    forall k: nat
      ensures Replaced(rows, calls, n, k, id) <==>
              Replaced(rows, calls, m, k, id)
              || (k == m && !calls[m].Foreground? && rows[Users(rows, |rows|)[m]].id == id)
    {
      ReplacedMore(rows, calls, m, k, id);
    }
    if !calls[m].Foreground? && rows[Users(rows, |rows|)[m]].id == id {
      assert Replaced(rows, calls, n, m, id);
    }
  }

  lemma LastMore(rows: seq<Record>, calls: seq<ChildCall>, m: nat, k: nat, id: string)
    requires |Users(rows, |rows|)| == |calls| && m < |calls|
    requires var n := m + 1;
             Replaced(rows, calls, n, k, id) && forall j: nat :: Replaced(rows, calls, n, j, id) ==> j <= k
    ensures if !calls[m].Foreground? && rows[Users(rows, |rows|)[m]].id == id then k == m
            else Replaced(rows, calls, m, k, id) && forall j: nat :: Replaced(rows, calls, m, j, id) ==> j <= k
  {
    hide Users, Replaced;
    var n := m + 1;
    ReplacedMore(rows, calls, m, k, id);
    ReplacedMore(rows, calls, m, m, id);
    forall j: nat | Replaced(rows, calls, m, j, id)
      ensures j <= k
    {
      ReplacedMore(rows, calls, m, j, id);
      assert Replaced(rows, calls, n, j, id);
    }
    if !calls[m].Foreground? && rows[Users(rows, |rows|)[m]].id == id {
      assert Replaced(rows, calls, n, m, id);
    }
  }

  lemma PromptsMore(rows: seq<Record>, calls: seq<ChildCall>, m: nat, prompts: map<string, string>,
                    more: map<string, string>)
    requires |Users(rows, |rows|)| == |calls| && m < |calls| && PromptsAre(rows, calls, m, prompts)
    requires more == if calls[m].Foreground? then prompts
                     else prompts[rows[Users(rows, |rows|)[m]].id := calls[m].prompt]
    ensures PromptsAre(rows, calls, m + 1, more)
  {
    hide Users, Replaced;
    var n := m + 1;
    forall id
      ensures id in more <==> exists k: nat :: Replaced(rows, calls, n, k, id)
    {
      KeysMore(rows, calls, m, id);
    }
    forall k: nat, id | Replaced(rows, calls, n, k, id) && id in more
                        && (forall j: nat :: Replaced(rows, calls, n, j, id) ==> j <= k)
      ensures Replaced(rows, calls, n, k, id) && k < |calls| && more[id] == calls[k].prompt
    {
      ReplacedMore(rows, calls, m, k, id);
      LastMore(rows, calls, m, k, id);
    }
  }

  /** A child's history is accepted exactly if it starts with a delegated prompt of the referenced
    * agent, stays in one session and has one fitting turn for each completed call. Then its
    * session is that of its rows, and the prompts of background calls and messages replace what
    * was delegated. */
  lemma ValidatedExactly(records: seq<Record>, ref: Reference)
    requires CodeBuddyRecords.HistoryRecords(records).Ok?
    ensures var entries := CodeBuddyRecords.HistoryRecords(records).value;
            var rows := ChainRows(entries, |entries|);
            && (Validate(records, ref).Ok? <==>
                  && rows != [] && rows[0].facts.session.Some? && Segment(rows[0].facts.session.value)
                  && rows[0].UserMessage() && rows[0].facts.parent.None? && rows[0].facts.logical.None?
                  && rows[0].facts.agent == Some(ref.agent)
                  && (forall k :: 0 <= k < |rows| ==> rows[k].facts.session == rows[0].facts.session)
                  && |Users(rows, |rows|)| == |ref.calls|
                  && forall k :: 0 <= k < |ref.calls| ==> TurnIs(rows, ref.calls, k))
            && (Validate(records, ref).Ok? ==>
                  var v := Validate(records, ref).value;
                  && rows != [] && Some(v.native) == rows[0].facts.session && |Users(rows, |rows|)| == |ref.calls|
                  && PromptsAre(rows, ref.calls, |ref.calls|, v.prompts))
  {
    var entries := CodeBuddyRecords.HistoryRecords(records).value;
    var rows := ChainRows(entries, |entries|);
    hide ChainRows, CheckTurns, TurnAnswers, TurnIs, Users, Segment, PromptsAre;
    if |Users(rows, |rows|)| == |ref.calls| {
      TurnsExactly(rows, ref.calls, |ref.calls|);
      forall k | 0 <= k < |ref.calls|
        ensures TurnAnswers(rows, ref.calls, k) <==> TurnIs(rows, ref.calls, k)
      {
        TurnSpelled(rows, ref.calls, k);
      }
    }
  }

  /** A child of another history is refused with it. */
  lemma HistoryNeeded(records: seq<Record>, ref: Reference)
    ensures Validate(records, ref).Ok? ==> CodeBuddyRecords.HistoryRecords(records).Ok?
  {
    hide ChainRows, CheckTurns, Users;
  }

  // ---------------------------------------------------------------- fragments

  /** The first completed answer with this id. */
  ghost predicate FirstAnswer(records: seq<Record>, id: string, at: nat) {
    && at < |records| && records[at].id == id && records[at].AssistantDone()
    && forall k :: 0 <= k < at ==> !(records[k].id == id && records[k].AssistantDone())
  }

  lemma {:induction false} AnswerFound(records: seq<Record>, id: string, from: nat)
    requires forall k :: 0 <= k < from && k < |records| ==> !(records[k].id == id && records[k].AssistantDone())
    ensures forall at: nat :: FindAnswer(records, id, from) == Some(at) <==> FirstAnswer(records, id, at)
    decreases |records| - from
  {
    if from < |records| && !(records[from].id == id && records[from].AssistantDone()) {
      AnswerFound(records, id, from + 1);
    }
  }

  /** The row continues a child where one of its foreground calls resumed it. */
  predicate ResumesAt(ref: Reference, next: Record) {
    next.kind.Message? && next.facts.role.User? && next.facts.parent.Some?
    && exists k :: 0 <= k < |ref.calls| && ref.calls[k].Foreground?
                   && ref.calls[k].afterId == Some(next.facts.parent.value)
  }

  /** What a file of a child contributes: all of it, unless the child is copied and continues in the
    * next file; then its rows up to the answer that the next file resumes at. */
  lemma FragmentExactly(parts: seq<seq<Record>>, ref: Reference, k: nat)
    requires k < |parts|
    ensures !ref.copied || k == |parts| - 1 ==> Fragment(parts, ref, k) == Ok(parts[k])
    ensures ref.copied && k < |parts| - 1 ==>
              var part, next := parts[k], parts[k + 1];
              && (Fragment(parts, ref, k).Ok? <==>
                    next != [] && ResumesAt(ref, next[0])
                    && var id := next[0].facts.parent.value; exists at: nat :: FirstAnswer(part, id, at))
              && (Fragment(parts, ref, k).Ok? ==>
                    && next != [] && next[0].facts.parent.Some?
                    && var id := next[0].facts.parent.value;
                       exists at: nat :: FirstAnswer(part, id, at) && Fragment(parts, ref, k).value == part[..at + 1])
  {
    if ref.copied && k < |parts| - 1 && parts[k + 1] != [] && Resumes(ref, parts[k + 1][0]) {
      var id := parts[k + 1][0].facts.parent.value;
      AnswerFound(parts[k], id, 0);
      var end := FindAnswer(parts[k], id, 0);
      if end.Some? {
        assert FirstAnswer(parts[k], id, end.value);
      }
    }
  }

  // ---------------------------------------------------------------- the root

  predicate IsOwn(src: Source, r: Record) {
    r.facts.session == Some(src.sourceId)
  }

  /** The first row of the source's own session. */
  ghost predicate FirstOwnRow(src: Source, at: nat) {
    at < |src.records| && IsOwn(src, src.records[at]) && forall k :: 0 <= k < at ==> !IsOwn(src, src.records[k])
  }

  lemma {:induction false} OwnFound(src: Source, from: nat)
    requires forall k :: 0 <= k < from && k < |src.records| ==> !IsOwn(src, src.records[k])
    ensures FirstOwn(src, from).None? <==> forall k :: 0 <= k < |src.records| ==> !IsOwn(src, src.records[k])
    ensures FirstOwn(src, from).Some? ==>
              exists at: nat :: FirstOwnRow(src, at) && src.records[at] == FirstOwn(src, from).value
    decreases |src.records| - from
  {
    if from < |src.records| {
      if IsOwn(src, src.records[from]) {
        assert FirstOwnRow(src, from);
      } else {
        OwnFound(src, from + 1);
      }
    }
  }

  /** A history can be a root exactly if it begins with a parentless user message outside delegated
    * threads: of the source's own session, or, in a fork, of the session it was forked from, whose
    * first own row is a user message that hangs on a copied one. */
  lemma OriginExactly(src: Source)
    ensures Origin(src).Ok? <==>
            && src.records != [] && src.sourceId != "" && !("agent-" <= src.sourceId)
            && var r := src.records[0];
               && r.UserMessage() && r.facts.parent.None? && r.facts.logical.None?
               && r.facts.session.Some? && r.facts.session.value != "" && !("agent-" <= r.facts.session.value)
               && match src.forkedFrom
                  case None => r.facts.session.value == src.sourceId
                  case Some(origin) =>
                    && r.facts.session.value == origin && origin != src.sourceId
                    && exists at: nat :: FirstOwnRow(src, at) && src.records[at].UserMessage()
                                         && src.records[at].facts.parent.Some?
    ensures Origin(src).Ok? ==> src.records != [] && Some(Origin(src).value) == src.records[0].facts.session
  {
    OwnFound(src, 0);
    if at: nat :| FirstOwnRow(src, at) {
      forall k: nat | FirstOwnRow(src, k)
        ensures k == at
      {
        OneOwn(src, k, at);
      }
    }
    hide FirstOwn, FirstOwnRow;
  }

  lemma OneOwn(src: Source, k: nat, at: nat)
    requires FirstOwnRow(src, k) && FirstOwnRow(src, at)
    ensures k == at
  {
  }

  /** The search begins exactly with such a root whose delegation is accepted, within the record
    * budget; its first session is the root's. */
  lemma BeginExactly(src: Source)
    ensures Begin(src).Ok? <==>
            && |src.records| <= src.limit && Origin(src).Ok? && Segment(Origin(src).value)
            && References(src.records, true,
                          if src.forkedFrom.Some? then Some(Fork(Some(src.sourceId), true)) else None).Ok?
    ensures Begin(src).Ok? ==>
              var s := Begin(src).value;
              && s.natives == {Origin(src).value} && s.members == [] && s.used == {} && s.at == 0 && s.next == 0
              && s.records == |src.records|
  {
    hide Origin, References, Segment;
  }
}
