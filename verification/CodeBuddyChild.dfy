/** A CodeBuddy child's own files: which part of them a fork may show, and the check that the
  * child's turns answer the completed calls of its parent, one for one. */
module CodeBuddyChild {
  import opened Base
  import opened CodeBuddyRows
  import CodeBuddyRecords
  import CodeBuddyThread
  import opened CodeBuddyDelegation

  // ---------------------------------------------------------------- turns against calls

  /** The rows of the parent chain. */
  function ChainRows(entries: seq<Entry>, n: nat): seq<Record>
    requires n <= |entries|
  {
    if n == 0 then []
    else ChainRows(entries, n - 1) + if entries[n - 1].record.Projected() then [entries[n - 1].record] else []
  }

  predicate Prompt(r: Record) {
    r.UserMessage() && !r.facts.internal.Yes?
  }

  /** Where the turns start. */
  function Users(rows: seq<Record>, n: nat): (r: seq<nat>)
    requires n <= |rows|
    ensures Increasing(r) && forall k :: 0 <= k < |r| ==> r[k] < n && Prompt(rows[r[k]])
  {
    if n == 0 then [] else Users(rows, n - 1) + if Prompt(rows[n - 1]) then [n - 1] else []
  }

  function TeammateMessage(from: string, summary: string, content: string): string {
    "<teammate-message teammate_id=\"" + from + "\" summary=\"" + summary + "\">\n" + content + "\n</teammate-message>"
  }

  /** The text that a completed call must have put into the child's history. */
  function Delegated(call: ChildCall): string {
    if call.Foreground? then call.prompt else TeammateMessage("team-lead", call.summary, call.prompt)
  }

  /** The prompt is the call's and hangs where the call resumed. */
  predicate PromptFits(rows: seq<Record>, at: nat, call: ChildCall)
    requires at < |rows|
  {
    && rows[at].Says(Delegated(call))
    && rows[at].facts.parent
       == (if call.Foreground? then call.afterId else if at > 0 then Some(rows[at - 1].id) else None)
  }

  /** A follow-up message was sent after the child had finished what came before. */
  predicate SentAfter(rows: seq<Record>, at: nat, call: ChildCall)
    requires at < |rows|
  {
    call.FollowUp? ==>
      at > 0 && rows[at - 1].AssistantDone() && rows[at - 1].facts.time.Some?
      && rows[at - 1].facts.time.value <= call.sentAt
  }

  predicate TurnComplete(rows: seq<Record>, at: nat, end: nat, call: ChildCall)
    requires at < end <= |rows|
  {
    && (call.Foreground? ==> exists k :: at <= k < end && rows[k].id == call.lastId)
    && rows[end - 1].AssistantDone()
  }

  function TurnEnd(rows: seq<Record>, users: seq<nat>, k: nat): nat
    requires k < |users|
  {
    if k + 1 < |users| then users[k + 1] else |rows|
  }

  /** The first `k` turns against the first `k` calls; returns the prompts to show instead. */
  function CheckTurns(rows: seq<Record>, calls: seq<ChildCall>, k: nat): Result<map<string, string>>
    requires |Users(rows, |rows|)| == |calls| && k <= |calls|
  {
    if k == 0 then Ok(map[])
    else
      var prompts :- CheckTurns(rows, calls, k - 1);
      var users, call := Users(rows, |rows|), calls[k - 1];
      var at, end := users[k - 1], TurnEnd(rows, users, k - 1);
      if !PromptFits(rows, at, call) || !SentAfter(rows, at, call) then Err(Unsupported)
      else if !TurnComplete(rows, at, end, call) then Err(Format)
      else Ok(if call.Foreground? then prompts else prompts[rows[at].id := call.prompt])
  }

  datatype Validated = Validated(native: string, prompts: map<string, string>)

  predicate DelegatedRoot(r: Record, agent: string) {
    r.UserMessage() && r.facts.parent.None? && r.facts.logical.None? && r.facts.agent == Some(agent)
  }

  function Validate(records: seq<Record>, ref: Reference): Result<Validated> {
    var entries :- CodeBuddyRecords.HistoryRecords(records);
    var rows := ChainRows(entries, |entries|);
    if rows == [] || rows[0].facts.session.None? || !Segment(rows[0].facts.session.value) then Err(Format)
    else if !DelegatedRoot(rows[0], ref.agent) then Err(Unsupported)
    else if exists k :: 0 <= k < |rows| && rows[k].facts.session != rows[0].facts.session then Err(Unsupported)
    else if |Users(rows, |rows|)| != |ref.calls| then Err(Format)
    else
      var prompts :- CheckTurns(rows, ref.calls, |ref.calls|);
      Ok(Validated(rows[0].facts.session.value, prompts))
  }

  lemma UsersSnoc(rows: seq<Record>, r: Record)
    ensures Users(rows + [r], |rows| + 1) == Users(rows + [r], |rows|) + if Prompt(r) then [|rows|] else []
  {
    assert (rows + [r])[|rows|] == r;
  }

  lemma {:induction false} UsersPrefix(rows: seq<Record>, more: seq<Record>, n: nat)
    requires n <= |rows|
    ensures Users(rows + more, n) == Users(rows, n)
  {
    if n > 0 {
      UsersPrefix(rows, more, n - 1);
      assert (rows + more)[n - 1] == rows[n - 1];
    }
  }

  lemma RowsGrow(entries: seq<Entry>, n: nat)
    requires 0 < n <= |entries|
    ensures var before, rows, r := ChainRows(entries, n - 1), ChainRows(entries, n), entries[n - 1].record;
            |Users(rows, |rows|)| == |Users(before, |before|)| + if Prompt(r) then 1 else 0
  {
    var before, r := ChainRows(entries, n - 1), entries[n - 1].record;
    hide Users, ChainRows, Prompt;
    if r.Projected() {
      UsersSnoc(before, r);
      UsersPrefix(before, [r], |before|);
      RowsSnoc(entries, n);
    } else {
      RowsSnoc(entries, n);
      OnlyProjected(r);
    }
  }

  lemma OnlyProjected(r: Record)
    ensures Prompt(r) ==> r.Projected()
  {
  }

  lemma RowsSnoc(entries: seq<Entry>, n: nat)
    requires 0 < n <= |entries|
    ensures ChainRows(entries, n)
            == if entries[n - 1].record.Projected() then ChainRows(entries, n - 1) + [entries[n - 1].record]
                                     else ChainRows(entries, n - 1)
  {
  }

  /** The check and the projection see the same prompts. */
  lemma {:induction false} UsersArePrompts(entries: seq<Entry>, n: nat)
    requires n <= |entries|
    ensures var rows := ChainRows(entries, n); |Users(rows, |rows|)| == |CodeBuddyThread.Prompts(entries, n)|
  {
    if n > 0 {
      UsersArePrompts(entries, n - 1);
      RowsGrow(entries, n);
      hide Users, ChainRows;
    }
  }

  /** The `k`-th turn starts with the prompt of the `k`-th call and ends in a completed answer. */
  ghost predicate TurnAnswers(rows: seq<Record>, calls: seq<ChildCall>, k: nat)
    requires k < |calls| == |Users(rows, |rows|)|
  {
    var at, end := Users(rows, |rows|)[k], TurnEnd(rows, Users(rows, |rows|), k);
    && at < end <= |rows| && PromptFits(rows, at, calls[k]) && SentAfter(rows, at, calls[k])
       && TurnComplete(rows, at, end, calls[k])
  }

  lemma {:induction false} TurnsChecked(rows: seq<Record>, calls: seq<ChildCall>, m: nat, k: nat)
    requires |Users(rows, |rows|)| == |calls| && k < m <= |calls| && CheckTurns(rows, calls, m).Ok?
    ensures TurnAnswers(rows, calls, k)
  {
    hide PromptFits, SentAfter, TurnComplete, Users;
    if k < m - 1 {
      TurnsChecked(rows, calls, m - 1, k);
    }
  }

  /** Main result. An accepted child has exactly one turn for each completed call, in receipt
    * order: the turn opens with the call's prompt and ends in a completed answer. */
  lemma TurnsAnswerCalls(records: seq<Record>, ref: Reference)
    requires Validate(records, ref).Ok?
    ensures CodeBuddyRecords.HistoryRecords(records).Ok?
    ensures var entries := CodeBuddyRecords.HistoryRecords(records).value;
            var rows := ChainRows(entries, |entries|);
            && |Users(rows, |rows|)| == |CodeBuddyThread.Prompts(entries, |entries|)| == |ref.calls|
            && forall k :: 0 <= k < |ref.calls| ==> TurnAnswers(rows, ref.calls, k)
  {
    hide CheckTurns, TurnAnswers, ChainRows, CodeBuddyThread.Prompts;
    var entries := CodeBuddyRecords.HistoryRecords(records).value;
    UsersArePrompts(entries, |entries|);
    var rows := ChainRows(entries, |entries|);
    forall k | 0 <= k < |ref.calls|
      ensures TurnAnswers(rows, ref.calls, k)
    {
      TurnsChecked(rows, ref.calls, |ref.calls|, k);
    }
  }

  // ---------------------------------------------------------------- copied children of a fork

  /** The first row with an id, from `from` on. */
  function Find(records: seq<Record>, id: string, from: nat): (r: Option<nat>)
    ensures r.None? ==> forall k :: from <= k < |records| ==> records[k].id != id
    ensures r.Some? ==> from <= r.value < |records| && records[r.value].id == id
                        && forall k :: from <= k < r.value ==> records[k].id != id
    decreases |records| - from
  {
    if from >= |records| then None
    else if records[from].id == id then Some(from)
    else Find(records, id, from + 1)
  }

  /** The first completed answer, from `end` on, before a user message after the anchor. */
  function AnswerEnd(records: seq<Record>, anchor: nat, end: nat): (r: Option<nat>)
    ensures r.Some? ==> end <= r.value < |records|
    decreases |records| - end
  {
    if end >= |records| then None
    else if records[end].AssistantDone() then Some(end)
    else if end > anchor && records[end].UserMessage() then None
    else AnswerEnd(records, anchor, end + 1)
  }

  /** The rows of a copied child that existed when its last receipt was written. */
  function CopiedChild(records: seq<Record>, ref: Reference): Result<seq<Record>> {
    if ref.calls == [] || exists k :: 0 <= k < |ref.calls| && !ref.calls[k].Foreground? then Err(Unsupported)
    else
      var anchor := Find(records, ref.calls[|ref.calls| - 1].lastId, 0);
      if anchor.None? then Err(Format)
      else
        var end := AnswerEnd(records, anchor.value, anchor.value);
        if end.None? then Err(Format) else Ok(records[..end.value + 1])
  }

  /** `end` closes the answer that the receipt at `anchor` belongs to. */
  ghost predicate Closes(records: seq<Record>, anchor: nat, end: nat) {
    && anchor <= end < |records| && records[end].AssistantDone()
    && (forall k :: anchor <= k < end ==> !records[k].AssistantDone())
    && forall k :: anchor < k < end ==> !records[k].UserMessage()
  }

  lemma {:induction false} AnswerEndCloses(records: seq<Record>, anchor: nat, end: nat)
    requires anchor <= end
    requires forall k :: anchor <= k < end && k < |records| ==> !records[k].AssistantDone()
    requires forall k :: anchor < k < end && k < |records| ==> !records[k].UserMessage()
    ensures AnswerEnd(records, anchor, end).Some? ==> Closes(records, anchor, AnswerEnd(records, anchor, end).value)
    ensures AnswerEnd(records, anchor, end).None? ==> forall k: nat :: end <= k ==> !Closes(records, anchor, k)
    decreases |records| - end
  {
    if end < |records| && !records[end].AssistantDone() && !(end > anchor && records[end].UserMessage()) {
      AnswerEndCloses(records, anchor, end + 1);
    }
  }

  /** Main result. A copied child is cut right after the answer to its last receipt, whenever that
    * answer is in its history; no later turn of the shared file shows. */
  lemma CopiedIsCut(records: seq<Record>, ref: Reference)
    requires ref.calls != [] && forall k :: 0 <= k < |ref.calls| ==> ref.calls[k].Foreground?
    ensures var anchor := Find(records, ref.calls[|ref.calls| - 1].lastId, 0);
            CopiedChild(records, ref).Ok? <==> anchor.Some? && exists end: nat :: Closes(records, anchor.value, end)
    ensures CopiedChild(records, ref).Ok? ==>
              exists anchor: nat, end: nat ::
                Closes(records, anchor, end) && records[anchor].id == ref.calls[|ref.calls| - 1].lastId
                                    && CopiedChild(records, ref).value == records[..end + 1]
  {
    var anchor := Find(records, ref.calls[|ref.calls| - 1].lastId, 0);
    if anchor.Some? {
      AnswerEndCloses(records, anchor.value, anchor.value);
      if CopiedChild(records, ref).Ok? {
        assert Closes(records, anchor.value, AnswerEnd(records, anchor.value, anchor.value).value);
      }
    }
  }

  // ---------------------------------------------------------------- fragments in several files

  predicate Resumes(ref: Reference, next: Record) {
    && next.UserMessage() && next.facts.parent.Some?
    && exists k :: 0 <= k < |ref.calls| && ref.calls[k].Foreground? && ref.calls[k].afterId == next.facts.parent
  }

  function FindAnswer(records: seq<Record>, id: string, from: nat): Option<nat>
    decreases |records| - from
  {
    if from >= |records| then None
    else if records[from].id == id && records[from].AssistantDone() then Some(from)
    else FindAnswer(records, id, from + 1)
  }

  /** What one file contributes: all of it, or what precedes the continuation in the next one. */
  function Fragment(parts: seq<seq<Record>>, ref: Reference, k: nat): Result<seq<Record>>
    requires k < |parts|
  {
    if !ref.copied || k == |parts| - 1 then Ok(parts[k])
    else if parts[k + 1] == [] || !Resumes(ref, parts[k + 1][0]) then Err(Unsupported)
    else
      var end := FindAnswer(parts[k], parts[k + 1][0].facts.parent.value, 0);
      if end.None? || end.value >= |parts[k]| then Err(Format) else Ok(parts[k][..end.value + 1])
  }

  function Fragments(parts: seq<seq<Record>>, ref: Reference, k: nat): Result<seq<Record>>
    requires k <= |parts|
  {
    if k == 0 then Ok([])
    else
      var before :- Fragments(parts, ref, k - 1);
      var part :- Fragment(parts, ref, k - 1);
      Ok(before + part)
  }

  /** The history that a child shows. */
  function Visible(parts: seq<seq<Record>>, ref: Reference): Result<seq<Record>> {
    var whole :- Fragments(parts, ref, |parts|);
    if ref.copied then CopiedChild(whole, ref) else Ok(whole)
  }
}
