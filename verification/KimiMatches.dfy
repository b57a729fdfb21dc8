/** When the log of a Kimi child matches the answered calls of its parent, read off its rows. */
module KimiMatches {
  import opened Base
  import opened KimiRows
  import opened KimiDelegation

  /** What a background task keeps of an answer: its last characters. */
  predicate IsTail(tail: string, answer: string) {
    if |answer| <= 4096 then tail == answer
    else |tail| == 4096 && exists k :: 0 <= k <= |answer| && answer[k..] == tail
  }

  /** The answer that ends a turn is the one that the parent was told: in the receipt, or, for a
    * background task, at its termination, which is not earlier. */
  predicate AnswerTold(call: Call, tasks: map<string, Task>, c: string, profile: string, answer: string, e: Entry) {
    match call.receipt
    case NoReceipt => false
    case Completed(child, p, summary) => child == c && p == profile && summary == Some(answer)
    case Launched(id, _, _, _) =>
      && id in tasks && tasks[id].terminal.Some? && e.at <= tasks[id].terminal.value.endedAt
      && (tasks[id].terminal.value.tail.Some? ==> IsTail(tasks[id].terminal.value.tail.value, answer))
  }

  /** The row may follow the first `n` rows of a child. */
  predicate Follows(expected: seq<Call>, tasks: map<string, Task>, c: string, profile: string, log: seq<Entry>, n: nat)
    requires n < |log|
  {
    var turn, open := |Ends(log, n)|, |Prompts(log, n)| > |Ends(log, n)|;
    && !EditsHistory(log[n].row)
    && match log[n].row
       case Prompt(_, origin, input, _) =>
         !open && turn < |expected| && origin.kind.FromSubagentTrigger?
         && input == Some([TextPart(expected[turn].args.prompt)])
       case ToolCall(_, _, _, _, _, name, _) => name != "AgentSwarm"
       case TurnEnded(completed) =>
         open && turn < |expected| && completed && Answer(log, n) != ""
         && AnswerTold(expected[turn], tasks, c, profile, Answer(log, n), log[n])
       case _ => true
  }

  lemma TailIs(tail: string, answer: string)
    ensures IsTail(tail, answer) <==> tail == OutputTail(answer)
  {
    if |answer| > 4096 {
      var cut := answer[|answer| - 4096..];
      assert |cut| == 4096;
      if k :| 0 <= k <= |answer| && answer[k..] == tail && |tail| == 4096 {
        assert k == |answer| - 4096;
      }
      assert answer[|answer| - 4096..] == OutputTail(answer);
    }
  }

  lemma ToldExactly(call: Call, tasks: map<string, Task>, c: string, profile: string, answer: string, e: Entry)
    ensures AnswerTold(call, tasks, c, profile, answer, e) <==> EndFits(call, tasks, c, profile, answer, e)
  {
    if call.receipt.Launched? && call.receipt.taskId in tasks && tasks[call.receipt.taskId].terminal.Some?
       && tasks[call.receipt.taskId].terminal.value.tail.Some? {
      TailIs(tasks[call.receipt.taskId].terminal.value.tail.value, answer);
    }
    hide IsTail, OutputTail;
  }

  /** A row of a child is accepted exactly if it follows the rows before it. */
  lemma RowMatchedExactly(expected: seq<Call>, tasks: map<string, Task>, c: string, profile: string, log: seq<Entry>,
                          n: nat)
    requires n < |log| && Matched(expected, tasks, c, profile, log, n).Ok?
    ensures Matched(expected, tasks, c, profile, log, n + 1).Ok? <==> Follows(expected, tasks, c, profile, log, n)
  {
    TurnCounts(expected, tasks, c, profile, log, n);
    var m := Matched(expected, tasks, c, profile, log, n).value;
    if m.turn < |expected| {
      ToldExactly(expected[m.turn], tasks, c, profile, m.answer, log[n]);
    }
    hide EndFits, AnswerTold, Answer, Prompts, Ends;
  }

  /** The whole log matches exactly if every row follows and each call has its turn, which ended. */
  lemma {:induction false} TurnsMatchExactly(expected: seq<Call>, tasks: map<string, Task>, c: string, profile: string,
                                             log: seq<Entry>)
    ensures TurnsMatch(expected, tasks, c, profile, log) <==>
            (forall n :: 0 <= n < |log| ==> Follows(expected, tasks, c, profile, log, n))
            && |Prompts(log, |log|)| == |expected| && |Ends(log, |log|)| == |expected|
  {
    RowsMatch(expected, tasks, c, profile, log, |log|);
    if Matched(expected, tasks, c, profile, log, |log|).Ok? {
      TurnCounts(expected, tasks, c, profile, log, |log|);
    }
    hide Matched, Follows;
  }

  lemma {:induction false} RowsMatch(expected: seq<Call>, tasks: map<string, Task>, c: string, profile: string,
                                     log: seq<Entry>, n: nat)
    requires n <= |log|
    ensures Matched(expected, tasks, c, profile, log, n).Ok? <==>
            forall k :: 0 <= k < n ==> Follows(expected, tasks, c, profile, log, k)
  {
    hide Follows, MatchStep;
    if n > 0 {
      RowsMatch(expected, tasks, c, profile, log, n - 1);
      if Matched(expected, tasks, c, profile, log, n - 1).Ok? {
        RowMatchedExactly(expected, tasks, c, profile, log, n - 1);
      }
    }
  }
}
