/** Which turn stands at which call in a Kimi session. A child's turns follow the receipts of its
  * calls, but a turn is shown at the call made in its place. */
module KimiAlignment {
  import opened Base
  import opened Orders
  import opened KimiRows
  import opened KimiDelegation
  import opened KimiFamily
  import KimiCalls

  /** Row `k` is a receipt of the Agent call `u`. */
  predicate Replies(log: seq<Entry>, k: nat, u: string)
    requires k < |log|
  {
    log[k].row.ToolResult? && log[k].row.parentUuid == u && AgentCalled(log, k, u)
  }

  /** The first receipt of call `u` from row `from` on; the end of the log when there is none. */
  function ReplyRow(log: seq<Entry>, from: nat, u: string): (row: nat)
    requires from <= |log|
    ensures from <= row <= |log| && (row < |log| ==> Replies(log, row, u))
    ensures forall k :: from <= k < row ==> !Replies(log, k, u)
    decreases |log| - from
  {
    if from == |log| || Replies(log, from, u) then from else ReplyRow(log, from + 1, u)
  }

  /** Calls to `c` in the order of the call rows. */
  function CallOrder(log: seq<Entry>, n: nat, links: map<string, string>, c: string): seq<string>
    requires n <= |log|
  {
    if n == 0 then []
    else CallOrder(log, n - 1, links, c)
         + if KimiCalls.LinkOf(links, log[n - 1].row) == Some(c) then [log[n - 1].row.uuid] else []
  }

  /** Calls to a child in the order of their receipts; the child's turns stand in this order. */
  function ReceiptOrder(history: seq<Call>): (r: seq<string>)
    ensures |r| == |history| && forall k :: 0 <= k < |r| ==> r[k] == history[k].uuid
  {
    seq(|history|, k requires 0 <= k < |history| => history[k].uuid)
  }

  /** No call to `c` has its receipt after that of a later call. */
  predicate InOrder(log: seq<Entry>, links: map<string, string>, c: string) {
    var calls := CallOrder(log, |log|, links, c);
    forall i, j :: 0 <= i < j < |calls| ==> ReplyRow(log, 0, calls[i]) < ReplyRow(log, 0, calls[j])
  }

  /** The calls to `c` whose receipt comes before that of `u`. */
  ghost function EarlierReplies(log: seq<Entry>, links: map<string, string>, c: string, u: string): set<string> {
    set v | v in KeysTo(links, c) && ReplyRow(log, 0, v) < ReplyRow(log, 0, u)
  }

  // ---------------------------------------------------------------- receipts come in history order

  /** Once a call has a receipt, it is on record. */
  lemma {:induction false} RepliesLink(agents: map<string, Agent>, parent: string, log: seq<Entry>, n: nat,
                                       calls: map<string, seq<Call>>, k: nat, u: string)
    requires k < n <= |log| && Scan(agents, parent, log, n, calls).Ok? && Replies(log, k, u)
    ensures u in Scan(agents, parent, log, n, calls).value.links
  {
    hide Step;
    var d := Scan(agents, parent, log, n - 1, calls).value;
    StepLinks(d, agents, parent, n - 1, log[n - 1]);
    if k < n - 1 {
      RepliesLink(agents, parent, log, n - 1, calls, k, u);
    } else {
      PendingCalls(agents, parent, log, k, calls, u);
      ReceiptIsRead(d, agents, parent, k, log[k]);
    }
  }

  lemma ReceiptIsRead(d: Desk, agents: map<string, Agent>, parent: string, i: nat, e: Entry)
    requires e.row.ToolResult? && Step(d, agents, parent, i, e).Ok? && CallOf(d.pending, e.row.parentUuid).Some?
    ensures e.row.parentUuid in Step(d, agents, parent, i, e).value.links
  {
    ReceiptLinks(d, agents, parent, i, e);
  }

  /** These calls are the ones with these ids, each filed at its first receipt. */
  ghost predicate Listed(log: seq<Entry>, n: nat, h: seq<Call>, ids: set<string>)
    requires n <= |log|
  {
    && (forall k :: 0 <= k < |h| ==> h[k].line < n && ReplyRow(log, 0, h[k].uuid) == h[k].line)
    && (forall i, j :: 0 <= i < j < |h| ==> h[i].line < h[j].line)
    && ids == Elements(ReceiptOrder(h))
  }

  /** The calls to `c` on record are its history. */
  ghost predicate Ranked(log: seq<Entry>, n: nat, d: Desk, c: string)
    requires n <= |log|
  {
    Listed(log, n, History(d.calls, c), KeysTo(d.links, c))
  }

  lemma ListOn(log: seq<Entry>, n: nat, h: seq<Call>, ids: set<string>, call: Call)
    requires 0 < n <= |log| && Listed(log, n - 1, h, ids) && ReplyRow(log, 0, call.uuid) == call.line == n - 1
    ensures Listed(log, n, h + [call], ids + {call.uuid})
  {
    hide ReplyRow, Replies, AgentCalled;
    assert ReceiptOrder(h + [call]) == ReceiptOrder(h) + [call.uuid];
    ElementsSnoc(ReceiptOrder(h), call.uuid);
  }

  lemma ElementsSnoc(ids: seq<string>, u: string)
    ensures Elements(ids + [u]) == Elements(ids) + {u}
  {
    assert forall v :: v in ids + [u] <==> v in ids || v == u;
  }

  lemma {:induction false} HistoryRanks(agents: map<string, Agent>, parent: string, log: seq<Entry>, n: nat,
                                        calls: map<string, seq<Call>>, c: string)
    requires n <= |log| && Scan(agents, parent, log, n, calls).Ok? && History(calls, c) == []
    ensures Ranked(log, n, Scan(agents, parent, log, n, calls).value, c)
  {
    hide Step, AgentCalled;
    if n > 0 {
      HistoryRanks(agents, parent, log, n - 1, calls, c);
      var d, next := Scan(agents, parent, log, n - 1, calls).value, Scan(agents, parent, log, n, calls).value;
      StepLinks(d, agents, parent, n - 1, log[n - 1]);
      if next.links != d.links || next.calls != d.calls {
        var u := log[n - 1].row.parentUuid;
        PendingCalls(agents, parent, log, n - 1, calls, u);
        forall k | 0 <= k < n - 1
          ensures !Replies(log, k, u)
        {
          if Replies(log, k, u) {
            RepliesLink(agents, parent, log, n - 1, calls, k, u);
          }
        }
        RankOn(log, n, d, next, agents, parent, c);
      }
    }
  }

  lemma RankOn(log: seq<Entry>, n: nat, d: Desk, next: Desk, agents: map<string, Agent>, parent: string, c: string)
    requires 0 < n <= |log| && Ranked(log, n - 1, d, c) && Answers(d, next, agents, parent, n - 1, log[n - 1])
    requires var u := log[n - 1].row.parentUuid;
             Replies(log, n - 1, u) && forall k :: 0 <= k < n - 1 ==> !Replies(log, k, u)
    ensures Ranked(log, n, next, c)
  {
    hide AgentCalled, FindCall, KeysTo, Listed;
    var u, to := log[n - 1].row.parentUuid, log[n - 1].row.receipt.childId;
    assert ReplyRow(log, 0, u) == n - 1;
    if to == c {
      assert CallOf(d.pending, u).value.uuid == u;
      KeysToOne(d.links, u, c);
      var h := History(d.calls, c);
      ListOn(log, n, h, KeysTo(d.links, c), History(next.calls, c)[|h|]);
    } else {
      KeysToGrows(d.links, u, to, c);
      ListKept(log, n, History(d.calls, c), KeysTo(d.links, c));
    }
  }

  lemma ListKept(log: seq<Entry>, n: nat, h: seq<Call>, ids: set<string>)
    requires 0 < n <= |log| && Listed(log, n - 1, h, ids)
    ensures Listed(log, n, h, ids)
  {
  }

  lemma KeysToOne(links: map<string, string>, u: string, c: string)
    ensures KeysTo(links[u := c], c) == KeysTo(links, c) + {u}
  {
  }

  // ---------------------------------------------------------------- the two orders

  lemma {:induction false} CallOrderHas(log: seq<Entry>, n: nat, links: map<string, string>, c: string, u: string)
    requires n <= |log|
    ensures u in CallOrder(log, n, links, c) ==> u in KeysTo(links, c)
    ensures u in KeysTo(links, c) && AgentCalled(log, n, u) ==> u in CallOrder(log, n, links, c)
  {
    if n > 0 {
      CallOrderHas(log, n - 1, links, c, u);
    }
  }

  /** Both orders list the answered calls to `c`. */
  lemma OrdersList(agents: map<string, Agent>, parent: string, log: seq<Entry>, calls: map<string, seq<Call>>,
                   c: string, u: string)
    requires Scan(agents, parent, log, |log|, calls).Ok? && History(calls, c) == []
    ensures var d := Scan(agents, parent, log, |log|, calls).value;
            && (u in CallOrder(log, |log|, d.links, c) <==> u in KeysTo(d.links, c))
            && (u in ReceiptOrder(History(d.calls, c)) <==> u in KeysTo(d.links, c))
  {
    hide Scan, AgentCalled, CallOrder;
    CallOrderHas(log, |log|, Scan(agents, parent, log, |log|, calls).value.links, c, u);
    LinksWereCalled(agents, parent, log, |log|, calls, u);
    HistoryRanks(agents, parent, log, |log|, calls, c);
  }

  /** Main result. The turns of a child stand at their own calls exactly when no call to the child has
    * its receipt after that of a later call. */
  lemma TurnsMeetCalls(agents: map<string, Agent>, parent: string, log: seq<Entry>, calls: map<string, seq<Call>>,
                       c: string)
    requires Scan(agents, parent, log, |log|, calls).Ok? && History(calls, c) == []
    ensures var d := Scan(agents, parent, log, |log|, calls).value;
            CallOrder(log, |log|, d.links, c) == ReceiptOrder(History(d.calls, c)) <==> InOrder(log, d.links, c)
  {
    hide Scan, CallOrder, AgentCalled, KeysTo;
    var d := Scan(agents, parent, log, |log|, calls).value;
    var made, filed := CallOrder(log, |log|, d.links, c), ReceiptOrder(History(d.calls, c));
    HistoryRanks(agents, parent, log, |log|, calls, c);
    if InOrder(log, d.links, c) {
      forall u
        ensures u in made <==> u in filed
      {
        OrdersList(agents, parent, log, calls, c, u);
      }
      var rank := map u | u in made :: ReplyRow(log, 0, u);
      SameOrder(made, filed, rank);
    }
  }

  /** A call's place in its child's history is the number of receipts before its own. */
  lemma PlaceIsEarlier(agents: map<string, Agent>, parent: string, log: seq<Entry>, calls: map<string, seq<Call>>,
                       c: string, k: nat)
    requires Scan(agents, parent, log, |log|, calls).Ok? && History(calls, c) == []
    requires k < |History(Scan(agents, parent, log, |log|, calls).value.calls, c)|
    ensures var d := Scan(agents, parent, log, |log|, calls).value;
            |EarlierReplies(log, d.links, c, History(d.calls, c)[k].uuid)| == k
  {
    hide Scan, CallOrder, AgentCalled, KeysTo;
    var d := Scan(agents, parent, log, |log|, calls).value;
    var h := History(d.calls, c);
    var ids := ReceiptOrder(h);
    HistoryRanks(agents, parent, log, |log|, calls, c);
    var earlier := set i | 0 <= i < k :: ids[i];
    forall v
      ensures v in earlier <==> v in EarlierReplies(log, d.links, c, ids[k])
    {
      if v in ids {
        var i :| 0 <= i < |ids| && ids[i] == v;
        assert i < k ==> v in earlier;
      }
    }
    assert earlier == EarlierReplies(log, d.links, c, ids[k]);
    PrefixSet(ids, k);
  }

  /** Main result. The `m`-th answered call of a child is the call `u` made `m`-th exactly when `m` calls
    * to the child have their receipts before that of `u`. */
  lemma OneTurnMeets(agents: map<string, Agent>, parent: string, log: seq<Entry>, calls: map<string, seq<Call>>,
                     c: string, u: string, m: nat)
    requires Scan(agents, parent, log, |log|, calls).Ok? && History(calls, c) == []
    requires u in KeysTo(Scan(agents, parent, log, |log|, calls).value.links, c)
    requires m < |History(Scan(agents, parent, log, |log|, calls).value.calls, c)|
    ensures var d := Scan(agents, parent, log, |log|, calls).value;
            History(d.calls, c)[m].uuid == u <==> |EarlierReplies(log, d.links, c, u)| == m
  {
    hide Scan, CallOrder, AgentCalled, KeysTo, EarlierReplies;
    var d := Scan(agents, parent, log, |log|, calls).value;
    HistoryRanks(agents, parent, log, |log|, calls, c);
    assert u in ReceiptOrder(History(d.calls, c));
    var k :| 0 <= k < |History(d.calls, c)| && History(d.calls, c)[k].uuid == u;
    PlaceIsEarlier(agents, parent, log, calls, c, k);
    PlaceIsEarlier(agents, parent, log, calls, c, m);
  }
}
