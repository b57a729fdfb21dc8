/** Delegation in a CodeBuddy history: calls and receipts, the children they name, and the check
  * that a child's turns answer its completed calls. */
module CodeBuddyDelegation {
  import opened Base
  import opened CodeBuddyRows
  import CodeBuddyRecords

  datatype ChildCall = Foreground(callId: string, prompt: string, afterId: Option<string>, lastId: string)
                     | Background(callId: string, prompt: string, summary: string)
                     | FollowUp(callId: string, prompt: string, summary: string, sentAt: int)

  /** What the receipts prove about a child: the storage parents its files lie under, its agent,
    * its completed calls in receipt order, and the team name and task of a background child. */
  datatype Reference = Reference(parents: seq<string>, copied: bool, agent: string, calls: seq<ChildCall>,
                                 team: Option<string>, task: Option<string>, messages: bool)

  datatype Call = Call(args: Args, name: string, sentAt: Option<int>, parentId: string, copied: bool, child: string)

  /** A fork: rows before the first own one are copies. */
  datatype Fork = Fork(sourceId: Option<string>, copied: bool)

  /** `order` lists the children as they were first met; `links` holds the answered calls. */
  datatype Desk = Desk(copied: bool, order: seq<string>, children: map<string, Reference>,
                       links: map<string, Option<string>>,
                       names: map<string, Option<string>>, calls: map<string, Call>, notices: set<string>)

  datatype Reading = Reading(root: bool, fork: Option<Fork>, team: string)

  // ---------------------------------------------------------------- rows

  function Named(d: Desk, name: Option<string>): Option<string> {
    if name.Some? && name.value in d.names then d.names[name.value] else None
  }

  /** A notification counts only if it is about a background child on record. */
  predicate NoticeFits(d: Desk, n: Notice) {
    && n.Notice? && n.wellFormed && Named(d, n.name).Some? && Named(d, n.name).value in d.children
    && var ref := d.children[Named(d, n.name).value];
       && ref.team == n.name
       && (|| ((!n.system || n.name == Some("system")) && ref.messages && n.reactivates)
           || (n.system
               && ((ref.task.Some? && ref.task.value in n.announces) || (ref.messages && n.name.value in n.announces))))
  }

  function OnNotice(d: Desk, ctx: Reading, r: Record): Result<Desk> {
    if ctx.root && r.UserMessage() && !r.facts.notice.NoNotice? then
      if NoticeFits(d, r.facts.notice) then Ok(d.(notices := d.notices + {r.id})) else Err(Unsupported)
    else Ok(d)
  }

  predicate Sends(d: Desk, ctx: Reading, r: Record) {
    ctx.root && r.name == "SendMessage" && d.names != map[]
  }

  function StorageParent(r: Record): Result<string> {
    if r.facts.session.Some? && Segment(r.facts.session.value) then Ok(r.facts.session.value) else Err(Format)
  }

  function OnCall(d: Desk, ctx: Reading, r: Record): Result<Desk> {
    var a := r.facts.args;
    if r.callId == "" || r.callId in d.calls || !a.Args? then Err(Format)
    else if Sends(d, ctx, r) then
      if !a.message || a.content.None? || a.summary.None? || Named(d, a.recipient).None? then Err(Unsupported)
      else
        var parent :- StorageParent(r);
        Ok(d.(calls := d.calls[r.callId := Call(a, "SendMessage", r.facts.time, parent, d.copied,
                                                Named(d, a.recipient).value)]))
    else if a.wider || (a.background && (!ctx.root || a.resume.Some?)) then Err(Unsupported)
    else if a.prompt.None? then Err(Format)
    else
      var parent :- StorageParent(r);
      Ok(d.(calls := d.calls[r.callId := Call(a, "Agent", r.facts.time, parent, d.copied, "")]))
  }

  /** A call that was answered without a child. */
  function Close(d: Desk, u: string): Desk {
    d.(links := d.links[u := None])
  }

  /** A completed call of child `c`. */
  function File(d: Desk, c: string, ref: Reference, call: ChildCall): Desk {
    d.(order := if c in d.children then d.order else d.order + [c],
       children := d.children[c := ref.(calls := ref.calls + [call])],
       links := d.links[call.callId := Some(c)])
  }

  function OnDelivery(d: Desk, call: Call, r: Record): Result<Desk>
    requires call.args.Args?
  {
    var a, sent := call.args, r.facts.receipt.delivery;
    if r.facts.failed then Ok(Close(d, r.callId))
    else if sent.None? || call.child !in d.children || a.content.None? || a.summary.None?
            || a.recipient != Some(sent.value.recipient) || a.content != Some(sent.value.content)
            || a.summary != Some(sent.value.summary) then Err(Unsupported)
    else if call.sentAt.None? then Err(Format)
    else
      Ok(File(d, call.child, d.children[call.child].(messages := true),
              FollowUp(r.callId, a.content.value, a.summary.value, call.sentAt.value)))
  }

  predicate SpawnFits(ctx: Reading, a: Args, s: Spawn)
    requires a.Args?
  {
    && s.known && ChildName(s.child) && s.name != "" && (forall k :: 0 <= k < |s.name| ==> Plain(s.name[k]))
    && s.team == "_auto_" + ctx.team && s.prompt == a.prompt && s.description == a.description
  }

  function OnSpawn(d: Desk, ctx: Reading, call: Call, r: Record): Result<Desk>
    requires call.args.Args?
  {
    var a, got := call.args, r.facts.receipt;
    if ctx.fork.Some? || r.facts.failed || got.child.Some? || got.spawn.None? then Err(Unsupported)
    else
      var s := got.spawn.value;
      if !Segment(s.child) || a.prompt.None? then Err(Format)
      else if !SpawnFits(ctx, a, s) || s.child in d.children then Err(Unsupported)
      else if a.agent == "" then Err(Format)
      else
        var ref := Reference([call.parentId], call.copied, a.agent, [], Some(s.name), s.description, false);
        var filed :=
          File(d, s.child, ref, Background(r.callId, a.prompt.value, "Initial task assignment for " + s.name));
        Ok(filed.(names := d.names[s.name := if s.name in d.names then None else Some(s.child)]))
  }

  /** A child may continue under another storage parent only in a fork, and never go back. */
  function Continued(ctx: Reading, call: Call, prior: Reference): Result<Reference>
    requires call.args.Args?
  {
    if prior.parents != [] && prior.parents[|prior.parents| - 1] == call.parentId then Ok(prior)
    else if ctx.fork.None? || call.args.resume.None? || call.parentId in prior.parents then Err(Unsupported)
    else Ok(prior.(parents := prior.parents + [call.parentId]))
  }

  function OnFinished(d: Desk, ctx: Reading, call: Call, r: Record): Result<Desk>
    requires call.args.Args?
  {
    var a, got := call.args, r.facts.receipt;
    if got.child.None? then if r.facts.failed then Ok(Close(d, r.callId)) else Err(Format)
    else if !got.plain then Err(Unsupported)
    else if !Segment(got.child.value) then Err(Format)
    else
      var c := got.child.value;
      if !ChildName(c) || (a.resume.Some? && a.resume.value != c) || (a.resume.None? && got.afterId.Some?) then
        Err(Unsupported)
      else if a.agent == "" || a.prompt.None? then Err(Format)
      else
        var ref :- if c in d.children then Continued(ctx, call, d.children[c])
                   else Ok(Reference([call.parentId], call.copied, a.agent, [], None, None, false));
        if ref.agent != a.agent then Err(Unsupported)
        else if got.afterId == Some("") || got.lastId == "" then Err(Format)
        else Ok(File(d, c, ref, Foreground(r.callId, a.prompt.value, got.afterId, got.lastId)))
  }

  function OnReceipt(d: Desk, ctx: Reading, r: Record): Result<Desk> {
    if r.callId == "" || r.callId !in d.calls || r.callId in d.links || d.calls[r.callId].name != r.name
       || !d.calls[r.callId].args.Args? then Err(Format)
    else
      var call := d.calls[r.callId];
      if call.name == "SendMessage" then OnDelivery(d, call, r)
      else if call.args.background then OnSpawn(d, ctx, call, r)
      else OnFinished(d, ctx, call, r)
  }

  function OnRow(d: Desk, ctx: Reading, r: Record): Result<Desk> {
    var own := ctx.fork.Some? && ctx.fork.value.sourceId.Some? && r.facts.session == ctx.fork.value.sourceId;
    var seen :- OnNotice(if own then d.(copied := false) else d, ctx, r);
    if r.kind.FunctionCall? && (r.name == "Agent" || Sends(seen, ctx, r)) then OnCall(seen, ctx, r)
    else if r.kind.FunctionResult? && (r.name == "Agent" || Sends(seen, ctx, r)) then OnReceipt(seen, ctx, r)
    else Ok(seen)
  }

  function Fresh(ctx: Reading): Desk {
    Desk(ctx.fork.Some? && ctx.fork.value.copied, [], map[], map[], map[], map[], {})
  }

  function Scan(entries: seq<Entry>, ctx: Reading, n: nat): Result<Desk>
    requires n <= |entries|
  {
    if n == 0 then Ok(Fresh(ctx))
    else
      var before :- Scan(entries, ctx, n - 1);
      OnRow(before, ctx, entries[n - 1].record)
  }

  /** The session that owns the first record of a file. */
  function Owner(records: seq<Record>): string {
    if records != [] && records[0].facts.session.Some? then records[0].facts.session.value else "undefined"
  }

  function References(records: seq<Record>, root: bool, fork: Option<Fork>): Result<Desk> {
    var entries :- CodeBuddyRecords.HistoryRecords(records);
    var d :- Scan(entries, Reading(root, fork, Owner(records)), |entries|);
    if |d.calls| == |d.links| then Ok(d) else Err(Format)
  }

  // ---------------------------------------------------------------- calls, links and children agree

  function Linked(links: map<string, Option<string>>, c: string): set<string> {
    set u | u in links && links[u] == Some(c)
  }

  function CallIds(calls: seq<ChildCall>): set<string> {
    set k | 0 <= k < |calls| :: calls[k].callId
  }

  /** The child's calls are exactly the answered calls on record for it, each once. */
  ghost predicate CallsMatch(d: Desk, c: string)
    requires c in d.children
  {
    var calls := d.children[c].calls;
    calls != [] && CallIds(calls) == Linked(d.links, c) && |calls| == |Linked(d.links, c)|
  }

  predicate CallRow(entries: seq<Entry>, n: nat, u: string)
    requires n <= |entries|
  {
    exists k :: 0 <= k < n && entries[k].record.kind.FunctionCall? && entries[k].record.callId == u
  }

  ghost predicate Consistent(d: Desk) {
    && d.links.Keys <= d.calls.Keys && Distinct(d.order) && (forall c :: c in d.order <==> c in d.children)
    && (forall u :: u in d.links && d.links[u].Some? ==> d.links[u].value in d.children)
    && (forall c :: c in d.children ==> ChildName(c))
  }

  ghost predicate AllMatch(d: Desk) {
    forall c :: c in d.children ==> CallsMatch(d, c)
  }

  lemma CloseKeeps(d: Desk, u: string)
    requires Consistent(d) && AllMatch(d) && u in d.calls && u !in d.links
    ensures Consistent(Close(d, u)) && AllMatch(Close(d, u))
  {
    forall c | c in d.children
      ensures CallsMatch(Close(d, u), c)
    {
      assert CallsMatch(d, c);
      assert Linked(Close(d, u).links, c) == Linked(d.links, c);
    }
  }

  lemma LinkedGrows(links: map<string, Option<string>>, u: string, c: string, k: string)
    requires u !in links
    ensures Linked(links[u := Some(c)], k) == Linked(links, k) + if k == c then {u} else {}
  {
  }

  lemma FileMatches(d: Desk, c: string, ref: Reference, call: ChildCall)
    requires Consistent(d) && AllMatch(d) && call.callId !in d.links
    requires ref.calls == if c in d.children then d.children[c].calls else []
    ensures AllMatch(File(d, c, ref, call))
  {
    hide CallIds;
    var next, u := File(d, c, ref, call), call.callId;
    forall k | k in next.children
      ensures CallsMatch(next, k)
    {
      LinkedGrows(d.links, u, c, k);
      if k in d.children {
        assert CallsMatch(d, k);
      }
      if k == c {
        FiledMatches(d, c, ref, call);
      }
    }
  }

  lemma FiledMatches(d: Desk, c: string, ref: Reference, call: ChildCall)
    requires Consistent(d) && call.callId !in d.links
    requires ref.calls == if c in d.children then d.children[c].calls else []
    requires c in d.children ==> CallsMatch(d, c)
    ensures CallsMatch(File(d, c, ref, call), c)
  {
    LinkedGrows(d.links, call.callId, c, c);
    CallIdsSnoc(ref.calls, call);
    if c !in d.children {
      assert Linked(d.links, c) == {};
      assert CallIds([]) == {};
    }
    assert call.callId !in Linked(d.links, c);
    hide CallIds, Linked, ChildName;
  }

  lemma CallIdsSnoc(calls: seq<ChildCall>, call: ChildCall)
    ensures CallIds(calls + [call]) == CallIds(calls) + {call.callId}
  {
    var all := calls + [call];
    forall u | u in CallIds(calls) + {call.callId}
      ensures u in CallIds(all)
    {
      if u in CallIds(calls) {
        var k :| 0 <= k < |calls| && calls[k].callId == u;
        assert all[k].callId == u;
      } else {
        assert all[|calls|].callId == u;
      }
    }
  }

  lemma FileKeeps(d: Desk, c: string, ref: Reference, call: ChildCall)
    requires Consistent(d) && call.callId in d.calls && ChildName(c)
    ensures Consistent(File(d, c, ref, call))
  {
    hide ChildName;
    var next := File(d, c, ref, call);
    if c !in d.children {
      assert c !in d.order;
    }
  }

  lemma CopiedIrrelevant(d: Desk, copied: bool, notices: set<string>)
    requires Consistent(d) && AllMatch(d)
    ensures var e := d.(copied := copied, notices := notices); Consistent(e) && AllMatch(e)
  {
    var e := d.(copied := copied, notices := notices);
    forall c | c in e.children
      ensures CallsMatch(e, c)
    {
      assert CallsMatch(d, c);
    }
  }

  lemma CallKeeps(d: Desk, ctx: Reading, r: Record)
    requires Consistent(d) && AllMatch(d) && OnCall(d, ctx, r).Ok?
    ensures Consistent(OnCall(d, ctx, r).value) && AllMatch(OnCall(d, ctx, r).value)
    ensures OnCall(d, ctx, r).value.calls.Keys == d.calls.Keys + {r.callId}
  {
    hide ChildName, Linked, CallIds;
    var e := OnCall(d, ctx, r).value;
    forall c | c in e.children
      ensures CallsMatch(e, c)
    {
      assert CallsMatch(d, c);
    }
  }

  lemma ReceiptKeeps(d: Desk, ctx: Reading, r: Record)
    requires Consistent(d) && AllMatch(d) && OnReceipt(d, ctx, r).Ok?
    ensures Consistent(OnReceipt(d, ctx, r).value) && AllMatch(OnReceipt(d, ctx, r).value)
    ensures OnReceipt(d, ctx, r).value.calls == d.calls
  {
    var call, u := d.calls[r.callId], r.callId;
    if call.name == "SendMessage" {
      DeliveryKeeps(d, call, r);
    } else if call.args.background {
      SpawnKeeps(d, ctx, call, r);
    } else {
      FinishedKeeps(d, ctx, call, r);
    }
  }

  lemma DeliveryKeeps(d: Desk, call: Call, r: Record)
    requires Consistent(d) && AllMatch(d) && r.callId in d.calls && r.callId !in d.links && call.args.Args?
    requires OnDelivery(d, call, r).Ok?
    ensures Consistent(OnDelivery(d, call, r).value) && AllMatch(OnDelivery(d, call, r).value)
    ensures OnDelivery(d, call, r).value.calls == d.calls
  {
    hide Consistent, AllMatch;
    if r.facts.failed {
      CloseKeeps(d, r.callId);
    } else {
      ChildIsNamed(d, call.child);
      var filed := FollowUp(r.callId, call.args.content.value, call.args.summary.value, call.sentAt.value);
      var ref := d.children[call.child].(messages := true);
      FileKeeps(d, call.child, ref, filed);
      FileMatches(d, call.child, ref, filed);
    }
  }

  lemma ChildIsNamed(d: Desk, c: string)
    requires Consistent(d) && c in d.children
    ensures ChildName(c)
  {
  }

  lemma SpawnKeeps(d: Desk, ctx: Reading, call: Call, r: Record)
    requires Consistent(d) && AllMatch(d) && r.callId in d.calls && r.callId !in d.links && call.args.Args?
    requires OnSpawn(d, ctx, call, r).Ok?
    ensures Consistent(OnSpawn(d, ctx, call, r).value) && AllMatch(OnSpawn(d, ctx, call, r).value)
    ensures OnSpawn(d, ctx, call, r).value.calls == d.calls
  {
    hide Consistent, AllMatch, ChildName, Segment;
    var a, s := call.args, r.facts.receipt.spawn.value;
    var ref := Reference([call.parentId], call.copied, a.agent, [], Some(s.name), s.description, false);
    var filed := Background(r.callId, a.prompt.value, "Initial task assignment for " + s.name);
    FileKeeps(d, s.child, ref, filed);
    FileMatches(d, s.child, ref, filed);
    NamesIrrelevant(File(d, s.child, ref, filed), OnSpawn(d, ctx, call, r).value.names);
  }

  lemma NamesIrrelevant(d: Desk, names: map<string, Option<string>>)
    requires Consistent(d) && AllMatch(d)
    ensures Consistent(d.(names := names)) && AllMatch(d.(names := names))
  {
    var e := d.(names := names);
    forall c | c in e.children
      ensures CallsMatch(e, c)
    {
      assert CallsMatch(d, c);
    }
  }

  lemma FinishedKeeps(d: Desk, ctx: Reading, call: Call, r: Record)
    requires Consistent(d) && AllMatch(d) && r.callId in d.calls && r.callId !in d.links && call.args.Args?
    requires OnFinished(d, ctx, call, r).Ok?
    ensures Consistent(OnFinished(d, ctx, call, r).value) && AllMatch(OnFinished(d, ctx, call, r).value)
    ensures OnFinished(d, ctx, call, r).value.calls == d.calls
  {
    hide Consistent, AllMatch, ChildName, Segment;
    var a, got := call.args, r.facts.receipt;
    if got.child.None? {
      CloseKeeps(d, r.callId);
    } else {
      var c := got.child.value;
      var ref := if c in d.children then Continued(ctx, call, d.children[c]).value
                 else Reference([call.parentId], call.copied, a.agent, [], None, None, false);
      var filed := Foreground(r.callId, a.prompt.value, got.afterId, got.lastId);
      FileKeeps(d, c, ref, filed);
      FileMatches(d, c, ref, filed);
    }
  }

  lemma NoticeKeeps(d: Desk, ctx: Reading, r: Record)
    requires OnNotice(d, ctx, r).Ok?
    ensures var e := OnNotice(d, ctx, r).value; e == d.(notices := e.notices)
  {
    hide NoticeFits;
  }

  /** One row keeps the agreement; only call rows open calls. */
  lemma RowKeeps(d: Desk, ctx: Reading, r: Record)
    requires Consistent(d) && AllMatch(d) && OnRow(d, ctx, r).Ok?
    ensures Consistent(OnRow(d, ctx, r).value) && AllMatch(OnRow(d, ctx, r).value)
    ensures OnRow(d, ctx, r).value.calls.Keys == d.calls.Keys
            || (r.kind.FunctionCall? && OnRow(d, ctx, r).value.calls.Keys == d.calls.Keys + {r.callId})
  {
    hide Consistent, AllMatch, OnNotice, OnCall, OnReceipt, Sends;
    var own := ctx.fork.Some? && ctx.fork.value.sourceId.Some? && r.facts.session == ctx.fork.value.sourceId;
    var start := if own then d.(copied := false) else d;
    var seen := OnNotice(start, ctx, r).value;
    NoticeKeeps(start, ctx, r);
    CopiedIrrelevant(d, seen.copied, seen.notices);
    if r.kind.FunctionCall? && (r.name == "Agent" || Sends(seen, ctx, r)) {
      CallKeeps(seen, ctx, r);
    } else if r.kind.FunctionResult? && (r.name == "Agent" || Sends(seen, ctx, r)) {
      ReceiptKeeps(seen, ctx, r);
    }
  }

  lemma FreshKeeps(ctx: Reading)
    ensures Consistent(Fresh(ctx)) && AllMatch(Fresh(ctx))
  {
  }

  /** Calls, answers and children agree after any number of rows. */
  lemma {:induction false} ScanKeeps(entries: seq<Entry>, ctx: Reading, n: nat)
    requires n <= |entries| && Scan(entries, ctx, n).Ok?
    ensures Consistent(Scan(entries, ctx, n).value) && AllMatch(Scan(entries, ctx, n).value)
    ensures forall u :: u in Scan(entries, ctx, n).value.calls ==> CallRow(entries, n, u)
  {
    hide OnRow, Consistent, AllMatch;
    if n == 0 {
      FreshKeeps(ctx);
    } else {
      ScanKeeps(entries, ctx, n - 1);
      var before := Scan(entries, ctx, n - 1).value;
      RowKeeps(before, ctx, entries[n - 1].record);
      forall u | u in Scan(entries, ctx, n).value.calls
        ensures CallRow(entries, n, u)
      {
        if u in before.calls.Keys {
          assert CallRow(entries, n - 1, u);
        }
      }
    }
  }

  /** Main result. When a history's delegation is accepted, every delegation call is answered;
    * each child has its answered calls, once each; and every answered call is a call row. */
  lemma ReferencesAgree(records: seq<Record>, root: bool, fork: Option<Fork>)
    requires References(records, root, fork).Ok?
    ensures CodeBuddyRecords.HistoryRecords(records).Ok?
    ensures var d, entries := References(records, root, fork).value, CodeBuddyRecords.HistoryRecords(records).value;
            && Consistent(d) && AllMatch(d) && d.links.Keys == d.calls.Keys
            && forall u :: u in d.links ==> CallRow(entries, |entries|, u)
  {
    hide Scan, AllMatch, CallRow, Consistent;
    var entries := CodeBuddyRecords.HistoryRecords(records).value;
    var ctx := Reading(root, fork, Owner(records));
    ScanKeeps(entries, ctx, |entries|);
    var d := Scan(entries, ctx, |entries|).value;
    EveryCallAnswered(d);
  }

  lemma EveryCallAnswered(d: Desk)
    requires Consistent(d) && |d.calls| == |d.links|
    ensures d.links.Keys == d.calls.Keys
  {
    SameSize(d.links.Keys, d.calls.Keys);
  }

  lemma SameSize(a: set<string>, b: set<string>)
    requires a <= b && |a| == |b|
    ensures a == b
  {
    assert b == a + (b - a);
  }
}
