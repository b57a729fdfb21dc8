/** What the CodeBuddy delegation check knows after some rows, read off the rows: which row made a
  * call, what its receipt filed for which child, and which names and notifications count. */
module CodeBuddyDesk {
  import opened Base
  import opened CodeBuddyRows
  import opened CodeBuddyDelegation

  // ---------------------------------------------------------------- rows of the protocol

  /** A row of the fork itself. */
  predicate IsOwn(ctx: Reading, r: Record) {
    ctx.fork.Some? && ctx.fork.value.sourceId.Some? && r.facts.session == ctx.fork.value.sourceId
  }

  /** Rows are copies until the fork's first own one. */
  predicate CopiedAt(entries: seq<Entry>, ctx: Reading, n: nat)
    requires n <= |entries|
  {
    ctx.fork.Some? && ctx.fork.value.copied && forall k :: 0 <= k < n ==> !IsOwn(ctx, entries[k].record)
  }

  /** The names that spawned children were given, in the order of their receipts. */
  function Spawned(entries: seq<Entry>, ctx: Reading, n: nat): seq<(string, string)>
    requires n <= |entries|
    decreases n, 0
  {
    if n == 0 then []
    else
      Spawned(entries, ctx, n - 1)
      + if Replies(entries, ctx, n - 1) && IsSpawn(entries, ctx, n - 1)
        then [(entries[n - 1].record.facts.receipt.spawn.value.name,
               entries[n - 1].record.facts.receipt.spawn.value.child)] else []
  }

  /** Rows of the protocol: Agent calls, and messages to named children from the main thread. */
  predicate Concerns(entries: seq<Entry>, ctx: Reading, k: nat)
    requires k < |entries|
    decreases k, 1
  {
    var r := entries[k].record;
    r.name == "Agent" || (ctx.root && r.name == "SendMessage" && Spawned(entries, ctx, k) != [])
  }

  predicate Asks(entries: seq<Entry>, ctx: Reading, k: nat)
    requires k < |entries|
    decreases k, 2
  {
    entries[k].record.kind.FunctionCall? && Concerns(entries, ctx, k)
  }

  predicate Replies(entries: seq<Entry>, ctx: Reading, k: nat)
    requires k < |entries|
    decreases k, 2
  {
    entries[k].record.kind.FunctionResult? && Concerns(entries, ctx, k)
  }

  /** The row that made call `u`. */
  function CallRow(entries: seq<Entry>, ctx: Reading, n: nat, u: string): (k: Option<nat>)
    requires n <= |entries|
    ensures k.Some? ==> k.value < n
    decreases n, 3
  {
    if n == 0 then None
    else if CallRow(entries, ctx, n - 1, u).Some? then CallRow(entries, ctx, n - 1, u)
    else if Asks(entries, ctx, n - 1) && entries[n - 1].record.callId == u then Some(n - 1)
    else None
  }

  /** The receipt of a background Agent call. */
  predicate IsSpawn(entries: seq<Entry>, ctx: Reading, k: nat)
    requires k < |entries|
    decreases k, 4
  {
    var r := entries[k].record;
    && r.name == "Agent" && r.facts.receipt.spawn.Some?
    && CallRow(entries, ctx, k, r.callId).Some?
    && var call := entries[CallRow(entries, ctx, k, r.callId).value].record;
       call.name == "Agent" && call.facts.args.Args? && call.facts.args.background
  }

  // ---------------------------------------------------------------- what receipts file

  predicate Names(spawned: seq<(string, string)>, name: string) {
    exists i :: 0 <= i < |spawned| && spawned[i].0 == name
  }

  /** The name was given to one child only, and this is it. */
  predicate NamesOnly(spawned: seq<(string, string)>, name: string, c: string) {
    exists i :: 0 <= i < |spawned| && spawned[i] == (name, c)
                && forall j :: 0 <= j < |spawned| && j != i ==> spawned[j].0 != name
  }

  /** The child that a message row addresses: the only one of that name so far. */
  ghost function Addressee(entries: seq<Entry>, ctx: Reading, k: nat): Option<string>
    requires k < |entries|
  {
    var r := entries[k].record;
    if r.name == "SendMessage" && r.facts.args.Args? && r.facts.args.recipient.Some?
       && exists c :: NamesOnly(Spawned(entries, ctx, k), r.facts.args.recipient.value, c)
    then var c :| NamesOnly(Spawned(entries, ctx, k), r.facts.args.recipient.value, c); Some(c)
    else None
  }

  lemma OneName(spawned: seq<(string, string)>, name: string, a: string, b: string)
    requires NamesOnly(spawned, name, a) && NamesOnly(spawned, name, b)
    ensures a == b
  {
  }

  datatype Filing = Filing(child: string, call: ChildCall)

  /** What receipt row `k` files for the call of row `i`. */
  ghost function Filed(entries: seq<Entry>, ctx: Reading, i: nat, k: nat): Option<Filing>
    requires i < k < |entries| && entries[i].record.facts.args.Args?
  {
    var a, got, u := entries[i].record.facts.args, entries[k].record.facts.receipt, entries[k].record.callId;
    var prompt := if a.prompt.Some? then a.prompt.value else "";
    if entries[i].record.name == "SendMessage" then
      if entries[k].record.facts.failed || Addressee(entries, ctx, i).None? || a.content.None? || a.summary.None?
         || entries[i].record.facts.time.None? then None
      else Some(Filing(Addressee(entries, ctx, i).value,
                       FollowUp(u, a.content.value, a.summary.value, entries[i].record.facts.time.value)))
    else if a.background then
      if got.spawn.None? then None
      else Some(Filing(got.spawn.value.child,
                       Background(u, prompt, "Initial task assignment for " + got.spawn.value.name)))
    else if got.child.None? then None
    else Some(Filing(got.child.value, Foreground(u, prompt, got.afterId, got.lastId)))
  }

  ghost function FiledBy(entries: seq<Entry>, ctx: Reading, k: nat): Option<Filing>
    requires k < |entries|
  {
    var i := CallRow(entries, ctx, k, entries[k].record.callId);
    if Replies(entries, ctx, k) && i.Some? && entries[i.value].record.facts.args.Args?
    then Filed(entries, ctx, i.value, k) else None
  }

  function SessionAt(r: Record): string {
    if r.facts.session.Some? then r.facts.session.value else ""
  }

  /** What the receipts among the first `n` rows prove about a child. */
  ghost function RefOf(entries: seq<Entry>, ctx: Reading, n: nat, c: string): Option<Reference>
    requires n <= |entries|
  {
    if n == 0 then None
    else
      var before, k := RefOf(entries, ctx, n - 1, c), n - 1;
      var f := FiledBy(entries, ctx, k);
      if f.None? || f.value.child != c then before
      else
        var i := CallRow(entries, ctx, k, entries[k].record.callId).value;
        var session, call := SessionAt(entries[i].record), f.value.call;
        match before
        case None =>
          var spawn := if call.Background? then entries[k].record.facts.receipt.spawn else None;
          Some(Reference([session], CopiedAt(entries, ctx, i + 1), entries[i].record.facts.args.agent, [call],
                         if spawn.Some? then Some(spawn.value.name) else None,
                         if spawn.Some? then spawn.value.description else None, false))
        case Some(ref) =>
          Some(ref.(calls := ref.calls + [call], messages := ref.messages || call.FollowUp?,
                    parents := if call.FollowUp? || (ref.parents != [] && ref.parents[|ref.parents| - 1] == session)
                               then ref.parents else ref.parents + [session]))
  }

  // ---------------------------------------------------------------- the desk after n rows

  predicate Announces(ctx: Reading, r: Record) {
    ctx.root && r.UserMessage() && !r.facts.notice.NoNotice?
  }

  ghost predicate NamesRead(entries: seq<Entry>, ctx: Reading, n: nat, d: Desk)
    requires n <= |entries|
  {
    var spawned := Spawned(entries, ctx, n);
    && (forall name :: name in d.names <==> Names(spawned, name))
    && (forall name, c :: name in d.names ==> (d.names[name] == Some(c) <==> NamesOnly(spawned, name, c)))
    && (d.names == map[] <==> spawned == [])
  }

  /** What is on record of the call that row `k` made. */
  ghost predicate CallIs(entries: seq<Entry>, ctx: Reading, k: nat, call: Call)
    requires k < |entries|
  {
    var r := entries[k].record;
    && call.args == r.facts.args && call.args.Args? && call.name == r.name && call.sentAt == r.facts.time
    && Some(call.parentId) == r.facts.session && call.copied == CopiedAt(entries, ctx, k + 1)
    && (if r.name == "SendMessage" then
          Addressee(entries, ctx, k) == Some(call.child) && r.facts.args.content.Some? && r.facts.args.summary.Some?
        else r.facts.args.prompt.Some?)
  }

  ghost predicate CallsRead(entries: seq<Entry>, ctx: Reading, n: nat, d: Desk)
    requires n <= |entries|
  {
    && (forall u :: u in d.calls <==> CallRow(entries, ctx, n, u).Some?)
    && (forall u :: u in d.calls ==> CallIs(entries, ctx, CallRow(entries, ctx, n, u).value, d.calls[u]))
  }

  predicate RepliesTo(entries: seq<Entry>, ctx: Reading, n: nat, k: nat, u: string) {
    k < n <= |entries| && Replies(entries, ctx, k) && entries[k].record.callId == u
  }

  ghost predicate LinksRead(entries: seq<Entry>, ctx: Reading, n: nat, d: Desk)
    requires n <= |entries|
  {
    && (forall u :: u in d.links <==> exists k: nat :: RepliesTo(entries, ctx, n, k, u))
    && (forall k: nat, u :: RepliesTo(entries, ctx, n, k, u) && u in d.links ==>
          d.links[u] == var f := FiledBy(entries, ctx, k); if f.Some? then Some(f.value.child) else None)
  }

  ghost predicate DeskRead(entries: seq<Entry>, ctx: Reading, n: nat, d: Desk)
    requires n <= |entries|
  {
    && d.copied == CopiedAt(entries, ctx, n) && NamesRead(entries, ctx, n, d)
    && CallsRead(entries, ctx, n, d) && LinksRead(entries, ctx, n, d)
    && (forall c :: RefOf(entries, ctx, n, c) == if c in d.children then Some(d.children[c]) else None)
    && (forall id :: id in d.notices <==>
          exists k :: 0 <= k < n && Announces(ctx, entries[k].record) && entries[k].record.id == id)
  }

  // ---------------------------------------------------------------- one row later

  lemma AddresseeIs(entries: seq<Entry>, ctx: Reading, n: nat, d: Desk)
    requires n < |entries| && NamesRead(entries, ctx, n, d)
    requires var r := entries[n].record; r.name == "SendMessage" && r.facts.args.Args?
    ensures Addressee(entries, ctx, n) == Named(d, entries[n].record.facts.args.recipient)
  {
    var recipient := entries[n].record.facts.args.recipient;
    if recipient.Some? && recipient.value in d.names {
      forall a, b | NamesOnly(Spawned(entries, ctx, n), recipient.value, a)
                    && NamesOnly(Spawned(entries, ctx, n), recipient.value, b)
        ensures a == b
      {
        OneName(Spawned(entries, ctx, n), recipient.value, a, b);
      }
    } else if recipient.Some? {
      assert !Names(Spawned(entries, ctx, n), recipient.value);
    }
    hide Spawned;
  }

  lemma SendsExactly(entries: seq<Entry>, ctx: Reading, n: nat, d: Desk)
    requires n < |entries| && NamesRead(entries, ctx, n, d)
    ensures Concerns(entries, ctx, n) <==> entries[n].record.name == "Agent" || Sends(d, ctx, entries[n].record)
  {
  }

  /** A call row is on record with what it says. */
  lemma AskMoves(entries: seq<Entry>, ctx: Reading, n: nat, d: Desk)
    requires n < |entries| && Asks(entries, ctx, n) && NamesRead(entries, ctx, n, d)
    requires d.copied == CopiedAt(entries, ctx, n + 1) && OnCall(d, ctx, entries[n].record).Ok?
    ensures var r := entries[n].record; var after := OnCall(d, ctx, r).value;
            && r.callId !in d.calls && r.callId in after.calls && CallIs(entries, ctx, n, after.calls[r.callId])
            && after == d.(calls := d.calls[r.callId := after.calls[r.callId]])
  {
    var r := entries[n].record;
    SendsExactly(entries, ctx, n, d);
    if r.name == "SendMessage" {
      AddresseeIs(entries, ctx, n, d);
    }
    hide NamesRead, CopiedAt, Segment, Addressee;
  }

  /** What a receipt does to the desk, by what it files. */
  ghost predicate ReplyMovesDesk(entries: seq<Entry>, ctx: Reading, n: nat, d: Desk, after: Desk)
    requires n < |entries|
  {
    var r := entries[n].record;
    var f, i := FiledBy(entries, ctx, n), CallRow(entries, ctx, n, r.callId);
    && r.callId in d.calls && r.callId !in d.links && i.Some?
    && after.calls == d.calls && after.notices == d.notices && after.copied == d.copied
    && after.links == d.links[r.callId := if f.Some? then Some(f.value.child) else None]
    && (if f.None? then after.children == d.children
        else
          && f.value.child in after.children
          && after.children == d.children[f.value.child := after.children[f.value.child]]
          && Extends(entries, ctx, i.value, n,
                    if f.value.child in d.children then Some(d.children[f.value.child]) else None,
                     f.value.call, after.children[f.value.child]))
    && after.names == (if IsSpawn(entries, ctx, n) then
                         var s := r.facts.receipt.spawn.value;
                         d.names[s.name := if s.name in d.names then None else Some(s.child)]
                       else d.names)
  }

  /** The reference of a child behind one more call. */
  ghost predicate Extends(entries: seq<Entry>, ctx: Reading, i: nat, k: nat, before: Option<Reference>, call: ChildCall,
                          after: Reference)
    requires i < |entries| && k < |entries| && entries[i].record.facts.args.Args?
  {
    var session := SessionAt(entries[i].record);
    match before
    case None =>
      var spawn := if call.Background? then entries[k].record.facts.receipt.spawn else None;
      after == Reference([session], CopiedAt(entries, ctx, i + 1), entries[i].record.facts.args.agent, [call],
                         if spawn.Some? then Some(spawn.value.name) else None,
                         if spawn.Some? then spawn.value.description else None, false)
    case Some(ref) =>
      after == ref.(calls := ref.calls + [call], messages := ref.messages || call.FollowUp?,
                    parents := if call.FollowUp? || (ref.parents != [] && ref.parents[|ref.parents| - 1] == session)
                               then ref.parents else ref.parents + [session])
  }

  /** Receipt row `n` answers the call of row `i`, which is on record. */
  ghost predicate Answering(entries: seq<Entry>, ctx: Reading, i: nat, n: nat, d: Desk, call: Call)
    requires i < n < |entries|
  {
    var u := entries[n].record.callId;
    && Replies(entries, ctx, n) && CallRow(entries, ctx, n, u) == Some(i) && CallIs(entries, ctx, i, call)
    && u in d.calls && d.calls[u] == call && u !in d.links && call.name == entries[n].record.name
  }

  lemma DeliveryMoves(entries: seq<Entry>, ctx: Reading, i: nat, n: nat, d: Desk, call: Call)
    requires i < n < |entries| && Answering(entries, ctx, i, n, d, call) && call.name == "SendMessage"
    requires OnDelivery(d, call, entries[n].record).Ok?
    ensures ReplyMovesDesk(entries, ctx, n, d, OnDelivery(d, call, entries[n].record).value)
  {
    hide Spawned, CallRow, CopiedAt, Addressee, Replies;
  }

  lemma SpawnMoves(entries: seq<Entry>, ctx: Reading, i: nat, n: nat, d: Desk, call: Call)
    requires i < n < |entries| && Answering(entries, ctx, i, n, d, call) && call.name == "Agent"
    requires call.args.background && OnSpawn(d, ctx, call, entries[n].record).Ok?
    ensures ReplyMovesDesk(entries, ctx, n, d, OnSpawn(d, ctx, call, entries[n].record).value)
  {
    hide Spawned, CallRow, CopiedAt, Addressee, Replies, Segment, SpawnFits;
  }

  lemma FinishedMoves(entries: seq<Entry>, ctx: Reading, i: nat, n: nat, d: Desk, call: Call)
    requires i < n < |entries| && Answering(entries, ctx, i, n, d, call) && call.name == "Agent"
    requires !call.args.background && OnFinished(d, ctx, call, entries[n].record).Ok?
    ensures ReplyMovesDesk(entries, ctx, n, d, OnFinished(d, ctx, call, entries[n].record).value)
  {
    hide Spawned, CallRow, CopiedAt, Addressee, Replies, Segment, ChildName;
  }

  lemma ReplyMoves(entries: seq<Entry>, ctx: Reading, n: nat, d: Desk)
    requires n < |entries| && Replies(entries, ctx, n) && CallsRead(entries, ctx, n, d)
    requires OnReceipt(d, ctx, entries[n].record).Ok?
    ensures entries[n].record.callId in d.calls
            && CallRow(entries, ctx, n, entries[n].record.callId).Some?
            && entries[CallRow(entries, ctx, n, entries[n].record.callId).value].record.facts.args.Args?
    ensures ReplyMovesDesk(entries, ctx, n, d, OnReceipt(d, ctx, entries[n].record).value)
  {
    var r := entries[n].record;
    var call := d.calls[r.callId];
    var i := CallRow(entries, ctx, n, r.callId).value;
    assert CallIs(entries, ctx, i, call);
    hide CallsRead, Spawned, CallRow, CopiedAt, Addressee, Segment, ChildName, Plain;
    if call.name == "SendMessage" {
      DeliveryMoves(entries, ctx, i, n, d, call);
    } else if call.args.background {
      SpawnMoves(entries, ctx, i, n, d, call);
    } else {
      FinishedMoves(entries, ctx, i, n, d, call);
    }
  }

  lemma CopiedNext(entries: seq<Entry>, ctx: Reading, n: nat)
    requires n < |entries|
    ensures CopiedAt(entries, ctx, n + 1) <==> CopiedAt(entries, ctx, n) && !IsOwn(ctx, entries[n].record)
  {
  }

  lemma NamesNext(entries: seq<Entry>, ctx: Reading, n: nat, d: Desk, after: Desk)
    requires n < |entries| && NamesRead(entries, ctx, n, d)
    requires after.names == (if Replies(entries, ctx, n) && IsSpawn(entries, ctx, n) then
                               var s := entries[n].record.facts.receipt.spawn.value;
                               d.names[s.name := if s.name in d.names then None else Some(s.child)]
                             else d.names)
    ensures NamesRead(entries, ctx, n + 1, after)
  {
    hide CallRow, Replies, IsSpawn, Concerns;
    var m := n + 1;
    var before, spawned := Spawned(entries, ctx, n), Spawned(entries, ctx, m);
    if Replies(entries, ctx, n) && IsSpawn(entries, ctx, n) {
      SpawnIsSome(entries, ctx, n);
      var s := entries[n].record.facts.receipt.spawn.value;
      assert spawned == before + [(s.name, s.child)];
      NamesSnoc(before, (s.name, s.child));
      hide Names, NamesOnly, Spawned;
    } else {
      assert spawned == before;
    }
  }

  lemma SpawnIsSome(entries: seq<Entry>, ctx: Reading, n: nat)
    requires n < |entries| && IsSpawn(entries, ctx, n)
    ensures entries[n].record.facts.receipt.spawn.Some?
  {
  }

  lemma NamesSnoc(spawned: seq<(string, string)>, more: (string, string))
    ensures forall name :: Names(spawned + [more], name) <==> Names(spawned, name) || more.0 == name
    ensures forall name, c :: NamesOnly(spawned + [more], name, c) <==>
              if more.0 == name then !Names(spawned, name) && more.1 == c else NamesOnly(spawned, name, c)
  {
    var longer := spawned + [more];
    assert longer[|spawned|] == more;
    forall name
      ensures Names(longer, name) <==> Names(spawned, name) || more.0 == name
    {
      if Names(spawned, name) {
        var i :| 0 <= i < |spawned| && spawned[i].0 == name;
        assert longer[i].0 == name;
      }
    }
    forall name, c
      ensures NamesOnly(longer, name, c) <==>
              if more.0 == name then !Names(spawned, name) && more.1 == c else NamesOnly(spawned, name, c)
    {
      OnlySnoc(spawned, more, name, c);
    }
  }

  lemma OnlySnoc(spawned: seq<(string, string)>, more: (string, string), name: string, c: string)
    ensures NamesOnly(spawned + [more], name, c) <==>
            if more.0 == name then !Names(spawned, name) && more.1 == c else NamesOnly(spawned, name, c)
  {
    var longer := spawned + [more];
    assert longer[|spawned|] == more;
    assert forall i :: 0 <= i < |spawned| ==> longer[i] == spawned[i];
    if NamesOnly(longer, name, c) {
      var i :| 0 <= i < |longer| && longer[i] == (name, c)
               && forall j :: 0 <= j < |longer| && j != i ==> longer[j].0 != name;
      if more.0 == name {
        assert i == |spawned|;
      } else {
        assert spawned[i] == (name, c);
      }
    }
    if more.0 == name && !Names(spawned, name) && more.1 == c {
      assert longer[|spawned|] == (name, c);
    } else if more.0 != name && NamesOnly(spawned, name, c) {
      var i :| 0 <= i < |spawned| && spawned[i] == (name, c)
               && forall j :: 0 <= j < |spawned| && j != i ==> spawned[j].0 != name;
      assert longer[i] == (name, c);
    }
  }

  lemma CallsNext(entries: seq<Entry>, ctx: Reading, n: nat, d: Desk, after: Desk)
    requires n < |entries| && CallsRead(entries, ctx, n, d)
    requires var u := entries[n].record.callId;
             if Asks(entries, ctx, n) then
               u !in d.calls && u in after.calls && CallIs(entries, ctx, n, after.calls[u])
               && after.calls == d.calls[u := after.calls[u]]
             else after.calls == d.calls
    ensures CallsRead(entries, ctx, n + 1, after)
  {
    hide Asks, CallIs;
    var m := n + 1;
    forall u
      ensures CallRow(entries, ctx, m, u)
              == if CallRow(entries, ctx, n, u).Some? then CallRow(entries, ctx, n, u)
                 else if Asks(entries, ctx, n) && entries[n].record.callId == u then Some(n) else None
    {
    }
    hide CallRow;
  }

  lemma LinksNext(entries: seq<Entry>, ctx: Reading, n: nat, d: Desk, after: Desk)
    requires n < |entries| && LinksRead(entries, ctx, n, d)
    requires var u := entries[n].record.callId;
             if Replies(entries, ctx, n) then
               u !in d.links
               && after.links == d.links[u := var f := FiledBy(entries, ctx, n);
                                              if f.Some? then Some(f.value.child) else None]
             else after.links == d.links
    ensures LinksRead(entries, ctx, n + 1, after)
  {
    hide Replies, FiledBy;
    var m, w := n + 1, entries[n].record.callId;
    forall u
      ensures u in after.links <==> exists k: nat :: RepliesTo(entries, ctx, m, k, u)
    {
      if u in d.links {
        var k: nat :| RepliesTo(entries, ctx, n, k, u);
        assert RepliesTo(entries, ctx, m, k, u);
      }
      assert Replies(entries, ctx, n) && u == w ==> RepliesTo(entries, ctx, m, n, u);
      if k: nat :| RepliesTo(entries, ctx, m, k, u) {
        assert k == n || RepliesTo(entries, ctx, n, k, u);
      }
    }
    forall k: nat, u | RepliesTo(entries, ctx, m, k, u) && u in after.links
      ensures after.links[u] == var f := FiledBy(entries, ctx, k); if f.Some? then Some(f.value.child) else None
    {
      if k < n {
        assert RepliesTo(entries, ctx, n, k, u);
      }
    }
  }

  lemma ChildrenNext(entries: seq<Entry>, ctx: Reading, n: nat, d: Desk, after: Desk)
    requires n < |entries|
    requires forall c :: RefOf(entries, ctx, n, c) == if c in d.children then Some(d.children[c]) else None
    requires if Replies(entries, ctx, n) then ReplyMovesDesk(entries, ctx, n, d, after)
             else after.children == d.children
    ensures var m := n + 1;
            forall c :: RefOf(entries, ctx, m, c) == if c in after.children then Some(after.children[c]) else None
  {
    var m := n + 1;
    NotFiled(entries, ctx, n);
    hide Replies, FiledBy, CallRow, Spawned, IsSpawn, CopiedAt;
    forall c
      ensures RefOf(entries, ctx, m, c) == if c in after.children then Some(after.children[c]) else None
    {
      assert RefOf(entries, ctx, n, c) == if c in d.children then Some(d.children[c]) else None;
    }
  }

  lemma NotFiled(entries: seq<Entry>, ctx: Reading, n: nat)
    requires n < |entries|
    ensures !Replies(entries, ctx, n) ==> FiledBy(entries, ctx, n).None?
    ensures FiledBy(entries, ctx, n).Some? ==> CallRow(entries, ctx, n, entries[n].record.callId).Some?
  {
  }

  /** The stages of a row: its notification, then its call or its receipt. */
  lemma RowStages(entries: seq<Entry>, ctx: Reading, n: nat, d: Desk) returns (seen: Desk)
    requires n < |entries| && NamesRead(entries, ctx, n, d) && OnRow(d, ctx, entries[n].record).Ok?
    ensures var r := entries[n].record; var after := OnRow(d, ctx, r).value;
            && seen == d.(copied := d.copied && !IsOwn(ctx, r), notices := seen.notices)
            && seen.notices == (if Announces(ctx, r) then d.notices + {r.id} else d.notices)
            && (if Asks(entries, ctx, n) then OnCall(seen, ctx, r) == Ok(after)
                else if Replies(entries, ctx, n) then OnReceipt(seen, ctx, r) == Ok(after)
                else after == seen)
  {
    hide OnCall, OnReceipt, NoticeFits, NamesRead, Spawned, Concerns;
    var r := entries[n].record;
    var start := if IsOwn(ctx, r) then d.(copied := false) else d;
    seen := OnNotice(start, ctx, r).value;
    SendsExactly(entries, ctx, n, d);
    assert Sends(seen, ctx, r) == Sends(d, ctx, r);
  }

  lemma NamesSame(entries: seq<Entry>, ctx: Reading, n: nat, d: Desk, e: Desk)
    requires n <= |entries| && NamesRead(entries, ctx, n, d) && e.names == d.names
    ensures NamesRead(entries, ctx, n, e)
  {
    hide Spawned;
  }

  lemma CallsSame(entries: seq<Entry>, ctx: Reading, n: nat, d: Desk, e: Desk)
    requires n <= |entries| && CallsRead(entries, ctx, n, d) && e.calls == d.calls
    ensures CallsRead(entries, ctx, n, e)
  {
    hide CallRow, CallIs;
  }

  /** What a row changes, whichever it is. */
  lemma RowMoves(entries: seq<Entry>, ctx: Reading, n: nat, d: Desk)
    requires n < |entries| && OnRow(d, ctx, entries[n].record).Ok?
    requires NamesRead(entries, ctx, n, d) && CallsRead(entries, ctx, n, d) && d.copied == CopiedAt(entries, ctx, n)
    ensures var r, u := entries[n].record, entries[n].record.callId;
            var after := OnRow(d, ctx, r).value;
            && after.copied == CopiedAt(entries, ctx, n + 1)
            && after.notices == (if Announces(ctx, r) then d.notices + {r.id} else d.notices)
            && (if Replies(entries, ctx, n) then ReplyMovesDesk(entries, ctx, n, d.(copied := after.copied,
                                                                                   notices := after.notices), after)
                else after.children == d.children && after.links == d.links && after.names == d.names)
            && (if Asks(entries, ctx, n) then
                  u !in d.calls && u in after.calls && CallIs(entries, ctx, n, after.calls[u])
                  && after.calls == d.calls[u := after.calls[u]]
                else after.calls == d.calls)
  {
    hide OnRow, OnCall, OnReceipt, NamesRead, CallsRead, CopiedAt, CallIs, Announces, IsOwn, FiledBy, CallRow, IsSpawn,
         Extends, Spawned, Concerns;
    var seen := RowStages(entries, ctx, n, d);
    CopiedNext(entries, ctx, n);
    NamesSame(entries, ctx, n, d, seen);
    CallsSame(entries, ctx, n, d, seen);
    if Asks(entries, ctx, n) {
      AskMoves(entries, ctx, n, seen);
    } else if Replies(entries, ctx, n) {
      ReplyMoves(entries, ctx, n, seen);
    }
  }

  lemma DeskReadNext(entries: seq<Entry>, ctx: Reading, n: nat, d: Desk)
    requires n < |entries| && DeskRead(entries, ctx, n, d) && OnRow(d, ctx, entries[n].record).Ok?
    ensures DeskRead(entries, ctx, n + 1, OnRow(d, ctx, entries[n].record).value)
  {
    hide OnRow, NamesRead, CallsRead, LinksRead, CopiedAt, RefOf, FiledBy, CallRow, IsSpawn, Extends, Asks, Replies,
         CallIs, Announces;
    var after := OnRow(d, ctx, entries[n].record).value;
    RowMoves(entries, ctx, n, d);
    var seen := d.(copied := after.copied, notices := after.notices);
    NamesNext(entries, ctx, n, d, after);
    CallsNext(entries, ctx, n, d, after);
    LinksNext(entries, ctx, n, d, after);
    ChildrenNext(entries, ctx, n, seen, after);
    NoticesNext(entries, ctx, n, d, after);
  }

  lemma NoticesNext(entries: seq<Entry>, ctx: Reading, n: nat, d: Desk, after: Desk)
    requires n < |entries|
    requires forall id :: id in d.notices <==>
               exists k :: 0 <= k < n && Announces(ctx, entries[k].record) && entries[k].record.id == id
    requires after.notices == if Announces(ctx, entries[n].record) then d.notices + {entries[n].record.id}
             else d.notices
    ensures var m := n + 1;
            forall id :: id in after.notices <==>
              exists k :: 0 <= k < m && Announces(ctx, entries[k].record) && entries[k].record.id == id
  {
    hide Announces;
  }

  lemma NothingRead(entries: seq<Entry>, ctx: Reading)
    ensures DeskRead(entries, ctx, 0, Fresh(ctx))
  {
    assert Spawned(entries, ctx, 0) == [];
  }

  /** After every accepted prefix the desk holds exactly what the rows say: which row made which
    * call, what each receipt filed for which child, the names of spawned children and the
    * notifications about them. */
  lemma {:induction false} DeskIsRead(entries: seq<Entry>, ctx: Reading, n: nat)
    requires n <= |entries| && Scan(entries, ctx, n).Ok?
    ensures DeskRead(entries, ctx, n, Scan(entries, ctx, n).value)
  {
    hide OnRow, DeskRead;
    if n == 0 {
      NothingRead(entries, ctx);
    } else {
      DeskIsRead(entries, ctx, n - 1);
      DeskReadNext(entries, ctx, n - 1, Scan(entries, ctx, n - 1).value);
    }
  }

  // ---------------------------------------------------------------- the rows that may come next

  /** A notification is about one background child: a reactivation or an announced completion. */
  ghost predicate NoticeAccepted(entries: seq<Entry>, ctx: Reading, n: nat, note: Notice)
    requires n < |entries|
  {
    && note.Notice? && note.wellFormed && note.name.Some?
    && exists c :: NamesOnly(Spawned(entries, ctx, n), note.name.value, c) && RefOf(entries, ctx, n, c).Some?
                   && NoticeMatches(RefOf(entries, ctx, n, c).value, note)
  }

  predicate NoticeMatches(ref: Reference, note: Notice)
    requires note.Notice? && note.name.Some?
  {
    && ref.team == note.name
    && if note.system then
         || (note.name.value == "system" && ref.messages && note.reactivates)
         || (ref.task.Some? && ref.task.value in note.announces) || (ref.messages && note.name.value in note.announces)
       else ref.messages && note.reactivates
  }

  ghost predicate AskFits(entries: seq<Entry>, ctx: Reading, n: nat)
    requires n < |entries|
  {
    var r, a := entries[n].record, entries[n].record.facts.args;
    && r.callId != "" && CallRow(entries, ctx, n, r.callId).None? && a.Args?
    && r.facts.session.Some? && Segment(r.facts.session.value)
    && if r.name == "SendMessage" then
         a.message && a.content.Some? && a.summary.Some? && Addressee(entries, ctx, n).Some?
       else !a.wider && a.prompt.Some? && (a.background ==> ctx.root && a.resume.None?)
  }

  /** A delivered message repeats what the call sent. */
  predicate DeliveryFits(a: Args, r: Record)
    requires a.Args?
  {
    r.facts.failed
    || (r.facts.receipt.delivery.Some?
        && var sent := r.facts.receipt.delivery.value;
           a.recipient == Some(sent.recipient) && a.content == Some(sent.content) && a.summary == Some(sent.summary))
  }

  ghost predicate SpawnAccepted(entries: seq<Entry>, ctx: Reading, n: nat, a: Args)
    requires n < |entries| && a.Args?
  {
    var r := entries[n].record;
    && ctx.fork.None? && !r.facts.failed && r.facts.receipt.child.None? && r.facts.receipt.spawn.Some?
    && var s := r.facts.receipt.spawn.value;
       && s.known && Segment(s.child) && ChildName(s.child) && RefOf(entries, ctx, n, s.child).None? && a.agent != ""
       && s.name != "" && (forall k :: 0 <= k < |s.name| ==> Plain(s.name[k])) && s.team == "_auto_" + ctx.team
       && a.prompt == s.prompt && a.description == s.description
  }

  /** A finished call names its child: a new one, or the one it resumed under the same agent, and
    * in a fork perhaps under a further storage parent. */
  ghost predicate FinishedAccepted(entries: seq<Entry>, ctx: Reading, n: nat, call: Record)
    requires n < |entries| && call.facts.args.Args?
  {
    var r, a, got := entries[n].record, call.facts.args, entries[n].record.facts.receipt;
    if got.child.None? then r.facts.failed
    else
      var c := got.child.value;
      && got.plain && Segment(c) && ChildName(c) && a.agent != "" && got.afterId != Some("") && got.lastId != ""
      && (a.resume.Some? ==> a.resume.value == c) && (a.resume.None? ==> got.afterId.None?)
      && (RefOf(entries, ctx, n, c).Some? ==>
            var ref := RefOf(entries, ctx, n, c).value;
            && ref.agent == a.agent
            && ((ref.parents != [] && ref.parents[|ref.parents| - 1] == SessionAt(call))
                || (ctx.fork.Some? && a.resume.Some? && SessionAt(call) !in ref.parents)))
  }

  ghost predicate ReplyFits(entries: seq<Entry>, ctx: Reading, n: nat)
    requires n < |entries|
  {
    var r, i := entries[n].record, CallRow(entries, ctx, n, entries[n].record.callId);
    && r.callId != "" && i.Some? && !(exists k: nat :: RepliesTo(entries, ctx, n, k, r.callId))
    && var call := entries[i.value].record;
       && call.name == r.name && call.facts.args.Args?
       && if call.name == "SendMessage" then
            DeliveryFits(call.facts.args, r) && (r.facts.failed || call.facts.time.Some?)
          else if call.facts.args.background then SpawnAccepted(entries, ctx, n, call.facts.args)
          else FinishedAccepted(entries, ctx, n, call)
  }

  ghost predicate Follows(entries: seq<Entry>, ctx: Reading, n: nat)
    requires n < |entries|
  {
    && (Announces(ctx, entries[n].record) ==> NoticeAccepted(entries, ctx, n, entries[n].record.facts.notice))
    && (Asks(entries, ctx, n) ==> AskFits(entries, ctx, n)) && (Replies(entries, ctx, n) ==> ReplyFits(entries, ctx, n))
  }

  lemma NoticeExactly(entries: seq<Entry>, ctx: Reading, n: nat, d: Desk, note: Notice)
    requires n < |entries| && DeskRead(entries, ctx, n, d)
    ensures NoticeFits(d, note) <==> NoticeAccepted(entries, ctx, n, note)
  {
    hide RefOf, Spawned, CallsRead, LinksRead, CopiedAt;
    if note.Notice? && note.name.Some? && note.name.value in d.names {
      assert RefOf(entries, ctx, n, if d.names[note.name.value].Some? then d.names[note.name.value].value else "")
             == RefOf(entries, ctx, n, if d.names[note.name.value].Some? then d.names[note.name.value].value else "");
    } else if note.Notice? && note.name.Some? {
      assert !Names(Spawned(entries, ctx, n), note.name.value);
    }
  }

  lemma AskExactly(entries: seq<Entry>, ctx: Reading, n: nat, d: Desk)
    requires n < |entries| && Asks(entries, ctx, n) && NamesRead(entries, ctx, n, d) && CallsRead(entries, ctx, n, d)
    ensures OnCall(d, ctx, entries[n].record).Ok? <==> AskFits(entries, ctx, n)
  {
    SendsExactly(entries, ctx, n, d);
    var r := entries[n].record;
    if r.name == "SendMessage" && r.facts.args.Args? {
      AddresseeIs(entries, ctx, n, d);
    }
    hide NamesRead, Segment, Addressee, CallRow, CallIs, Spawned;
  }

  /** A spawned child has a reference. */
  lemma {:induction false} SpawnedIsKnown(entries: seq<Entry>, ctx: Reading, n: nat, c: string)
    requires n <= |entries| && exists i :: 0 <= i < |Spawned(entries, ctx, n)| && Spawned(entries, ctx, n)[i].1 == c
    ensures RefOf(entries, ctx, n, c).Some?
  {
    var k := n - 1;
    var i :| 0 <= i < |Spawned(entries, ctx, n)| && Spawned(entries, ctx, n)[i].1 == c;
    if i < |Spawned(entries, ctx, k)| {
      assert Spawned(entries, ctx, k)[i] == Spawned(entries, ctx, n)[i];
      SpawnedIsKnown(entries, ctx, k, c);
    } else {
      assert Replies(entries, ctx, k) && IsSpawn(entries, ctx, k);
      assert FiledBy(entries, ctx, k).Some? && FiledBy(entries, ctx, k).value.child == c;
    }
    hide FiledBy, Spawned;
  }

  lemma {:induction false} RefStays(entries: seq<Entry>, ctx: Reading, m: nat, n: nat, c: string)
    requires m <= n <= |entries| && RefOf(entries, ctx, m, c).Some?
    ensures RefOf(entries, ctx, n, c).Some?
  {
    hide FiledBy, CallRow, CopiedAt;
    if m < n {
      RefStays(entries, ctx, m, n - 1, c);
    }
  }

  lemma AddresseeIsKnown(entries: seq<Entry>, ctx: Reading, i: nat, n: nat)
    requires i <= n < |entries| && Addressee(entries, ctx, i).Some?
    ensures RefOf(entries, ctx, n, Addressee(entries, ctx, i).value).Some?
  {
    var c := Addressee(entries, ctx, i).value;
    assert NamesOnly(Spawned(entries, ctx, i), entries[i].record.facts.args.recipient.value, c);
    SpawnedIsKnown(entries, ctx, i, c);
    RefStays(entries, ctx, i, n, c);
  }

  lemma DeliveryExactly(entries: seq<Entry>, ctx: Reading, i: nat, n: nat, d: Desk, call: Call)
    requires i < n < |entries| && CallIs(entries, ctx, i, call) && entries[i].record.name == "SendMessage"
    requires call.child in d.children
    ensures OnDelivery(d, call, entries[n].record).Ok? <==>
            DeliveryFits(entries[i].record.facts.args, entries[n].record)
            && (entries[n].record.facts.failed || entries[i].record.facts.time.Some?)
  {
    hide CopiedAt, Addressee;
  }

  lemma SpawnExactly(entries: seq<Entry>, ctx: Reading, i: nat, n: nat, d: Desk, call: Call)
    requires i < n < |entries| && CallIs(entries, ctx, i, call) && entries[i].record.name != "SendMessage"
    requires forall c :: RefOf(entries, ctx, n, c) == if c in d.children then Some(d.children[c]) else None
    ensures OnSpawn(d, ctx, call, entries[n].record).Ok?
            <==> SpawnAccepted(entries, ctx, n, entries[i].record.facts.args)
  {
    hide CopiedAt, Addressee, RefOf, Segment, ChildName, Plain;
  }

  lemma FinishedExactly(entries: seq<Entry>, ctx: Reading, i: nat, n: nat, d: Desk, call: Call)
    requires i < n < |entries| && CallIs(entries, ctx, i, call) && entries[i].record.name != "SendMessage"
    requires forall c :: RefOf(entries, ctx, n, c) == if c in d.children then Some(d.children[c]) else None
    ensures OnFinished(d, ctx, call, entries[n].record).Ok? <==> FinishedAccepted(entries, ctx, n, entries[i].record)
  {
    hide CopiedAt, Addressee, RefOf, Segment, ChildName;
  }

  lemma ReplyExactly(entries: seq<Entry>, ctx: Reading, n: nat, d: Desk)
    requires n < |entries| && Replies(entries, ctx, n) && DeskRead(entries, ctx, n, d)
    ensures OnReceipt(d, ctx, entries[n].record).Ok? <==> ReplyFits(entries, ctx, n)
  {
    hide NamesRead, Spawned, CallRow, CopiedAt, Addressee, RefOf, Concerns, Segment, ChildName, SpawnAccepted,
         FinishedAccepted, DeliveryFits, OnDelivery, OnSpawn, OnFinished, FiledBy, RepliesTo;
    var r, i := entries[n].record, CallRow(entries, ctx, n, entries[n].record.callId);
    if i.Some? {
      var call := d.calls[r.callId];
      assert CallIs(entries, ctx, i.value, call);
      RefsAgree(entries, ctx, n, d);
      if entries[i.value].record.name == "SendMessage" {
        AddresseeIsKnown(entries, ctx, i.value, n);
        DeliveryExactly(entries, ctx, i.value, n, d, call);
      } else {
        SpawnExactly(entries, ctx, i.value, n, d, call);
        FinishedExactly(entries, ctx, i.value, n, d, call);
      }
    }
  }

  lemma RefsAgree(entries: seq<Entry>, ctx: Reading, n: nat, d: Desk)
    requires n <= |entries| && DeskRead(entries, ctx, n, d)
    ensures forall c :: RefOf(entries, ctx, n, c) == if c in d.children then Some(d.children[c]) else None
  {
  }

  /** A row is taken behind accepted rows exactly if it follows them. */
  lemma RowTakenExactly(entries: seq<Entry>, ctx: Reading, n: nat)
    requires n < |entries| && Scan(entries, ctx, n).Ok?
    ensures Scan(entries, ctx, n + 1).Ok? <==> Follows(entries, ctx, n)
  {
    hide OnCall, OnReceipt, NoticeFits, NoticeAccepted, AskFits, ReplyFits, NamesRead, CallsRead, LinksRead, RefOf,
         CopiedAt, Concerns, Spawned;
    DeskIsRead(entries, ctx, n);
    var d, r := Scan(entries, ctx, n).value, entries[n].record;
    NoticeExactly(entries, ctx, n, d, r.facts.notice);
    var start := if IsOwn(ctx, r) then d.(copied := false) else d;
    var seen := if Announces(ctx, r) then start.(notices := start.notices + {r.id}) else start;
    NoticeFitsSame(d, start, r.facts.notice);
    NamesSame(entries, ctx, n, d, seen);
    CallsSame(entries, ctx, n, d, seen);
    SendsExactly(entries, ctx, n, seen);
    if Asks(entries, ctx, n) {
      AskExactly(entries, ctx, n, seen);
    } else if Replies(entries, ctx, n) {
      ReplyExactly(entries, ctx, n, d);
      ReceiptSame(d, seen, ctx, r);
    }
  }

  lemma NoticeFitsSame(d: Desk, e: Desk, note: Notice)
    requires e.names == d.names && e.children == d.children
    ensures NoticeFits(e, note) <==> NoticeFits(d, note)
  {
  }

  lemma ReceiptSame(d: Desk, e: Desk, ctx: Reading, r: Record)
    requires e == d.(copied := e.copied, notices := e.notices)
    ensures OnReceipt(e, ctx, r).Ok? <==> OnReceipt(d, ctx, r).Ok?
  {
  }
}
