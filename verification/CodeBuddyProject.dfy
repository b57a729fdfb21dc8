/** The loops of the CodeBuddy adapter, proved against the functions of the other modules. */
module CodeBuddyProject {
  import opened Base
  import opened CodeBuddyRows
  import R = CodeBuddyRecords
  import D = CodeBuddyDelegation
  import C = CodeBuddyChild
  import T = CodeBuddyThread
  import F = CodeBuddyFamily
  import S = CodeBuddySession
  import FamilyOrder

  // ---------------------------------------------------------------- one thread

  /** A failed row ends the run with its reason. */
  lemma {:induction false} RunFails(entries: seq<Entry>, ctx: T.Context, m: nat, n: nat)
    requires m <= n <= |entries| && T.Run(entries, ctx, m).Err?
    ensures T.Run(entries, ctx, n) == T.Run(entries, ctx, m)
    decreases n - m
  {
    hide T.Step;
    if m < n {
      RunFails(entries, ctx, m, n - 1);
    }
  }

  /** `projectThread`: row by row, each through its stages. */
  method ProjectThread(records: seq<Record>, ctx: T.Context) returns (r: Result<T.Thread>)
    ensures r == T.Project(records, ctx)
  {
    hide T.Classify, T.Chain, T.Emit, T.Count, T.Place, R.HistoryRecords, T.Timed;
    var admitted := R.AdmitHistory(records);
    if admitted.Err? {
      return Err(admitted.reason);
    }
    var entries, t, i := admitted.value, T.Start(), 0;
    while i < |entries|
      invariant 0 <= i <= |entries| && T.Run(entries, ctx, i) == Ok(t)
    {
      var e := entries[i];
      i := i + 1;
      var c := T.Classify(t, ctx, e.record);
      if c.Err? {
        RunFails(entries, ctx, i, |entries|);
        return Err(c.reason);
      }
      var chained := T.Chain(t, ctx, c.value, e);
      if chained.Err? {
        RunFails(entries, ctx, i, |entries|);
        return Err(chained.reason);
      }
      if !T.Timed(e.record) {
        RunFails(entries, ctx, i, |entries|);
        return Err(Format);
      }
      var out := T.Emit(chained.value, ctx, c.value, e.record);
      if out.Err? {
        RunFails(entries, ctx, i, |entries|);
        return Err(out.reason);
      }
      var counted := T.Count(out.value.t, c.value, e.record);
      if counted.Err? {
        RunFails(entries, ctx, i, |entries|);
        return Err(counted.reason);
      }
      var placed := T.Place(counted.value, ctx, c.value, i - 1, e.record, out.value.slots);
      if placed.Err? {
        RunFails(entries, ctx, i, |entries|);
        return Err(placed.reason);
      }
      t := placed.value;
    }
    r := if T.Closed(t) then Ok(t) else Err(Format);
  }

  // ---------------------------------------------------------------- delegation

  lemma {:induction false} ScanFails(entries: seq<Entry>, ctx: D.Reading, m: nat, n: nat)
    requires m <= n <= |entries| && D.Scan(entries, ctx, m).Err?
    ensures D.Scan(entries, ctx, n) == D.Scan(entries, ctx, m)
    decreases n - m
  {
    hide D.OnRow;
    if m < n {
      ScanFails(entries, ctx, m, n - 1);
    }
  }

  /** `references`: calls and receipts of one history. */
  method ReadReferences(records: seq<Record>, root: bool, fork: Option<D.Fork>) returns (r: Result<D.Desk>)
    ensures r == D.References(records, root, fork)
  {
    hide D.OnRow, R.HistoryRecords;
    var admitted := R.AdmitHistory(records);
    if admitted.Err? {
      return Err(admitted.reason);
    }
    var entries, ctx := admitted.value, D.Reading(root, fork, D.Owner(records));
    var d, i := D.Fresh(ctx), 0;
    while i < |entries|
      invariant 0 <= i <= |entries| && D.Scan(entries, ctx, i) == Ok(d)
    {
      var next := D.OnRow(d, ctx, entries[i].record);
      i := i + 1;
      if next.Err? {
        ScanFails(entries, ctx, i, |entries|);
        return Err(next.reason);
      }
      d := next.value;
    }
    r := if |d.calls| == |d.links| then Ok(d) else Err(Format);
  }

  lemma {:induction false} TurnsFail(rows: seq<Record>, calls: seq<D.ChildCall>, m: nat, n: nat)
    requires |C.Users(rows, |rows|)| == |calls| && m <= n <= |calls| && C.CheckTurns(rows, calls, m).Err?
    ensures C.CheckTurns(rows, calls, n) == C.CheckTurns(rows, calls, m)
    decreases n - m
  {
    hide C.Users, C.PromptFits, C.SentAfter, C.TurnComplete, C.TurnEnd;
    if m < n {
      TurnsFail(rows, calls, m, n - 1);
    }
  }

  /** The rows that take part in the parent chain. */
  method Filter(entries: seq<Entry>) returns (rows: seq<Record>)
    ensures rows == C.ChainRows(entries, |entries|)
  {
    var i := 0;
    rows := [];
    while i < |entries|
      invariant 0 <= i <= |entries| && rows == C.ChainRows(entries, i)
    {
      if entries[i].record.Projected() {
        rows := rows + [entries[i].record];
      }
      i := i + 1;
    }
  }

  /** Where the turns start, if the whole history is one native session. */
  method SplitTurns(rows: seq<Record>) returns (ok: bool, users: seq<nat>)
    requires rows != []
    ensures ok <==> forall k :: 0 <= k < |rows| ==> rows[k].facts.session == rows[0].facts.session
    ensures ok ==> users == C.Users(rows, |rows|)
  {
    var at := 0;
    users := [];
    while at < |rows|
      invariant 0 <= at <= |rows| && users == C.Users(rows, at)
      invariant forall k :: 0 <= k < at ==> rows[k].facts.session == rows[0].facts.session
    {
      if rows[at].facts.session != rows[0].facts.session {
        return false, users;
      }
      if C.Prompt(rows[at]) {
        users := users + [at];
      }
      at := at + 1;
    }
    ok := true;
  }

  /** Turn by turn against the completed calls. */
  method MatchCalls(rows: seq<Record>, users: seq<nat>, calls: seq<D.ChildCall>)
    returns (r: Result<map<string, string>>)
    requires users == C.Users(rows, |rows|) && |users| == |calls|
    ensures r == C.CheckTurns(rows, calls, |calls|)
  {
    hide C.Users, C.PromptFits, C.SentAfter, C.TurnComplete;
    var prompts: map<string, string>, k := map[], 0;
    while k < |users|
      invariant 0 <= k <= |users| && C.CheckTurns(rows, calls, k) == Ok(prompts)
    {
      var call, start, end := calls[k], users[k], C.TurnEnd(rows, users, k);
      k := k + 1;
      if !C.PromptFits(rows, start, call) || !C.SentAfter(rows, start, call) {
        TurnsFail(rows, calls, k, |calls|);
        return Err(Unsupported);
      }
      if !C.TurnComplete(rows, start, end, call) {
        TurnsFail(rows, calls, k, |calls|);
        return Err(Format);
      }
      if !call.Foreground? {
        prompts := prompts[rows[start].id := call.prompt];
      }
    }
    r := Ok(prompts);
  }

  /** `validateChild`: the turns of a child against the completed calls. */
  method CheckChild(records: seq<Record>, ref: D.Reference) returns (r: Result<C.Validated>)
    ensures r == C.Validate(records, ref)
  {
    hide R.HistoryRecords, C.ChainRows, C.Users, C.CheckTurns, Segment, C.DelegatedRoot;
    var admitted := R.AdmitHistory(records);
    if admitted.Err? {
      return Err(admitted.reason);
    }
    var rows := Filter(admitted.value);
    if rows == [] || rows[0].facts.session.None? || !Segment(rows[0].facts.session.value) {
      return Err(Format);
    }
    if !C.DelegatedRoot(rows[0], ref.agent) {
      return Err(Unsupported);
    }
    var native, users := SplitTurns(rows);
    if !native {
      return Err(Unsupported);
    }
    if |users| != |ref.calls| {
      return Err(Format);
    }
    var prompts := MatchCalls(rows, users, ref.calls);
    r := if prompts.Err? then Err(prompts.reason) else Ok(C.Validated(rows[0].facts.session.value, prompts.value));
  }

  /** `copiedChild`: from the last receipt to the answer it belongs to. */
  method CutCopied(records: seq<Record>, ref: D.Reference) returns (r: Result<seq<Record>>)
    ensures r == C.CopiedChild(records, ref)
  {
    if ref.calls == [] || exists k :: 0 <= k < |ref.calls| && !ref.calls[k].Foreground? {
      return Err(Unsupported);
    }
    var anchor := C.Find(records, ref.calls[|ref.calls| - 1].lastId, 0);
    if anchor.None? {
      return Err(Format);
    }
    var end := anchor.value;
    while end < |records|
      invariant anchor.value <= end <= |records|
      invariant C.AnswerEnd(records, anchor.value, anchor.value) == C.AnswerEnd(records, anchor.value, end)
    {
      if records[end].AssistantDone() {
        return Ok(records[..end + 1]);
      }
      if end > anchor.value && records[end].UserMessage() {
        return Err(Format);
      }
      end := end + 1;
    }
    r := Err(Format);
  }

  // ---------------------------------------------------------------- the family search

  lemma {:induction false} PartsFail(src: F.Source, ref: D.Reference, c: string, m: nat, n: nat, records: nat)
    requires m <= n <= |ref.parents| && F.ReadParts(src, ref, c, m, records).Err?
    ensures F.ReadParts(src, ref, c, n, records) == F.ReadParts(src, ref, c, m, records)
    decreases n - m
  {
    if m < n {
      PartsFail(src, ref, c, m, n - 1, records);
    }
  }

  /** A child's files, in delegation order. */
  method ReadFiles(src: F.Source, ref: D.Reference, c: string, records: nat) returns (r: Result<F.Parts>)
    ensures r == F.ReadParts(src, ref, c, |ref.parents|, records)
  {
    var parts: seq<seq<Record>>, read: nat, k := [], records, 0;
    while k < |ref.parents|
      invariant 0 <= k <= |ref.parents| && F.ReadParts(src, ref, c, k, records) == Ok(F.Parts(parts, read))
    {
      var key := (ref.parents[k], c);
      k := k + 1;
      if key !in src.files || src.files[key].records == [] || read + |src.files[key].records| > src.limit
        || !src.files[key].bare {
        PartsFail(src, ref, c, k, |ref.parents|, records);
        return F.ReadParts(src, ref, c, k, records);
      }
      parts, read := parts + [src.files[key].records], read + |src.files[key].records|;
    }
    r := Ok(F.Parts(parts, read));
  }

  /** One child of the queue entry at hand. */
  method VisitChild(src: F.Source, s: F.Search, c: string) returns (r: Result<F.Search>)
    requires s.at <= |s.members|
    ensures r == F.Visit(src, s, c)
  {
    hide C.Validate, D.References, F.ReadParts, C.Fragments, C.CopiedChild;
    var parent := F.DeskAt(s, s.at);
    if c in s.used || c !in parent.children {
      return Err(Unsupported);
    }
    if |s.used| + 2 > src.threads || s.records >= src.limit {
      return Err(Limit);
    }
    var ref := parent.children[c];
    var parts := ReadFiles(src, ref, c, s.records);
    if parts.Err? {
      return Err(parts.reason);
    }
    var visible := C.Fragments(parts.value.files, ref, |parts.value.files|);
    if visible.Ok? && ref.copied {
      visible := CutCopied(visible.value, ref);
    }
    if visible.Err? {
      return Err(visible.reason);
    }
    var v := CheckChild(visible.value, ref);
    if v.Err? {
      return Err(v.reason);
    }
    var d := ReadReferences(visible.value, false, F.ChildFork(src, ref));
    if d.Err? {
      return Err(d.reason);
    }
    if (ref.team.Some? && d.value.children != map[]) || v.value.native in s.natives {
      return Err(Unsupported);
    }
    r := Ok(s.(used := s.used + {c}, natives := s.natives + {v.value.native}, next := s.next + 1,
               records := parts.value.records,
               members := s.members
               + [F.Member(c, F.IdAt(src, s, s.at), v.value.native, ref, v.value.prompts, visible.value, d.value)]));
  }

  /** `snapshot`: breadth first over the children that the receipts name. */
  method SnapshotFamily(src: F.Source) returns (r: Result<F.Search>)
    ensures r == F.Snapshot(src)
  {
    hide F.Visit, D.References, F.Origin;
    if |src.records| > src.limit {
      return Err(Limit);
    }
    var native := F.Origin(src);
    if native.Err? {
      return Err(native.reason);
    }
    var d := ReadReferences(src.records, true, F.RootFork(src));
    if d.Err? {
      return Err(d.reason);
    }
    if !Segment(native.value) {
      return Err(Format);
    }
    var s := F.Search(d.value, {}, {native.value}, [], 0, 0, |src.records|);
    while s.at <= |s.members|
      invariant F.Snapshot(src) == F.Walk(src, s)
      decreases Max(src.threads - |s.used|, 0), |s.members| + 1 - s.at
    {
      var order := F.DeskAt(s, s.at).order;
      if s.next >= |order| {
        s := s.(at := s.at + 1, next := 0);
      } else {
        var after := VisitChild(src, s, order[s.next]);
        if after.Err? {
          return Err(after.reason);
        }
        F.VisitShrinks(src, s, order[s.next]);
        s := after.value;
      }
    }
    r := Ok(s);
  }

  // ---------------------------------------------------------------- the whole session

  lemma {:induction false} PlansFail(src: F.Source, s: F.Search, m: nat, n: nat, events: nat, usage: nat)
    requires m <= n <= |s.members| + 1 && S.PlanThreads(src, s, m, events, usage).Err?
    ensures S.PlanThreads(src, s, n, events, usage) == S.PlanThreads(src, s, m, events, usage)
    decreases n - m
  {
    hide T.Project;
    if m < n {
      PlansFail(src, s, m, n - 1, events, usage);
    }
  }

  /** Root and children within the budgets, in search order. */
  method ProjectThreads(src: F.Source, s: F.Search, events: nat, usage: nat) returns (r: Result<S.Planned>)
    ensures r == S.PlanThreads(src, s, |s.members| + 1, events, usage)
  {
    hide T.Project;
    var p, k := S.Planned(map[], 0, 0), 0;
    while k < |s.members| + 1
      invariant 0 <= k <= |s.members| + 1 && S.PlanThreads(src, s, k, events, usage) == Ok(p)
    {
      var t := ProjectThread(S.RecordsAt(src, s, k),
                             S.ContextAt(src, s, k, S.Left(events, p.events), S.Left(usage, p.usage)));
      k := k + 1;
      if t.Err? {
        PlansFail(src, s, k, |s.members| + 1, events, usage);
        return Err(t.reason);
      }
      p := S.Planned(p.threads[F.IdAt(src, s, k - 1) := t.value], p.events + t.value.events,
                     p.usage + |t.value.usages|);
    }
    r := Ok(p);
  }

  /** The whole adapter: an admitted family is always interleaved, completely and in order. */
  method ProjectSession(src: F.Source, events: nat, usage: nat) returns (r: Result<seq<T.Frame>>)
    ensures r.Ok? <==> S.Admit(src, events, usage).Ok?
    ensures r.Err? ==> S.Admit(src, events, usage) == Err(r.reason)
    ensures r.Ok? ==>
              var a := S.Admit(src, events, usage).value;
              && src.sourceId in a.plans.threads && S.MemberIds(a.search) <= a.plans.threads.Keys
              && var fam := S.FamilyOf(src, a);
                 FamilyOrder.Drain(fam, fam.root, map[]).Ok?
                 && r.value == FamilyOrder.Ordered(FamilyOrder.Drain(fam, fam.root, map[]).value.0, 0)
                 && |FamilyOrder.Indices(r.value)| == a.plans.events && CountsFrom(0, FamilyOrder.Indices(r.value))
  {
    hide F.Snapshot, S.PlanThreads, FamilyOrder.Drain, FamilyOrder.Ordered, FamilyOrder.Indices, CountsFrom,
         S.MemberIds;
    var found := SnapshotFamily(src);
    if found.Err? {
      return Err(found.reason);
    }
    var plans := ProjectThreads(src, found.value, events, usage);
    if plans.Err? {
      return Err(plans.reason);
    }
    S.SessionNumbers(src, events, usage);
    r := FamilyOrder.Interleave(S.FamilyOf(src, S.Session(found.value, plans.value)));
  }
}
