/** What a CodeBuddy family search reads, within which limits, and how the threads of a session
  * share their budgets. */
module CodeBuddyLimits {
  import opened Base
  import opened CodeBuddyRows
  import CodeBuddyRecords
  import opened CodeBuddyDelegation
  import CodeBuddyChild
  import T = CodeBuddyThread
  import CodeBuddyStates
  import opened CodeBuddyFamily
  import opened CodeBuddySession

  // ---------------------------------------------------------------- the files of a child

  /** The child's file under this storage parent is there, holds rows and no metadata. */
  predicate Readable(src: Source, parent: string, c: string) {
    (parent, c) in src.files && src.files[(parent, c)].records != [] && src.files[(parent, c)].bare
  }

  /** The rows of the child's files under its first `k` storage parents. */
  function RowTotal(src: Source, parents: seq<string>, c: string, k: nat): nat
    requires k <= |parents|
  {
    if k == 0 then 0
    else
      var key := (parents[k - 1], c);
      RowTotal(src, parents, c, k - 1) + if key in src.files then |src.files[key].records| else 0
  }

  /** The files of a child are read exactly if all of them are there and their rows fit what is left of
    * the budget. Then they are read in the order of the storage parents. */
  lemma {:induction false} PartsExactly(src: Source, ref: Reference, c: string, k: nat, records: nat)
    requires k <= |ref.parents| && records <= src.limit
    ensures ReadParts(src, ref, c, k, records).Ok? <==>
            (forall i :: 0 <= i < k ==> Readable(src, ref.parents[i], c))
            && records + RowTotal(src, ref.parents, c, k) <= src.limit
    ensures ReadParts(src, ref, c, k, records).Ok? ==>
              var parts := ReadParts(src, ref, c, k, records).value;
              && parts.records == records + RowTotal(src, ref.parents, c, k) && |parts.files| == k
              && forall i :: 0 <= i < k ==>
                   (ref.parents[i], c) in src.files && parts.files[i] == src.files[(ref.parents[i], c)].records
  {
    if k > 0 {
      PartsExactly(src, ref, c, k - 1, records);
    }
  }

  // ---------------------------------------------------------------- one visit

  /** The child shows this history, made of its files. */
  ghost predicate ShowsHistory(src: Source, ref: Reference, c: string, records: seq<Record>) {
    exists files ::
      && |files| == |ref.parents|
      && (forall i :: 0 <= i < |files| ==>
            Readable(src, ref.parents[i], c) && files[i] == src.files[(ref.parents[i], c)].records)
      && CodeBuddyChild.Visible(files, ref) == Ok(records)
  }

  /** What a member of the family has passed: its files show its history, which answers its calls, and
    * a background child delegates nothing. */
  ghost predicate Passed(src: Source, m: Member) {
    && ShowsHistory(src, m.ref, m.id, m.records)
    && CodeBuddyChild.Validate(m.records, m.ref) == Ok(CodeBuddyChild.Validated(m.native, m.prompts))
    && References(m.records, false, ChildFork(src, m.ref)) == Ok(m.desk)
    && (m.ref.team.Some? ==> m.desk.children == map[])
  }

  /** The rows read for the first `k` members. */
  function MemberRows(src: Source, members: seq<Member>, k: nat): nat
    requires k <= |members|
  {
    if k == 0 then 0
    else MemberRows(src, members, k - 1)
         + RowTotal(src, members[k - 1].ref.parents, members[k - 1].id, |members[k - 1].ref.parents|)
  }

  lemma {:induction false} MemberRowsPrefix(src: Source, a: seq<Member>, b: seq<Member>, k: nat)
    requires k <= |a| <= |b| && a == b[..|a|]
    ensures MemberRows(src, a, k) == MemberRows(src, b, k)
  {
    if k > 0 {
      MemberRowsPrefix(src, a, b, k - 1);
    }
  }

  /** Where the search stands: what it used is what it found, within the limits. */
  ghost predicate Within(src: Source, s: Search, native: string) {
    && s.records == |src.records| + MemberRows(src, s.members, |s.members|) && s.records <= src.limit
    && s.used == MemberIds(s) && |s.used| == |s.members| && (s.members != [] ==> |s.members| + 1 <= src.threads)
    && native in s.natives
    && (forall k :: 0 <= k < |s.members| ==> s.members[k].native in s.natives && s.members[k].native != native)
    && (forall j, k :: 0 <= j < k < |s.members| ==> s.members[j].native != s.members[k].native)
    && (forall k :: 0 <= k < |s.members| ==> Passed(src, s.members[k]))
  }

  /** What a visit adds. */
  ghost predicate Adds(src: Source, s: Search, next: Search, m: Member) {
    && next.members == s.members + [m] && m.id !in s.used && next.used == s.used + {m.id}
    && m.native !in s.natives && next.natives == s.natives + {m.native}
    && next.records == s.records + RowTotal(src, m.ref.parents, m.id, |m.ref.parents|) && next.records <= src.limit
    && |s.used| + 2 <= src.threads && Passed(src, m)
  }

  lemma VisitAdds(src: Source, s: Search, c: string) returns (m: Member)
    requires s.at <= |s.members| && s.records <= src.limit && Visit(src, s, c).Ok?
    ensures m.id == c && Adds(src, s, Visit(src, s, c).value, m)
  {
    hide References, CodeBuddyChild.Validate, CodeBuddyChild.Visible, ReadParts, RowTotal;
    var ref := DeskAt(s, s.at).children[c];
    PartsExactly(src, ref, c, |ref.parents|, s.records);
    var next := Visit(src, s, c).value;
    m := next.members[|s.members|];
    var parts := ReadParts(src, ref, c, |ref.parents|, s.records).value;
    assert CodeBuddyChild.Visible(parts.files, ref) == Ok(m.records);
  }

  lemma RowsGrow(src: Source, members: seq<Member>, m: Member)
    ensures MemberRows(src, members + [m], |members| + 1)
            == MemberRows(src, members, |members|) + RowTotal(src, m.ref.parents, m.id, |m.ref.parents|)
  {
    hide RowTotal;
    var n := |members|;
    MemberRowsPrefix(src, members, members + [m], n);
    assert (members + [m])[n] == m;
  }

  lemma IdsGrow(s: Search, next: Search, m: Member)
    requires next.members == s.members + [m]
    ensures MemberIds(next) == MemberIds(s) + {m.id}
  {
    assert next.members[|s.members|] == m && forall k :: 0 <= k < |s.members| ==> next.members[k] == s.members[k];
  }

  lemma AddsWithin(src: Source, s: Search, next: Search, m: Member, native: string)
    requires Within(src, s, native) && Adds(src, s, next, m)
    ensures Within(src, next, native)
  {
    hide Passed, RowTotal, MemberRows, MemberIds;
    RowsGrow(src, s.members, m);
    IdsGrow(s, next, m);
    assert forall k :: 0 <= k < |next.members| ==>
             next.members[k] == if k < |s.members| then s.members[k] else m;
  }

  lemma RoomLeft(src: Source, s: Search, native: string)
    requires Within(src, s, native)
    ensures s.records <= src.limit
  {
  }

  lemma VisitWithin(src: Source, s: Search, c: string, native: string)
    requires Within(src, s, native) && s.at <= |s.members| && Visit(src, s, c).Ok?
    ensures Within(src, Visit(src, s, c).value, native)
  {
    hide Visit, Within, Adds;
    RoomLeft(src, s, native);
    var m := VisitAdds(src, s, c);
    AddsWithin(src, s, Visit(src, s, c).value, m, native);
  }

  lemma {:induction false} WalkWithin(src: Source, s: Search, native: string)
    requires Within(src, s, native) && Walk(src, s).Ok?
    ensures Within(src, Walk(src, s).value, native)
    decreases Max(src.threads - |s.used|, 0), |s.members| + 1 - s.at
  {
    hide Visit, Within, DeskAt;
    if s.at > |s.members| {
    } else if s.next >= |DeskAt(s, s.at).order| {
      Advances(src, s, native);
      WalkWithin(src, s.(at := s.at + 1, next := 0), native);
    } else {
      var c := DeskAt(s, s.at).order[s.next];
      VisitShrinks(src, s, c);
      VisitWithin(src, s, c, native);
      WalkWithin(src, Visit(src, s, c).value, native);
    }
  }

  lemma Advances(src: Source, s: Search, native: string)
    requires Within(src, s, native)
    ensures Within(src, s.(at := s.at + 1, next := 0), native)
  {
    hide Passed, MemberRows;
  }

  /** Main result. An accepted family holds no more threads and no more rows than its limits allow,
    * the rows counted are those of the root and of every file read, no session repeats, the root's
    * included, and every member has passed its checks on the files that delegation names. */
  lemma FamilyWithinLimits(src: Source)
    requires Snapshot(src).Ok?
    ensures Origin(src).Ok? && Within(src, Snapshot(src).value, Origin(src).value)
  {
    hide Walk, References, Passed;
    assert Within(src, Begin(src).value, Origin(src).value);
    WalkWithin(src, Begin(src).value, Origin(src).value);
  }

  // ---------------------------------------------------------------- shared budgets

  lemma PlaceWithinLimits(t: T.Thread, ctx: T.Context, c: T.Class, i: nat, r: Record, slots: seq<T.Slot>)
    requires T.Place(t, ctx, c, i, r, slots).Ok?
    ensures T.Place(t, ctx, c, i, r, slots).value.events <= ctx.events
    ensures |T.Place(t, ctx, c, i, r, slots).value.usages| <= ctx.usage
  {
  }

  lemma RunWithinLimits(entries: seq<Entry>, ctx: T.Context, n: nat)
    requires n <= |entries| && T.Run(entries, ctx, n).Ok?
    ensures T.Run(entries, ctx, n).value.events <= ctx.events && |T.Run(entries, ctx, n).value.usages| <= ctx.usage
  {
    hide T.Classify, T.Chain, T.Emit, T.Count, T.Place;
    if n > 0 {
      T.RunStep(entries, ctx, n);
      var t, e := T.Run(entries, ctx, n - 1).value, entries[n - 1];
      var c := T.Classify(t, ctx, e.record).value;
      var out := T.Emit(T.Chain(t, ctx, c, e).value, ctx, c, e.record).value;
      PlaceWithinLimits(T.Count(out.t, c, e.record).value, ctx, c, n - 1, e.record, out.slots);
    }
  }

  /** The responses that the first `k` threads count. */
  function ResponseTotal(src: Source, s: Search, k: nat): nat
    requires k <= |s.members| + 1
  {
    if k == 0 then 0
    else
      var admitted := CodeBuddyRecords.HistoryRecords(RecordsAt(src, s, k - 1));
      ResponseTotal(src, s, k - 1)
      + if admitted.Ok? then |CodeBuddyStates.Responses(admitted.value, |admitted.value|)| else 0
  }

  /** Main result. The threads of an accepted session stay within the budgets together, and the
    * reported samples are the responses that their rows count, once in each thread. */
  lemma {:induction false} ThreadsShareBudgets(src: Source, s: Search, k: nat, events: nat, usage: nat)
    requires k <= |s.members| + 1 && PlanThreads(src, s, k, events, usage).Ok?
    ensures var p := PlanThreads(src, s, k, events, usage).value;
            p.events <= events && p.usage <= usage && p.usage == ResponseTotal(src, s, k)
  {
    hide T.Run, CodeBuddyStates.Responses, CodeBuddyRecords.HistoryRecords;
    if k > 0 {
      ThreadsShareBudgets(src, s, k - 1, events, usage);
      var before := PlanThreads(src, s, k - 1, events, usage).value;
      var ctx := ContextAt(src, s, k - 1, Left(events, before.events), Left(usage, before.usage));
      var entries := CodeBuddyRecords.HistoryRecords(RecordsAt(src, s, k - 1)).value;
      RunWithinLimits(entries, ctx, |entries|);
      CodeBuddyStates.UsageOncePerResponse(entries, ctx, |entries|);
      var usages := T.Run(entries, ctx, |entries|).value.usages;
      assert |usages| == |usages.Keys|;
    }
  }
}
