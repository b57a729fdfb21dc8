/** A whole CodeBuddy session: the search for delegated threads, their projection within shared
  * budgets, and the proof that what the checks accept one by one makes the interleaving complete. */
module CodeBuddyFamily {
  import opened Base
  import opened CodeBuddyRows
  import opened CodeBuddyDelegation
  import CodeBuddyChild

  datatype File = File(records: seq<Record>, bare: bool)

  /** The root history and the child files, by storage parent and child; `threads` and `limit`
    * bound the threads and the records of the family. */
  datatype Source = Source(sourceId: string, forkedFrom: Option<string>, records: seq<Record>,
                           files: map<(string, string), File>, threads: nat, limit: nat)

  datatype Member = Member(id: string, parentId: string, native: string, ref: Reference, prompts: map<string, string>,
                           records: seq<Record>, desk: Desk)

  /** The queue is the root followed by the members found so far; `at` and `next` say which child
    * of which queue entry comes next. */
  datatype Search = Search(root: Desk, used: set<string>, natives: set<string>, members: seq<Member>, at: nat,
                           next: nat, records: nat)

  function DeskAt(s: Search, k: nat): Desk
    requires k <= |s.members|
  {
    if k == 0 then s.root else s.members[k - 1].desk
  }

  function IdAt(src: Source, s: Search, k: nat): string
    requires k <= |s.members|
  {
    if k == 0 then src.sourceId else s.members[k - 1].id
  }

  // ---------------------------------------------------------------- the search

  datatype Parts = Parts(files: seq<seq<Record>>, records: nat)

  /** The child's files under its first `k` storage parents, within the record budget. */
  function ReadParts(src: Source, ref: Reference, c: string, k: nat, records: nat): Result<Parts>
    requires k <= |ref.parents|
  {
    if k == 0 then Ok(Parts([], records))
    else
      var before :- ReadParts(src, ref, c, k - 1, records);
      var key := (ref.parents[k - 1], c);
      if key !in src.files then Err(Io)
      else if src.files[key].records == [] then Err(Format)
      else if before.records + |src.files[key].records| > src.limit then Err(Limit)
      else if !src.files[key].bare then Err(Unsupported)
      else Ok(Parts(before.files + [src.files[key].records], before.records + |src.files[key].records|))
  }

  function ChildFork(src: Source, ref: Reference): Option<Fork> {
    if src.forkedFrom.Some? then Some(Fork(None, ref.copied)) else None
  }

  function Visit(src: Source, s: Search, c: string): Result<Search>
    requires s.at <= |s.members|
  {
    var parent := DeskAt(s, s.at);
    if c in s.used || c !in parent.children then Err(Unsupported)
    else if |s.used| + 2 > src.threads || s.records >= src.limit then Err(Limit)
    else
      var ref := parent.children[c];
      var parts :- ReadParts(src, ref, c, |ref.parents|, s.records);
      var records :- CodeBuddyChild.Visible(parts.files, ref);
      var v :- CodeBuddyChild.Validate(records, ref);
      var d :- References(records, false, ChildFork(src, ref));
      if (ref.team.Some? && d.children != map[]) || v.native in s.natives then Err(Unsupported)
      else
        Ok(s.(used := s.used + {c}, natives := s.natives + {v.native}, next := s.next + 1, records := parts.records,
              members := s.members + [Member(c, IdAt(src, s, s.at), v.native, ref, v.prompts, records, d)]))
  }

  function Walk(src: Source, s: Search): Result<Search>
    decreases Max(src.threads - |s.used|, 0), |s.members| + 1 - s.at
  {
    if s.at > |s.members| then Ok(s)
    else if s.next >= |DeskAt(s, s.at).order| then Walk(src, s.(at := s.at + 1, next := 0))
    else
      var after :- Visit(src, s, DeskAt(s, s.at).order[s.next]);
      Walk(src, after)
  }

  function RootFork(src: Source): Option<Fork> {
    if src.forkedFrom.Some? then Some(Fork(Some(src.sourceId), true)) else None
  }

  predicate OwnRow(src: Source, r: Record) {
    r.facts.session == Some(src.sourceId)
  }

  /** The first row that belongs to the source itself. */
  function FirstOwn(src: Source, from: nat): Option<Record>
    decreases |src.records| - from
  {
    if from >= |src.records| then None
    else if OwnRow(src, src.records[from]) then Some(src.records[from])
    else FirstOwn(src, from + 1)
  }

  /** Whose history this is: an original root, or a fork with an own user message. */
  function Origin(src: Source): Result<string> {
    if src.records == [] then Err(Format)
    else
      var r := src.records[0];
      if !r.UserMessage() || r.facts.parent.Some? || r.facts.logical.Some? then Err(Unsupported)
      else if src.sourceId == "" || r.facts.session.None? || r.facts.session.value == "" then Err(Format)
      else if "agent-" <= src.sourceId || "agent-" <= r.facts.session.value then Err(Unsupported)
      else if src.forkedFrom.Some? then
        var own := FirstOwn(src, 0);
        if src.forkedFrom != r.facts.session || r.facts.session.value == src.sourceId then Err(Unsupported)
        else if own.None? || !own.value.UserMessage() || own.value.facts.parent.None? then Err(Attribution)
        else Ok(r.facts.session.value)
      else if r.facts.session.value != src.sourceId then Err(Unsupported)
      else Ok(r.facts.session.value)
  }

  function Begin(src: Source): Result<Search> {
    if |src.records| > src.limit then Err(Limit)
    else
      var native :- Origin(src);
      var d :- References(src.records, true, RootFork(src));
      if !Segment(native) then Err(Format) else Ok(Search(d, {}, {native}, [], 0, 0, |src.records|))
  }

  function Snapshot(src: Source): Result<Search> {
    var s :- Begin(src);
    Walk(src, s)
  }

  // ---------------------------------------------------------------- what the search establishes

  /** `c` was found as a child of `p`. */
  ghost predicate Found(s: Search, c: string, p: string) {
    exists k :: 0 <= k < |s.members| && s.members[k].id == c && s.members[k].parentId == p
  }

  /** Member `k` answers a reference of an earlier queue entry. */
  ghost predicate Placed(src: Source, s: Search, k: nat)
    requires k < |s.members|
  {
    var m := s.members[k];
    && CodeBuddyChild.Validate(m.records, m.ref) == Ok(CodeBuddyChild.Validated(m.native, m.prompts))
    && References(m.records, false, ChildFork(src, m.ref)) == Ok(m.desk) && ChildName(m.id)
    && exists j :: 0 <= j <= k && Calls(src, s, j, m)
  }

  ghost predicate Calls(src: Source, s: Search, j: nat, m: Member)
    requires j <= |s.members|
  {
    IdAt(src, s, j) == m.parentId && m.id in DeskAt(s, j).children && DeskAt(s, j).children[m.id] == m.ref
  }

  /** The first `next` children of queue entry `j` were visited. */
  ghost predicate Visited(src: Source, s: Search, j: nat, next: nat)
    requires j <= |s.members|
  {
    forall i :: 0 <= i < next && i < |DeskAt(s, j).order| ==> Found(s, DeskAt(s, j).order[i], IdAt(src, s, j))
  }

  ghost predicate Good(src: Source, s: Search) {
    && References(src.records, true, RootFork(src)) == Ok(s.root)
    && (forall k :: 0 <= k < |s.members| ==> s.members[k].id in s.used)
    && (forall j, k :: 0 <= j < k < |s.members| ==>
          s.members[j].id != s.members[k].id && s.members[j].native != s.members[k].native)
    && (forall k :: 0 <= k < |s.members| ==> s.members[k].native in s.natives)
    && (forall k :: 0 <= k < |s.members| ==> Placed(src, s, k))
  }

  ghost predicate AllVisited(src: Source, s: Search) {
    && s.at <= |s.members| + 1
    && (forall j :: 0 <= j < s.at ==> Visited(src, s, j, |DeskAt(s, j).order|))
    && (s.at <= |s.members| ==> Visited(src, s, s.at, s.next))
  }

  lemma DeskIsConsistent(src: Source, s: Search, k: nat)
    requires Good(src, s) && k <= |s.members|
    ensures Consistent(DeskAt(s, k)) && AllMatch(DeskAt(s, k))
  {
    hide References, CodeBuddyChild.Validate, Consistent, AllMatch, Calls, ChildName;
    if k == 0 {
      ReferencesAgree(src.records, true, RootFork(src));
    } else {
      assert Placed(src, s, k - 1);
      ReferencesAgree(s.members[k - 1].records, false, ChildFork(src, s.members[k - 1].ref));
    }
  }

  lemma OrderedChild(d: Desk, i: nat)
    requires Consistent(d) && i < |d.order|
    ensures d.order[i] in d.children && ChildName(d.order[i])
  {
    assert d.order[i] in d.order;
  }

  /** One visit, seen from outside: a new member at the end. */
  ghost predicate Grows(src: Source, s: Search, next: Search, c: string)
    requires s.at <= |s.members|
  {
    && |next.members| == |s.members| + 1 && next.members == s.members + [next.members[|s.members|]]
    && next.root == s.root && next.at == s.at && next.next == s.next + 1 && c !in s.used && next.used == s.used + {c}
    && var m := next.members[|s.members|];
       && m.id == c && m.parentId == IdAt(src, s, s.at) && c in DeskAt(s, s.at).children
          && m.ref == DeskAt(s, s.at).children[c]
       && CodeBuddyChild.Validate(m.records, m.ref) == Ok(CodeBuddyChild.Validated(m.native, m.prompts))
       && References(m.records, false, ChildFork(src, m.ref)) == Ok(m.desk)
       && m.native !in s.natives && next.natives == s.natives + {m.native}
  }

  lemma VisitGrows(src: Source, s: Search, c: string)
    requires s.at <= |s.members| && Visit(src, s, c).Ok?
    ensures Grows(src, s, Visit(src, s, c).value, c)
  {
    hide References, CodeBuddyChild.Validate, CodeBuddyChild.Visible, ReadParts;
  }

  lemma StillPlaced(src: Source, s: Search, next: Search, c: string, k: nat)
    requires s.at <= |s.members| && Grows(src, s, next, c) && k < |s.members| && Placed(src, s, k)
    ensures Placed(src, next, k)
  {
    hide References, CodeBuddyChild.Validate, ChildName;
    var j :| 0 <= j <= k && Calls(src, s, j, s.members[k]);
    assert DeskAt(next, j) == DeskAt(s, j) && IdAt(src, next, j) == IdAt(src, s, j);
    assert Calls(src, next, j, next.members[k]);
  }

  lemma NewlyPlaced(src: Source, s: Search, next: Search, c: string)
    requires s.at <= |s.members| && Grows(src, s, next, c) && ChildName(c)
    ensures Placed(src, next, |s.members|)
  {
    hide References, CodeBuddyChild.Validate, ChildName;
    assert DeskAt(next, s.at) == DeskAt(s, s.at) && IdAt(src, next, s.at) == IdAt(src, s, s.at);
    assert Calls(src, next, s.at, next.members[|s.members|]);
  }

  lemma VisitKeeps(src: Source, s: Search, next: Search, c: string)
    requires s.at <= |s.members| && Good(src, s) && Grows(src, s, next, c) && ChildName(c)
    ensures Good(src, next)
  {
    hide Placed, References, CodeBuddyChild.Validate, ChildName, DeskAt, IdAt;
    NewlyPlaced(src, s, next, c);
    forall k | 0 <= k < |next.members|
      ensures Placed(src, next, k)
    {
      if k < |s.members| {
        StillPlaced(src, s, next, c, k);
      }
    }
  }

  lemma StillFound(s: Search, next: Search, c: string, p: string)
    requires Found(s, c, p) && |s.members| <= |next.members|
             && forall k :: 0 <= k < |s.members| ==> next.members[k] == s.members[k]
    ensures Found(next, c, p)
  {
    var k :| 0 <= k < |s.members| && s.members[k].id == c && s.members[k].parentId == p;
    assert next.members[k].id == c && next.members[k].parentId == p;
  }

  lemma VisitVisits(src: Source, s: Search, next: Search, c: string)
    requires s.at <= |s.members| && AllVisited(src, s) && Grows(src, s, next, c)
    requires s.next < |DeskAt(s, s.at).order| && c == DeskAt(s, s.at).order[s.next]
    ensures AllVisited(src, next)
  {
    hide References, CodeBuddyChild.Validate, Found, ChildFork;
    forall j | 0 <= j <= s.at
      ensures Visited(src, next, j, if j < s.at then |DeskAt(next, j).order| else next.next)
    {
      assert DeskAt(next, j) == DeskAt(s, j) && IdAt(src, next, j) == IdAt(src, s, j);
      assert Visited(src, s, j, if j < s.at then |DeskAt(s, j).order| else s.next);
      forall i | 0 <= i < (if j < s.at then |DeskAt(next, j).order| else next.next) && i < |DeskAt(next, j).order|
        ensures Found(next, DeskAt(next, j).order[i], IdAt(src, next, j))
      {
        if j == s.at && i == s.next {
          FoundLast(next, c, IdAt(src, s, s.at));
        } else {
          StillFound(s, next, DeskAt(s, j).order[i], IdAt(src, s, j));
        }
      }
    }
  }

  lemma FoundLast(s: Search, c: string, p: string)
    requires s.members != [] && s.members[|s.members| - 1].id == c && s.members[|s.members| - 1].parentId == p
    ensures Found(s, c, p)
  {
  }

  lemma AdvanceVisits(src: Source, s: Search)
    requires s.at <= |s.members| && AllVisited(src, s) && s.next >= |DeskAt(s, s.at).order|
    ensures AllVisited(src, s.(at := s.at + 1, next := 0))
  {
    hide Found;
    var next := s.(at := s.at + 1, next := 0);
    forall j | 0 <= j < next.at
      ensures Visited(src, next, j, |DeskAt(next, j).order|)
    {
      assert DeskAt(next, j) == DeskAt(s, j) && IdAt(src, next, j) == IdAt(src, s, j);
      if j < s.at {
        assert Visited(src, s, j, |DeskAt(s, j).order|);
      }
      forall i | 0 <= i < |DeskAt(next, j).order|
        ensures Found(next, DeskAt(next, j).order[i], IdAt(src, next, j))
      {
        StillFound(s, next, DeskAt(s, j).order[i], IdAt(src, s, j));
      }
    }
  }

  lemma {:induction false} WalkKeeps(src: Source, s: Search)
    requires Good(src, s) && AllVisited(src, s) && Walk(src, s).Ok?
    ensures Good(src, Walk(src, s).value) && AllVisited(src, Walk(src, s).value)
    ensures Walk(src, s).value.at == |Walk(src, s).value.members| + 1
    decreases Max(src.threads - |s.used|, 0), |s.members| + 1 - s.at
  {
    hide Good, AllVisited, Visit, Grows, ChildName, Consistent, AllMatch;
    if s.at > |s.members| {
      assert s.at == |s.members| + 1 by {
        AtBounded(src, s);
      }
    } else if s.next >= |DeskAt(s, s.at).order| {
      AdvanceVisits(src, s);
      AdvanceKeeps(src, s);
      WalkKeeps(src, s.(at := s.at + 1, next := 0));
    } else {
      var c := DeskAt(s, s.at).order[s.next];
      var after := Visit(src, s, c).value;
      VisitGrows(src, s, c);
      DeskIsConsistent(src, s, s.at);
      OrderedChild(DeskAt(s, s.at), s.next);
      VisitKeeps(src, s, after, c);
      VisitVisits(src, s, after, c);
      VisitShrinks(src, s, c);
      WalkKeeps(src, after);
    }
  }

  lemma AtBounded(src: Source, s: Search)
    requires AllVisited(src, s)
    ensures s.at <= |s.members| + 1
  {
  }

  lemma AdvanceKeeps(src: Source, s: Search)
    requires Good(src, s)
    ensures Good(src, s.(at := s.at + 1, next := 0))
  {
    hide References, CodeBuddyChild.Validate, ChildName;
    var next := s.(at := s.at + 1, next := 0);
    forall k | 0 <= k < |next.members|
      ensures Placed(src, next, k)
    {
      assert Placed(src, s, k);
      var j :| 0 <= j <= k && Calls(src, s, j, s.members[k]);
      assert Calls(src, next, j, next.members[k]);
    }
  }

  lemma VisitShrinks(src: Source, s: Search, c: string)
    requires s.at <= |s.members| && Visit(src, s, c).Ok?
    ensures |Visit(src, s, c).value.used| == |s.used| + 1 < src.threads
  {
    hide References, CodeBuddyChild.Validate, CodeBuddyChild.Visible, ReadParts;
  }

  /** Main result of the search. Every member answers a reference of an earlier one under ids that
    * are all different, and every child that any member refers to was found below that member. */
  lemma SnapshotIsClosed(src: Source)
    requires Snapshot(src).Ok?
    ensures var s := Snapshot(src).value;
            && Good(src, s) && !("agent-" <= src.sourceId)
            && (forall j :: 0 <= j <= |s.members| ==> Visited(src, s, j, |DeskAt(s, j).order|))
  {
    hide Walk, References, Visited;
    var s := Begin(src).value;
    NothingVisited(src, s);
    WalkKeeps(src, s);
  }

  lemma NothingVisited(src: Source, s: Search)
    requires Begin(src) == Ok(s)
    ensures Good(src, s) && AllVisited(src, s)
  {
    hide References;
  }
}
