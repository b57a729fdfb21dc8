/** The threads of a CodeBuddy session within shared budgets, and the main results about their
  * interleaving: it succeeds, shows every frame once, numbers every event, and gives every record
  * a key of its own. */
module CodeBuddySession {
  import opened Base
  import opened CodeBuddyRows
  import CodeBuddyRecords
  import opened CodeBuddyDelegation
  import CodeBuddyChild
  import T = CodeBuddyThread
  import opened CodeBuddyFamily
  import FamilyOrder

  datatype Planned = Planned(threads: map<string, T.Thread>, events: nat, usage: nat)

  function Left(limit: nat, spent: nat): nat {
    if spent <= limit then limit - spent else 0
  }

  function RecordsAt(src: Source, s: Search, k: nat): seq<Record>
    requires k <= |s.members|
  {
    if k == 0 then src.records else s.members[k - 1].records
  }

  function ContextAt(src: Source, s: Search, k: nat, events: nat, usage: nat): T.Context
    requires k <= |s.members|
  {
    if k == 0 then T.Context(src.sourceId, src.forkedFrom, None, s.root.notices, s.root.links, events, usage)
    else
      var m := s.members[k - 1];
      T.Context(src.sourceId, src.forkedFrom,
                Some(T.Delegate(m.id, m.native, m.ref.agent, m.ref.team.Some?, m.prompts)), {}, m.desk.links,
                events, usage)
  }

  /** The first `k` threads, each within what the earlier ones left of the budgets. */
  function PlanThreads(src: Source, s: Search, k: nat, events: nat, usage: nat): Result<Planned>
    requires k <= |s.members| + 1
  {
    if k == 0 then Ok(Planned(map[], 0, 0))
    else
      var before :- PlanThreads(src, s, k - 1, events, usage);
      var t :- T.Project(RecordsAt(src, s, k - 1),
                         ContextAt(src, s, k - 1, Left(events, before.events), Left(usage, before.usage)));
      Ok(Planned(before.threads[IdAt(src, s, k - 1) := t], before.events + t.events, before.usage + |t.usages|))
  }

  datatype Session = Session(search: Search, plans: Planned)

  function Admit(src: Source, events: nat, usage: nat): Result<Session> {
    var s :- Snapshot(src);
    var p :- PlanThreads(src, s, |s.members| + 1, events, usage);
    Ok(Session(s, p))
  }

  function MemberIds(s: Search): set<string> {
    set k | 0 <= k < |s.members| :: s.members[k].id
  }

  /** The family that the interleaving walks. */
  function FamilyOf(src: Source, a: Session): FamilyOrder.Family
    requires src.sourceId in a.plans.threads && MemberIds(a.search) <= a.plans.threads.Keys
  {
    FamilyOrder.Family(src.sourceId, a.plans.threads[src.sourceId].frames,
                       map c | c in MemberIds(a.search) :: a.plans.threads[c].turns)
  }

  // ---------------------------------------------------------------- ids, parents, depths

  lemma IdsDiffer(src: Source, s: Search, j: nat, k: nat)
    requires Good(src, s) && !("agent-" <= src.sourceId) && j < k <= |s.members|
    ensures IdAt(src, s, j) != IdAt(src, s, k)
  {
    hide References, CodeBuddyChild.Validate;
    assert Placed(src, s, k - 1);
  }

  /** The parent of member `k` comes before it in the queue. */
  lemma ParentBefore(src: Source, s: Search, k: nat) returns (j: nat)
    requires Good(src, s) && k < |s.members|
    ensures j <= k && Calls(src, s, j, s.members[k])
  {
    hide References, CodeBuddyChild.Validate, ChildName;
    assert Placed(src, s, k);
    j :| 0 <= j <= k && Calls(src, s, j, s.members[k]);
  }

  function ParentMap(s: Search, n: nat): map<string, string>
    requires n <= |s.members|
  {
    if n == 0 then map[] else ParentMap(s, n - 1)[s.members[n - 1].id := s.members[n - 1].parentId]
  }

  lemma {:induction false} ParentOf(src: Source, s: Search, n: nat, k: nat)
    requires Good(src, s) && k < n <= |s.members|
    ensures s.members[k].id in ParentMap(s, n) && ParentMap(s, n)[s.members[k].id] == s.members[k].parentId
  {
    hide References, CodeBuddyChild.Validate, Placed;
    if k < n - 1 {
      ParentOf(src, s, n - 1, k);
    }
  }

  /** `depth` grows by one from parent to child over the first `n` members. */
  ghost predicate Deep(src: Source, s: Search, n: nat, depth: map<string, nat>)
    requires n <= |s.members|
  {
    && (forall j :: 0 <= j <= n ==> IdAt(src, s, j) in depth)
    && forall k :: 0 <= k < n ==> s.members[k].id in depth && s.members[k].parentId in depth
                                  && depth[s.members[k].id] == depth[s.members[k].parentId] + 1
  }

  lemma {:induction false} Depths(src: Source, s: Search, n: nat) returns (depth: map<string, nat>)
    requires Good(src, s) && !("agent-" <= src.sourceId) && n <= |s.members|
    ensures Deep(src, s, n, depth)
  {
    hide Good;
    if n == 0 {
      depth := map[src.sourceId := 0];
    } else {
      var above := Depths(src, s, n - 1);
      var j := ParentBefore(src, s, n - 1);
      var m := s.members[n - 1];
      assert IdAt(src, s, j) == m.parentId;
      assert m.id == IdAt(src, s, n);
      depth := above[m.id := above[m.parentId] + 1];
      forall k | 0 <= k < n
        ensures s.members[k].id in depth && s.members[k].parentId in depth
        ensures depth[s.members[k].id] == depth[s.members[k].parentId] + 1
      {
        var i := ParentBefore(src, s, k);
        assert IdAt(src, s, i) == s.members[k].parentId;
        IdsDiffer(src, s, i, n);
        if k < n - 1 {
          IdsDiffer(src, s, k + 1, n);
          assert IdAt(src, s, k + 1) == s.members[k].id;
        }
      }
    }
  }

  function Lineage(s: Search, depth: map<string, nat>): FamilyOrder.Lineage {
    FamilyOrder.Lineage(ParentMap(s, |s.members|), depth)
  }

  // ---------------------------------------------------------------- what each thread brings

  /** Thread `k` was projected and is on record. */
  ghost predicate Planed(src: Source, s: Search, threads: map<string, T.Thread>, k: nat)
    requires k <= |s.members|
  {
    IdAt(src, s, k) in threads
    && exists e: nat, u: nat ::
         T.Project(RecordsAt(src, s, k), ContextAt(src, s, k, e, u)) == Ok(threads[IdAt(src, s, k)])
  }

  lemma {:induction false} ThreadsPlanned(src: Source, s: Search, n: nat, events: nat, usage: nat)
    requires Good(src, s) && !("agent-" <= src.sourceId) && n <= |s.members| + 1
             && PlanThreads(src, s, n, events, usage).Ok?
    ensures forall k :: 0 <= k < n ==> Planed(src, s, PlanThreads(src, s, n, events, usage).value.threads, k)
  {
    hide Good, T.Project;
    if n > 0 {
      ThreadsPlanned(src, s, n - 1, events, usage);
      var before, after := PlanThreads(src, s, n - 1, events, usage).value, PlanThreads(src, s, n, events, usage).value;
      forall k | 0 <= k < n
        ensures Planed(src, s, after.threads, k)
      {
        if k < n - 1 {
          assert Planed(src, s, before.threads, k);
          IdsDiffer(src, s, k, n - 1);
        } else {
          assert T.Project(RecordsAt(src, s, k),
                           ContextAt(src, s, k, Left(events, before.events), Left(usage, before.usage)))
              == Ok(after.threads[IdAt(src, s, k)]);
        }
      }
    }
  }

  /** What the traversal needs to know about queue entry `k` with thread `t`. */
  ghost predicate Ready(src: Source, s: Search, k: nat, t: T.Thread)
    requires k <= |s.members|
  {
    var id, d := IdAt(src, s, k), DeskAt(s, k);
    && Flatten(t.turns) == t.frames && FamilyOrder.EventTotal(t.frames) == t.events
    && CodeBuddyRecords.HistoryRecords(RecordsAt(src, s, k)).Ok?
    && |t.frames| == |CodeBuddyRecords.HistoryRecords(RecordsAt(src, s, k)).value|
    && (k > 0 ==> |t.turns| == |s.members[k - 1].ref.calls| && forall x :: 0 <= x < |t.turns| ==> t.turns[x] != [])
    && (forall i :: 0 <= i < |t.frames| ==> Owned(id, i, d, t.frames[i]))
    && (forall c :: c in d.children ==> FamilyOrder.CallCount(t.frames, c) == |d.children[c].calls|)
  }

  /** A frame stands at its place and links to children on record only. */
  ghost predicate Owned(id: string, slot: nat, d: Desk, f: T.Frame) {
    f.owner == id && f.slot == slot && (FamilyOrder.Link(f).Some? ==> FamilyOrder.Link(f).value in d.children)
  }

  lemma LinksAreChildren(d: Desk, r: Record)
    requires Consistent(d)
    ensures T.LinkOf(d.links, r).Some? ==> T.LinkOf(d.links, r).value in d.children
  {
  }

  lemma {:induction false} CallingIsLinked(entries: seq<Entry>, n: nat, links: map<string, Option<string>>, c: string,
                                           u: string)
    requires n <= |entries|
    ensures u in T.Calling(entries, n, links, c) ==> u in Linked(links, c)
    ensures u in Linked(links, c) && CallRow(entries, n, u) ==> u in T.Calling(entries, n, links, c)
  {
    if n > 0 {
      CallingIsLinked(entries, n - 1, links, c, u);
    }
  }

  /** Frames that call `c` are as many as its completed calls. */
  lemma CallsAreCompleted(entries: seq<Entry>, ctx: T.Context, d: Desk, c: string)
    requires T.Run(entries, ctx, |entries|).Ok? && ctx.callChildren == d.links && Consistent(d) && AllMatch(d)
             && c in d.children
    requires forall u :: u in d.links ==> CallRow(entries, |entries|, u)
    ensures FamilyOrder.CallCount(T.Run(entries, ctx, |entries|).value.frames, c) == |d.children[c].calls|
  {
    hide T.Run, FamilyOrder.CallCount, T.Calling, Linked, CallRow, CallIds, ChildName;
    T.CallsAreCounted(entries, ctx, |entries|, c);
    assert CallsMatch(d, c);
    forall u
      ensures u in T.Calling(entries, |entries|, d.links, c) <==> u in Linked(d.links, c)
    {
      CallingIsLinked(entries, |entries|, d.links, c, u);
      LinkedIsLink(d, c, u);
    }
    assert T.Calling(entries, |entries|, d.links, c) == Linked(d.links, c);
  }

  lemma LinkedIsLink(d: Desk, c: string, u: string)
    ensures u in Linked(d.links, c) ==> u in d.links
  {
  }

  /** What `References` promises about the history at queue entry `k`. */
  lemma HistoryAgrees(src: Source, s: Search, k: nat)
    requires Good(src, s) && k <= |s.members|
    ensures CodeBuddyRecords.HistoryRecords(RecordsAt(src, s, k)).Ok?
    ensures var d, entries := DeskAt(s, k), CodeBuddyRecords.HistoryRecords(RecordsAt(src, s, k)).value;
            && Consistent(d) && AllMatch(d) && forall u :: u in d.links ==> CallRow(entries, |entries|, u)
  {
    hide References, CodeBuddyChild.Validate, Consistent, AllMatch, CallRow, Calls, ChildName,
         CodeBuddyRecords.HistoryRecords;
    if k == 0 {
      ReferencesAgree(src.records, true, RootFork(src));
    } else {
      assert Placed(src, s, k - 1);
      ReferencesAgree(s.members[k - 1].records, false, ChildFork(src, s.members[k - 1].ref));
    }
  }

  /** A child has at least one completed call, and as many prompts as calls. */
  lemma PromptsAreCalls(src: Source, s: Search, k: nat)
    requires Good(src, s) && 0 < k <= |s.members|
    ensures CodeBuddyRecords.HistoryRecords(RecordsAt(src, s, k)).Ok?
    ensures var entries := CodeBuddyRecords.HistoryRecords(RecordsAt(src, s, k)).value;
            |T.Prompts(entries, |entries|)| == |s.members[k - 1].ref.calls| > 0
  {
    hide References, CodeBuddyChild.Validate, ChildName, CodeBuddyRecords.HistoryRecords, T.Prompts,
         CodeBuddyChild.TurnAnswers;
    hide Linked, CallIds;
    var m := s.members[k - 1];
    assert Placed(src, s, k - 1);
    CodeBuddyChild.TurnsAnswerCalls(m.records, m.ref);
    var j := ParentBefore(src, s, k - 1);
    DeskIsConsistent(src, s, j);
    assert CallsMatch(DeskAt(s, j), m.id);
  }

  lemma ThreadIsReady(src: Source, s: Search, threads: map<string, T.Thread>, k: nat)
    requires Good(src, s) && k <= |s.members| && Planed(src, s, threads, k)
    ensures Ready(src, s, k, threads[IdAt(src, s, k)])
  {
    hide Good, Consistent, AllMatch, T.Run, FamilyOrder.CallCount, Flatten, FamilyOrder.EventTotal,
         FamilyOrder.FirstLink, CallRow;
    hide CodeBuddyRecords.HistoryRecords, T.Prompts, T.LinkOf;
    var id, d, t := IdAt(src, s, k), DeskAt(s, k), threads[IdAt(src, s, k)];
    var e: nat, u: nat :| T.Project(RecordsAt(src, s, k), ContextAt(src, s, k, e, u)) == Ok(t);
    var ctx := ContextAt(src, s, k, e, u);
    HistoryAgrees(src, s, k);
    var entries := CodeBuddyRecords.HistoryRecords(RecordsAt(src, s, k)).value;
    T.TurnsArePrompts(entries, ctx, |entries|);
    T.FramesFollowRows(entries, ctx, |entries|);
    if k > 0 {
      PromptsAreCalls(src, s, k);
    }
    forall i | 0 <= i < |t.frames|
      ensures Owned(id, i, d, t.frames[i])
    {
      T.FramesLink(entries, ctx, |entries|, i);
      LinksAreChildren(d, entries[i].record);
    }
    forall c | c in d.children
      ensures FamilyOrder.CallCount(t.frames, c) == |d.children[c].calls|
    {
      CallsAreCompleted(entries, ctx, d, c);
    }
  }

  // ---------------------------------------------------------------- the tree

  /** A closed search with all its threads. */
  ghost predicate Admitted(src: Source, a: Session) {
    && Good(src, a.search) && !("agent-" <= src.sourceId)
    && (forall j :: 0 <= j <= |a.search.members| ==> Visited(src, a.search, j, |DeskAt(a.search, j).order|))
    && src.sourceId in a.plans.threads && MemberIds(a.search) <= a.plans.threads.Keys
    && (forall k :: 0 <= k <= |a.search.members| ==>
          IdAt(src, a.search, k) in a.plans.threads && Ready(src, a.search, k, a.plans.threads[IdAt(src, a.search, k)]))
  }

  lemma AdmitIsAdmitted(src: Source, events: nat, usage: nat)
    requires Admit(src, events, usage).Ok?
    ensures Admitted(src, Admit(src, events, usage).value)
  {
    hide Snapshot, PlanThreads, Ready, Good, Visited, Planed;
    var a := Admit(src, events, usage).value;
    SnapshotIsClosed(src);
    ThreadsPlanned(src, a.search, |a.search.members| + 1, events, usage);
    forall k | 0 <= k <= |a.search.members|
      ensures IdAt(src, a.search, k) in a.plans.threads
              && Ready(src, a.search, k, a.plans.threads[IdAt(src, a.search, k)])
    {
      assert Planed(src, a.search, a.plans.threads, k);
      PlannedIsKnown(src, a.search, a.plans.threads, k);
      ThreadIsReady(src, a.search, a.plans.threads, k);
    }
    assert IdAt(src, a.search, 0) == src.sourceId;
    forall c | c in MemberIds(a.search)
      ensures c in a.plans.threads
    {
      var k :| 0 <= k < |a.search.members| && a.search.members[k].id == c;
      assert IdAt(src, a.search, k + 1) == c;
    }
  }

  lemma PlannedIsKnown(src: Source, s: Search, threads: map<string, T.Thread>, k: nat)
    requires k <= |s.members| && Planed(src, s, threads, k)
    ensures IdAt(src, s, k) in threads
  {
  }

  lemma ChildIsOwn(src: Source, s: Search, j: nat, c: string)
    requires Good(src, s) && j <= |s.members| && Visited(src, s, j, |DeskAt(s, j).order|) && c in DeskAt(s, j).children
    ensures c in MemberIds(s) && c in ParentMap(s, |s.members|) && ParentMap(s, |s.members|)[c] == IdAt(src, s, j)
  {
    hide Good, AllMatch, ChildName, ParentMap;
    DeskIsConsistent(src, s, j);
    assert c in DeskAt(s, j).order;
    var i :| 0 <= i < |DeskAt(s, j).order| && DeskAt(s, j).order[i] == c;
    assert Found(s, c, IdAt(src, s, j));
    var k :| 0 <= k < |s.members| && s.members[k].id == c && s.members[k].parentId == IdAt(src, s, j);
    ParentOf(src, s, |s.members|, k);
  }

  lemma FrameIsProper(src: Source, a: Session, depth: map<string, nat>, k: nat, i: nat, f: T.Frame)
    requires Admitted(src, a) && k <= |a.search.members| && Owned(IdAt(src, a.search, k), i, DeskAt(a.search, k), f)
    ensures FamilyOrder.Proper(FamilyOf(src, a), Lineage(a.search, depth), f)
  {
    hide Good, Ready, Visited, FamilyOrder.FirstLink, ParentMap, MemberIds;
    assert Visited(src, a.search, k, |DeskAt(a.search, k).order|);
    if FamilyOrder.Link(f).Some? {
      ChildIsOwn(src, a.search, k, FamilyOrder.Link(f).value);
    }
  }

  lemma ThreadIsOwned(src: Source, a: Session, depth: map<string, nat>, k: nat)
    requires Admitted(src, a) && k <= |a.search.members|
    ensures FamilyOrder.OwnedBy(FamilyOf(src, a), Lineage(a.search, depth),
                                a.plans.threads[IdAt(src, a.search, k)].frames, IdAt(src, a.search, k))
  {
    hide Good, Visited, FamilyOrder.FirstLink, FamilyOrder.Proper, FamilyOrder.CallCount, Flatten,
         FamilyOrder.EventTotal, Lineage;
    var t := a.plans.threads[IdAt(src, a.search, k)];
    assert Ready(src, a.search, k, t);
    forall i | 0 <= i < |t.frames|
      ensures t.frames[i].owner == IdAt(src, a.search, k)
      ensures FamilyOrder.Proper(FamilyOf(src, a), Lineage(a.search, depth), t.frames[i])
    {
      assert Owned(IdAt(src, a.search, k), i, DeskAt(a.search, k), t.frames[i]);
      FrameIsProper(src, a, depth, k, i, t.frames[i]);
    }
  }

  lemma {:induction false} PartOfFlat<A>(parts: seq<seq<A>>, t: nat, i: nat) returns (at: nat)
    requires t < |parts| && i < |parts[t]|
    ensures at < |Flatten(parts)| && Flatten(parts)[at] == parts[t][i]
  {
    if t == 0 {
      at := i;
    } else {
      var rest := PartOfFlat(parts[1..], t - 1, i);
      at := |parts[0]| + rest;
    }
  }

  lemma TurnIsOwned(src: Source, a: Session, depth: map<string, nat>, k: nat, at: nat)
    requires Admitted(src, a) && 0 < k <= |a.search.members| && at < |a.plans.threads[IdAt(src, a.search, k)].turns|
    ensures FamilyOrder.OwnedBy(FamilyOf(src, a), Lineage(a.search, depth),
                                a.plans.threads[IdAt(src, a.search, k)].turns[at], IdAt(src, a.search, k))
  {
    hide Good, Visited, FamilyOrder.FirstLink, FamilyOrder.Proper, FamilyOrder.CallCount, Flatten,
         FamilyOrder.EventTotal, Lineage;
    hide Owned, MemberIds;
    ThreadIsOwned(src, a, depth, k);
    var t := a.plans.threads[IdAt(src, a.search, k)];
    assert Ready(src, a.search, k, t);
    forall i | 0 <= i < |t.turns[at]|
      ensures t.turns[at][i].owner == IdAt(src, a.search, k)
      ensures FamilyOrder.Proper(FamilyOf(src, a), Lineage(a.search, depth), t.turns[at][i])
    {
      var flat := PartOfFlat(t.turns, at, i);
    }
  }

  lemma MemberAt(src: Source, s: Search, c: string) returns (k: nat)
    requires c in MemberIds(s)
    ensures 0 < k <= |s.members| && IdAt(src, s, k) == c == s.members[k - 1].id
  {
    var i :| 0 <= i < |s.members| && s.members[i].id == c;
    k := i + 1;
  }

  /** Children hang one level below their parents, which are threads themselves. */
  lemma MemberIsPlaced(src: Source, a: Session, depth: map<string, nat>, k: nat)
    requires Admitted(src, a) && 0 < k <= |a.search.members| && Deep(src, a.search, |a.search.members|, depth)
    ensures FamilyOrder.ChildPlaced(FamilyOf(src, a), Lineage(a.search, depth), IdAt(src, a.search, k))
    ensures IdAt(src, a.search, k) in Lineage(a.search, depth).parent
    ensures Lineage(a.search, depth).parent[IdAt(src, a.search, k)] == a.search.members[k - 1].parentId
  {
    hide Good, Visited, Ready, ParentMap;
    var s := a.search;
    ParentOf(src, s, |s.members|, k - 1);
    var j := ParentBefore(src, s, k - 1);
    assert IdAt(src, s, j) == s.members[k - 1].parentId;
    if j > 0 {
      assert s.members[j - 1].id in MemberIds(s);
    }
    assert IdAt(src, s, k) in depth;
  }

  lemma RootIsNoMember(src: Source, s: Search)
    requires Good(src, s) && !("agent-" <= src.sourceId)
    ensures src.sourceId !in MemberIds(s)
  {
    hide Good;
    if src.sourceId in MemberIds(s) {
      var k := MemberAt(src, s, src.sourceId);
      IdsDiffer(src, s, 0, k);
    }
  }

  /** The admitted session is a tree in the traversal's sense. */
  lemma SessionIsTree(src: Source, a: Session, depth: map<string, nat>)
    requires Admitted(src, a) && Deep(src, a.search, |a.search.members|, depth)
    ensures FamilyOrder.Tree(FamilyOf(src, a), Lineage(a.search, depth))
  {
    hide Good, Visited, Ready, FamilyOrder.OwnedBy, FamilyOrder.ChildPlaced, Lineage, MemberIds;
    var s, fam, line := a.search, FamilyOf(src, a), Lineage(a.search, depth);
    RootIsNoMember(src, s);
    assert IdAt(src, s, 0) == src.sourceId;
    assert line.depth == depth by {
      LineageDepth(s, depth);
    }
    ThreadIsOwned(src, a, depth, 0);
    forall c | c in fam.turns
      ensures FamilyOrder.ChildPlaced(fam, line, c)
    {
      var k := MemberAt(src, s, c);
      MemberIsPlaced(src, a, depth, k);
    }
    forall c, t | c in fam.turns && 0 <= t < |fam.turns[c]|
      ensures FamilyOrder.TurnOwned(fam, line, c, t)
    {
      var k := MemberAt(src, s, c);
      TurnIsOwned(src, a, depth, k, t);
    }
  }

  lemma LineageDepth(s: Search, depth: map<string, nat>)
    ensures Lineage(s, depth).depth == depth
  {
  }

  lemma TurnsOf(src: Source, a: Session, k: nat)
    requires Admitted(src, a) && k <= |a.search.members|
    ensures FamilyOrder.AllTurns(FamilyOf(src, a), IdAt(src, a.search, k))
            == a.plans.threads[IdAt(src, a.search, k)].frames
  {
    hide Good, Visited, FamilyOrder.CallCount, FamilyOrder.EventTotal, Flatten, Owned;
    RootIsNoMember(src, a.search);
    assert Ready(src, a.search, k, a.plans.threads[IdAt(src, a.search, k)]);
    if k > 0 {
      assert a.search.members[k - 1].id in MemberIds(a.search);
    }
  }

  /** Calls and turns match in number for every child. */
  lemma SessionIsBalanced(src: Source, a: Session, depth: map<string, nat>)
    requires Admitted(src, a) && Deep(src, a.search, |a.search.members|, depth)
    ensures FamilyOrder.Balanced(FamilyOf(src, a), Lineage(a.search, depth))
  {
    hide Good, Visited, Ready, FamilyOrder.AllTurns, FamilyOrder.CallCount, FamilyOrder.ChildPlaced, Lineage, MemberIds;
    var s, fam, line := a.search, FamilyOf(src, a), Lineage(a.search, depth);
    forall c | c in fam.turns
      ensures FamilyOrder.ChildPlaced(fam, line, c) && c in line.parent
      ensures FamilyOrder.CallCount(FamilyOrder.AllTurns(fam, line.parent[c]), c) == |fam.turns[c]|
    {
      var k := MemberAt(src, s, c);
      MemberIsPlaced(src, a, depth, k);
      var j := ParentBefore(src, s, k - 1);
      TurnsOf(src, a, j);
      CountsMeet(src, a, j, k);
    }
  }

  lemma CountsMeet(src: Source, a: Session, j: nat, k: nat)
    requires Admitted(src, a) && 0 < k <= |a.search.members| && j < k
             && Calls(src, a.search, j, a.search.members[k - 1])
    ensures IdAt(src, a.search, j) == a.search.members[k - 1].parentId
    ensures FamilyOrder.CallCount(a.plans.threads[IdAt(src, a.search, j)].frames, IdAt(src, a.search, k))
            == |a.plans.threads[IdAt(src, a.search, k)].turns|
  {
    hide Good, Visited, FamilyOrder.CallCount, FamilyOrder.EventTotal, Flatten, Owned;
    assert Ready(src, a.search, j, a.plans.threads[IdAt(src, a.search, j)]);
    assert Ready(src, a.search, k, a.plans.threads[IdAt(src, a.search, k)]);
  }

  /** Main result. Whatever the search, the delegation check and the threads accept, the
    * interleaving meets a turn at every call, uses up every turn of every child, and shows every
    * frame of every thread exactly once in its own order. */
  lemma SessionInterleaves(src: Source, events: nat, usage: nat)
    requires Admit(src, events, usage).Ok?
    ensures var a := Admit(src, events, usage).value;
            && src.sourceId in a.plans.threads && MemberIds(a.search) <= a.plans.threads.Keys
            && var fam := FamilyOf(src, a);
               && FamilyOrder.Drain(fam, fam.root, map[]).Ok?
               && var out := FamilyOrder.Drain(fam, fam.root, map[]).value;
                  && FamilyOrder.OwnFrames(out.0, src.sourceId) == a.plans.threads[src.sourceId].frames
                  && (forall c :: c in MemberIds(a.search) ==>
                        && FamilyOrder.Cursor(out.1, c) == |a.plans.threads[c].turns|
                        && FamilyOrder.OwnFrames(out.0, c) == a.plans.threads[c].frames)
                  && forall i :: 0 <= i < |out.0| ==>
                       out.0[i].owner == src.sourceId || out.0[i].owner in MemberIds(a.search)
  {
    hide Admit, FamilyOrder.Tree, FamilyOrder.Balanced, FamilyOrder.Drain, FamilyOrder.OwnFrames, Good, Visited,
         FamilyOrder.CallCount;
    hide FamilyOrder.EventTotal, Owned;
    AdmitIsAdmitted(src, events, usage);
    var a := Admit(src, events, usage).value;
    var depth := Depths(src, a.search, |a.search.members|);
    SessionIsTree(src, a, depth);
    SessionIsBalanced(src, a, depth);
    var fam := FamilyOf(src, a);
    FamilyOrder.FamilyComplete(fam, Lineage(a.search, depth));
    forall c | c in MemberIds(a.search)
      ensures Flatten(fam.turns[c]) == a.plans.threads[c].frames
    {
      var k := MemberAt(src, a.search, c);
      assert Ready(src, a.search, k, a.plans.threads[c]);
    }
  }

  // ---------------------------------------------------------------- the numbers of the whole session

  /** The ids of the first `k` threads. */
  function Ids(src: Source, s: Search, k: nat): (r: seq<string>)
    requires k <= |s.members| + 1
    ensures |r| == k && forall j :: 0 <= j < k ==> r[j] == IdAt(src, s, j)
  {
    if k == 0 then [] else Ids(src, s, k - 1) + [IdAt(src, s, k - 1)]
  }

  lemma IdsCover(src: Source, s: Search)
    requires Good(src, s) && !("agent-" <= src.sourceId)
    ensures Distinct(Ids(src, s, |s.members| + 1))
    ensures forall c :: c in Ids(src, s, |s.members| + 1) <==> c == src.sourceId || c in MemberIds(s)
  {
    hide Good;
    var ids := Ids(src, s, |s.members| + 1);
    forall j, k | 0 <= j < k < |ids|
      ensures ids[j] != ids[k]
    {
      IdsDiffer(src, s, j, k);
    }
    forall c | c == src.sourceId || c in MemberIds(s)
      ensures c in ids
    {
      if c == src.sourceId {
        assert ids[0] == c;
      } else {
        var k := MemberAt(src, s, c);
        assert ids[k] == c;
      }
    }
    forall c | c in ids
      ensures c == src.sourceId || c in MemberIds(s)
    {
      var k :| 0 <= k < |ids| && ids[k] == c;
      assert k > 0 ==> s.members[k - 1].id in MemberIds(s);
    }
  }

  lemma {:induction false} TargetSnoc(fam: FamilyOrder.Family, ids: seq<string>, id: string)
    ensures FamilyOrder.Target(fam, ids + [id])
            == FamilyOrder.Target(fam, ids) + FamilyOrder.EventTotal(FamilyOrder.AllTurns(fam, id))
  {
    if ids == [] {
      assert [] + [id] == [id];
    } else {
      TargetSnoc(fam, ids[1..], id);
      assert (ids + [id])[1..] == ids[1..] + [id];
    }
  }

  /** The plan of the first `k` threads is part of the session's plan. */
  ghost predicate PartOf(src: Source, s: Search, part: map<string, T.Thread>, whole: map<string, T.Thread>, k: nat)
    requires k <= |s.members| + 1
  {
    forall j :: 0 <= j < k ==>
      IdAt(src, s, j) in part && IdAt(src, s, j) in whole && part[IdAt(src, s, j)] == whole[IdAt(src, s, j)]
  }

  lemma PartBefore(src: Source, s: Search, k: nat, before: map<string, T.Thread>, t: T.Thread,
                   whole: map<string, T.Thread>)
    requires Good(src, s) && !("agent-" <= src.sourceId) && 0 < k <= |s.members| + 1
    requires PartOf(src, s, before[IdAt(src, s, k - 1) := t], whole, k)
    ensures PartOf(src, s, before, whole, k - 1) && IdAt(src, s, k - 1) in whole && whole[IdAt(src, s, k - 1)] == t
  {
    hide Good;
    var after := before[IdAt(src, s, k - 1) := t];
    forall j | 0 <= j < k - 1
      ensures IdAt(src, s, j) in before && IdAt(src, s, j) in whole && before[IdAt(src, s, j)] == whole[IdAt(src, s, j)]
    {
      IdsDiffer(src, s, j, k - 1);
      assert IdAt(src, s, j) in after;
    }
    assert IdAt(src, s, k - 1) in after;
  }

  lemma AdmittedIsGood(src: Source, a: Session)
    requires Admitted(src, a)
    ensures Good(src, a.search) && !("agent-" <= src.sourceId)
  {
  }

  /** What the first `k` threads report adds up to the planned events. */
  lemma {:induction false} EventsAddUp(src: Source, a: Session, k: nat, events: nat, usage: nat)
    requires Admitted(src, a) && k <= |a.search.members| + 1 && PlanThreads(src, a.search, k, events, usage).Ok?
    requires PartOf(src, a.search, PlanThreads(src, a.search, k, events, usage).value.threads, a.plans.threads, k)
    ensures PlanThreads(src, a.search, k, events, usage).value.events
            == FamilyOrder.Target(FamilyOf(src, a), Ids(src, a.search, k))
  {
    hide Good, Visited, T.Project, Ready, FamilyOrder.AllTurns, FamilyOrder.EventTotal, MemberIds, PartOf;
    if k > 0 {
      var s, id := a.search, IdAt(src, a.search, k - 1);
      var before := PlanThreads(src, s, k - 1, events, usage).value;
      var t := T.Project(RecordsAt(src, s, k - 1),
                         ContextAt(src, s, k - 1, Left(events, before.events), Left(usage, before.usage))).value;
      PartBefore(src, s, k, before.threads, t, a.plans.threads);
      EventsAddUp(src, a, k - 1, events, usage);
      TargetSnoc(FamilyOf(src, a), Ids(src, s, k - 1), id);
      ThreadTotal(src, a, k - 1);
    }
  }

  lemma ThreadTotal(src: Source, a: Session, k: nat)
    requires Admitted(src, a) && k <= |a.search.members|
    ensures FamilyOrder.EventTotal(FamilyOrder.AllTurns(FamilyOf(src, a), IdAt(src, a.search, k)))
            == a.plans.threads[IdAt(src, a.search, k)].events
  {
    hide Good, Visited, FamilyOrder.AllTurns, FamilyOrder.EventTotal, MemberIds;
    TurnsOf(src, a, k);
    assert Ready(src, a.search, k, a.plans.threads[IdAt(src, a.search, k)]);
  }

  /** Main result. The interleaved events are numbered 0, 1, 2, ... and are exactly as many as the
    * target reports, the sum over all threads. */
  lemma SessionNumbers(src: Source, events: nat, usage: nat)
    requires Admit(src, events, usage).Ok?
    ensures var a := Admit(src, events, usage).value;
            && src.sourceId in a.plans.threads && MemberIds(a.search) <= a.plans.threads.Keys
            && var fam := FamilyOf(src, a);
               && FamilyOrder.Drain(fam, fam.root, map[]).Ok?
               && var out := FamilyOrder.Ordered(FamilyOrder.Drain(fam, fam.root, map[]).value.0, 0);
                  |FamilyOrder.Indices(out)| == a.plans.events && CountsFrom(0, FamilyOrder.Indices(out))
  {
    hide Snapshot, FamilyOrder.Tree, FamilyOrder.Balanced, FamilyOrder.Drain, FamilyOrder.Ordered, FamilyOrder.Indices,
         Good, Visited;
    hide PlanThreads, FamilyOrder.EventTotal, FamilyOrder.AllTurns, Ready, CountsFrom, MemberIds;
    AdmitIsAdmitted(src, events, usage);
    var a := Admit(src, events, usage).value;
    var depth := Depths(src, a.search, |a.search.members|);
    SessionIsTree(src, a, depth);
    SessionIsBalanced(src, a, depth);
    IdsCover(src, a.search);
    assert PartOf(src, a.search, a.plans.threads, a.plans.threads, |a.search.members| + 1);
    EventsAddUp(src, a, |a.search.members| + 1, events, usage);
    FamilyOrder.NumbersMeetTarget(FamilyOf(src, a), Lineage(a.search, depth),
                                  Ids(src, a.search, |a.search.members| + 1));
  }

  // ---------------------------------------------------------------- record keys

  /** A frame's key: its thread, its row, and for a tool sibling its call. Hashes of different
    * parts are taken to differ. */
  datatype Key = Key(thread: string, row: string, call: Option<string>)

  function KeyOf(thread: string, e: Entry): Key {
    Key(thread, e.record.id, if e.sibling then Some(e.record.callId) else None)
  }

  /** Rows of one history have different keys. */
  lemma KeysDiffer(records: seq<Record>, thread: string, i: nat, j: nat)
    requires CodeBuddyRecords.HistoryRecords(records).Ok? && i < j < |CodeBuddyRecords.HistoryRecords(records).value|
    ensures var unique := CodeBuddyRecords.HistoryRecords(records).value;
            KeyOf(thread, unique[i]) != KeyOf(thread, unique[j])
  {
    hide CodeBuddyRecords.GroupsComplete;
    var unique := CodeBuddyRecords.HistoryRecords(records).value;
    CodeBuddyRecords.CollectGroups(records, |records|);
    assert CodeBuddyRecords.SiblingAt(unique, i) && CodeBuddyRecords.SiblingAt(unique, j);
    assert !CodeBuddyRecords.SameKey(unique[i].record, unique[j].record);
  }

  /** Where a thread stands in the queue. */
  function QueueIndex(s: Search, id: string, n: nat): (k: nat)
    requires n <= |s.members|
    ensures k <= n
  {
    if n == 0 then 0 else if s.members[n - 1].id == id then n else QueueIndex(s, id, n - 1)
  }

  lemma {:induction false} QueueIndexFinds(src: Source, s: Search, k: nat, n: nat)
    requires Good(src, s) && !("agent-" <= src.sourceId) && k <= n <= |s.members|
    ensures QueueIndex(s, IdAt(src, s, k), n) == k
  {
    hide Good;
    if n > 0 && k < n {
      IdsDiffer(src, s, k, n);
      QueueIndexFinds(src, s, k, n - 1);
    }
  }

  /** The key of the row that a frame shows. */
  function FrameKey(src: Source, s: Search, f: T.Frame): Result<Key> {
    var unique :- CodeBuddyRecords.HistoryRecords(RecordsAt(src, s, QueueIndex(s, f.owner, |s.members|)));
    if f.slot < |unique| then Ok(KeyOf(f.owner, unique[f.slot])) else Err(Format)
  }

  /** The frames of one thread keep their order among themselves. */
  lemma {:induction false} OwnAt(out: seq<T.Frame>, i: nat, j: nat) returns (a: nat, b: nat)
    requires i < j < |out| && out[i].owner == out[j].owner
    ensures var own := FamilyOrder.OwnFrames(out, out[i].owner); a < b < |own| && own[a] == out[i] && own[b] == out[j]
  {
    if i == 0 {
      var c := OwnOne(out[1..], j - 1);
      a, b := 0, c + 1;
    } else {
      a, b := OwnAt(out[1..], i - 1, j - 1);
      if out[0].owner == out[i].owner {
        a, b := a + 1, b + 1;
      }
    }
  }

  lemma {:induction false} OwnOne(out: seq<T.Frame>, i: nat) returns (a: nat)
    requires i < |out|
    ensures var own := FamilyOrder.OwnFrames(out, out[i].owner); a < |own| && own[a] == out[i]
  {
    if i == 0 {
      a := 0;
    } else {
      a := OwnOne(out[1..], i - 1);
      if out[0].owner == out[i].owner {
        a := a + 1;
      }
    }
  }

  /** A shown frame is its thread's frame at that slot. */
  lemma FrameStands(src: Source, a: Session, k: nat, i: nat)
    requires Admitted(src, a) && k <= |a.search.members| && i < |a.plans.threads[IdAt(src, a.search, k)].frames|
    ensures var f := a.plans.threads[IdAt(src, a.search, k)].frames[i];
            && f.owner == IdAt(src, a.search, k) && f.slot == i
            && CodeBuddyRecords.HistoryRecords(RecordsAt(src, a.search, k)).Ok?
            && i < |CodeBuddyRecords.HistoryRecords(RecordsAt(src, a.search, k)).value|
            && FrameKey(src, a.search, f)
               == Ok(KeyOf(f.owner, CodeBuddyRecords.HistoryRecords(RecordsAt(src, a.search, k)).value[i]))
  {
    hide Good, Visited, CodeBuddyRecords.HistoryRecords, FamilyOrder.CallCount, FamilyOrder.EventTotal, Flatten,
         FamilyOrder.FirstLink;
    var t := a.plans.threads[IdAt(src, a.search, k)];
    assert Ready(src, a.search, k, t);
    assert Owned(IdAt(src, a.search, k), i, DeskAt(a.search, k), t.frames[i]);
    QueueIndexFinds(src, a.search, k, |a.search.members|);
  }

  ghost predicate OwnerKnown(src: Source, s: Search, id: string) {
    exists k :: 0 <= k <= |s.members| && IdAt(src, s, k) == id
  }

  ghost predicate ThreadShown(src: Source, a: Session, out: seq<T.Frame>, k: nat)
    requires k <= |a.search.members|
  {
    var id := IdAt(src, a.search, k);
    id in a.plans.threads && FamilyOrder.OwnFrames(out, id) == a.plans.threads[id].frames
  }

  /** The interleaved frames of an admitted session. */
  ghost predicate Shows(src: Source, a: Session, out: seq<T.Frame>) {
    && (forall i :: 0 <= i < |out| ==> OwnerKnown(src, a.search, out[i].owner))
    && forall k :: 0 <= k <= |a.search.members| ==> ThreadShown(src, a, out, k)
  }

  lemma ShownKeysDiffer(src: Source, a: Session, out: seq<T.Frame>, i: nat, j: nat)
    requires Admitted(src, a) && Shows(src, a, out) && i < j < |out|
    ensures Apart(src, a.search, out[i], out[j])
  {
    hide Admitted, FamilyOrder.OwnFrames, CodeBuddyRecords.HistoryRecords, FrameKey;
    assert OwnerKnown(src, a.search, out[i].owner) && OwnerKnown(src, a.search, out[j].owner);
    var k :| 0 <= k <= |a.search.members| && IdAt(src, a.search, k) == out[i].owner;
    assert ThreadShown(src, a, out, k);
    if out[i].owner == out[j].owner {
      var x, y := OwnAt(out, i, j);
      FrameStands(src, a, k, x);
      FrameStands(src, a, k, y);
      KeysDiffer(RecordsAt(src, a.search, k), out[i].owner, x, y);
    } else {
      var l :| 0 <= l <= |a.search.members| && IdAt(src, a.search, l) == out[j].owner;
      assert ThreadShown(src, a, out, l);
      var x := OwnOne(out, i);
      var y := OwnOne(out, j);
      FrameStands(src, a, k, x);
      FrameStands(src, a, l, y);
    }
  }

  lemma MemberOwnerKnown(src: Source, s: Search, id: string)
    requires id == src.sourceId || id in MemberIds(s)
    ensures OwnerKnown(src, s, id)
  {
    hide MemberIds;
    if id == src.sourceId {
      assert IdAt(src, s, 0) == id;
    } else {
      var k := MemberAt(src, s, id);
    }
  }

  lemma IdIsMember(src: Source, s: Search, k: nat)
    requires k <= |s.members|
    ensures if k == 0 then IdAt(src, s, k) == src.sourceId else IdAt(src, s, k) in MemberIds(s)
  {
  }

  lemma InterleavingShows(src: Source, a: Session, out: seq<T.Frame>)
    requires MemberIds(a.search) <= a.plans.threads.Keys && src.sourceId in a.plans.threads
    requires FamilyOrder.OwnFrames(out, src.sourceId) == a.plans.threads[src.sourceId].frames
    requires forall c :: c in MemberIds(a.search) ==> FamilyOrder.OwnFrames(out, c) == a.plans.threads[c].frames
    requires forall i :: 0 <= i < |out| ==> out[i].owner == src.sourceId || out[i].owner in MemberIds(a.search)
    ensures Shows(src, a, out)
  {
    hide FamilyOrder.OwnFrames, MemberIds, OwnerKnown, IdAt;
    forall i | 0 <= i < |out|
      ensures OwnerKnown(src, a.search, out[i].owner)
    {
      MemberOwnerKnown(src, a.search, out[i].owner);
    }
    forall k | 0 <= k <= |a.search.members|
      ensures ThreadShown(src, a, out, k)
    {
      IdIsMember(src, a.search, k);
    }
  }

  predicate Apart(src: Source, s: Search, f: T.Frame, g: T.Frame) {
    FrameKey(src, s, f).Ok? && FrameKey(src, s, g).Ok? && FrameKey(src, s, f).value != FrameKey(src, s, g).value
  }

  /** No two frames carry the same record key. */
  ghost predicate KeysApart(src: Source, s: Search, out: seq<T.Frame>) {
    forall i, j :: 0 <= i < j < |out| ==> Apart(src, s, out[i], out[j])
  }

  lemma ShownKeysApart(src: Source, a: Session, out: seq<T.Frame>)
    requires Admitted(src, a) && Shows(src, a, out)
    ensures KeysApart(src, a.search, out)
  {
    hide Admitted, Shows, Apart;
    forall i, j | 0 <= i < j < |out|
      ensures Apart(src, a.search, out[i], out[j])
    {
      ShownKeysDiffer(src, a, out, i, j);
    }
  }

  /** Main result. Over the whole interleaved session no two frames carry the same record key. */
  lemma RecordKeysDistinct(src: Source, events: nat, usage: nat)
    requires Admit(src, events, usage).Ok?
    ensures var a := Admit(src, events, usage).value;
            && src.sourceId in a.plans.threads && MemberIds(a.search) <= a.plans.threads.Keys
            && var fam := FamilyOf(src, a);
               && FamilyOrder.Drain(fam, fam.root, map[]).Ok?
               && KeysApart(src, a.search, FamilyOrder.Drain(fam, fam.root, map[]).value.0)
  {
    hide Admit, Admitted, Shows, FamilyOrder.Drain, FamilyOrder.OwnFrames, KeysApart, MemberIds;
    SessionInterleaves(src, events, usage);
    AdmitIsAdmitted(src, events, usage);
    var a := Admit(src, events, usage).value;
    var fam := FamilyOf(src, a);
    var out := FamilyOrder.Drain(fam, fam.root, map[]).value.0;
    InterleavingShows(src, a, out);
    ShownKeysApart(src, a, out);
  }
}
