/** Turns and calls in the interleaved CodeBuddy session: which turn stands behind which call. */
module CodeBuddyPlacement {
  import opened Base
  import opened Orders
  import opened CodeBuddyRows
  import opened CodeBuddyDelegation
  import opened CodeBuddyAlignment
  import R = CodeBuddyRecords
  import T = CodeBuddyThread
  import F = CodeBuddyFamily
  import S = CodeBuddySession
  import FamilyOrder

  /** A call's place among the calls to its child. */
  lemma {:induction false} CallOrderAt(entries: seq<Entry>, n: nat, links: map<string, Option<string>>,
                                       c: string, p: nat)
    requires p < n <= |entries| && T.LinkOf(links, entries[p].record) == Some(c)
    ensures |CallOrder(entries, p, links, c)| < |CallOrder(entries, n, links, c)|
    ensures CallOrder(entries, n, links, c)[|CallOrder(entries, p, links, c)|] == entries[p].record.callId
  {
    if p < n - 1 {
      CallOrderAt(entries, n - 1, links, c, p);
    }
  }

  /** The frames of a thread that call `c` before row `n`. */
  lemma {:induction false} CallsBefore(entries: seq<Entry>, ctx: T.Context, frames: seq<T.Frame>, n: nat, c: string)
    requires n <= |entries| == |frames|
    requires forall k :: 0 <= k < |entries| ==>
               FamilyOrder.Link(frames[k]) == T.LinkOf(ctx.callChildren, entries[k].record)
    ensures FamilyOrder.CallCount(frames[..n], c) == |CallOrder(entries, n, ctx.callChildren, c)|
  {
    hide T.LinkOf, FamilyOrder.FirstLink;
    if n > 0 {
      CallsBefore(entries, ctx, frames, n - 1, c);
      assert frames[..n] == frames[..n - 1] + [frames[n - 1]];
      FamilyOrder.CallCountSnoc(frames[..n - 1], frames[n - 1], c);
    }
  }

  /** How the history at queue entry `k` was read. */
  function ReadingAt(src: F.Source, s: F.Search, k: nat): Reading
    requires k <= |s.members|
  {
    if k == 0 then Reading(true, F.RootFork(src), Owner(src.records))
    else Reading(false, F.ChildFork(src, s.members[k - 1].ref), Owner(s.members[k - 1].records))
  }

  lemma ReadingIsDesk(src: F.Source, s: F.Search, k: nat)
    requires F.Good(src, s) && k <= |s.members|
    ensures R.HistoryRecords(S.RecordsAt(src, s, k)).Ok?
    ensures var entries := R.HistoryRecords(S.RecordsAt(src, s, k)).value;
            Scan(entries, ReadingAt(src, s, k), |entries|) == Ok(F.DeskAt(s, k))
  {
    hide Scan, R.HistoryRecords, F.Calls, ChildName;
    if k > 0 {
      assert F.Placed(src, s, k - 1);
    }
  }

  /** The frames of queue entry `k` link as its rows do. */
  lemma FramesLinkRows(src: F.Source, s: F.Search, threads: map<string, T.Thread>, k: nat)
    requires F.Good(src, s) && k <= |s.members| && S.Planed(src, s, threads, k)
    ensures R.HistoryRecords(S.RecordsAt(src, s, k)).Ok?
    ensures var entries, frames := R.HistoryRecords(S.RecordsAt(src, s, k)).value, threads[F.IdAt(src, s, k)].frames;
            |frames| == |entries| && forall r :: 0 <= r < |entries| ==>
              FamilyOrder.Link(frames[r]) == T.LinkOf(F.DeskAt(s, k).links, entries[r].record) && frames[r].slot == r
  {
    hide F.Good, T.Run, R.HistoryRecords, T.LinkOf, FamilyOrder.FirstLink;
    var t := threads[F.IdAt(src, s, k)];
    var e: nat, u: nat :| T.Project(S.RecordsAt(src, s, k), S.ContextAt(src, s, k, e, u)) == Ok(t);
    var entries, ctx := R.HistoryRecords(S.RecordsAt(src, s, k)).value, S.ContextAt(src, s, k, e, u);
    T.FramesFollowRows(entries, ctx, |entries|);
    forall r | 0 <= r < |entries|
      ensures FamilyOrder.Link(t.frames[r]) == T.LinkOf(F.DeskAt(s, k).links, entries[r].record)
    {
      T.FramesLink(entries, ctx, |entries|, r);
    }
  }

  /** The thread at queue entry `k`, its call row `p` to `c`, and the number `m` of that call. */
  ghost predicate CallAt(src: F.Source, s: F.Search, k: nat, p: nat, c: string, m: nat)
    requires k <= |s.members|
  {
    var history := R.HistoryRecords(S.RecordsAt(src, s, k));
    && history.Ok? && p < |history.value| && c in F.DeskAt(s, k).children
    && T.LinkOf(F.DeskAt(s, k).links, history.value[p].record) == Some(c)
    && m == |CallOrder(history.value, p, F.DeskAt(s, k).links, c)| < |F.DeskAt(s, k).children[c].calls|
  }

  /** Threads of the session are ordinary. */
  lemma ThreadIsOrdinary(src: F.Source, s: F.Search, threads: map<string, T.Thread>, k: nat)
    requires k <= |s.members| && S.Planed(src, s, threads, k)
    ensures R.HistoryRecords(S.RecordsAt(src, s, k)).Ok?
    ensures Ordinary(R.HistoryRecords(S.RecordsAt(src, s, k)).value)
  {
    hide T.Run, R.HistoryRecords, Ordinary;
    var t := threads[F.IdAt(src, s, k)];
    var e: nat, u: nat :| T.Project(S.RecordsAt(src, s, k), S.ContextAt(src, s, k, e, u)) == Ok(t);
    RunIsOrdinary(R.HistoryRecords(S.RecordsAt(src, s, k)).value, S.ContextAt(src, s, k, e, u));
  }

  /** As many calls to `c` have their results before this one as are made before it. */
  ghost predicate Keeps(src: F.Source, s: F.Search, k: nat, p: nat, c: string, m: nat)
    requires k <= |s.members| && CallAt(src, s, k, p, c, m)
  {
    var entries := R.HistoryRecords(S.RecordsAt(src, s, k)).value;
    |EarlierReplies(entries, F.DeskAt(s, k).links, c, entries[p].record.callId)| == m
  }

  /** The `m`-th completed call is the `m`-th call row exactly when `m` results come before its own. */
  lemma CallIsCompleted(src: F.Source, s: F.Search, threads: map<string, T.Thread>, k: nat, p: nat, c: string, m: nat)
    requires F.Good(src, s) && k <= |s.members| && CallAt(src, s, k, p, c, m) && S.Planed(src, s, threads, k)
    ensures var entries := R.HistoryRecords(S.RecordsAt(src, s, k)).value;
            F.DeskAt(s, k).children[c].calls[m].callId == entries[p].record.callId <==> Keeps(src, s, k, p, c, m)
  {
    hide F.Good, Scan, R.HistoryRecords, CallOrder, EarlierReplies, Ordinary;
    var entries, d := R.HistoryRecords(S.RecordsAt(src, s, k)).value, F.DeskAt(s, k);
    ReadingIsDesk(src, s, k);
    ThreadIsOrdinary(src, s, threads, k);
    OneTurnMeets(entries, ReadingAt(src, s, k), c, entries[p].record.callId, m);
  }

  /** A shown frame that calls `c` is the thread's `m`-th call to `c`. */
  lemma CallFrameStands(src: F.Source, a: S.Session, k: nat, p: nat, c: string)
    requires S.Admitted(src, a) && k <= |a.search.members| && S.Planed(src, a.search, a.plans.threads, k)
    requires p < |a.plans.threads[F.IdAt(src, a.search, k)].frames|
    requires FamilyOrder.Link(a.plans.threads[F.IdAt(src, a.search, k)].frames[p]) == Some(c)
    ensures var frames := a.plans.threads[F.IdAt(src, a.search, k)].frames;
            frames[p].slot == p && CallAt(src, a.search, k, p, c, FamilyOrder.CallCount(frames[..p], c))
  {
    hide F.Good, F.Visited, R.HistoryRecords, T.LinkOf, FamilyOrder.FirstLink, FamilyOrder.CallCount,
         FamilyOrder.EventTotal, Flatten;
    hide CallOrder, S.MemberIds, S.Planed;
    var s, frames, links := a.search, a.plans.threads[F.IdAt(src, a.search, k)].frames, F.DeskAt(a.search, k).links;
    FramesLinkRows(src, s, a.plans.threads, k);
    var entries := R.HistoryRecords(S.RecordsAt(src, s, k)).value;
    F.DeskIsConsistent(src, s, k);
    S.LinksAreChildren(F.DeskAt(s, k), entries[p].record);
    var ctx := S.ContextAt(src, s, k, 0, 0);
    CallsBefore(entries, ctx, frames, p, c);
    CallsBefore(entries, ctx, frames, |entries|, c);
    assert frames[..|entries|] == frames;
    CallOrderAt(entries, |entries|, links, c, p);
    assert S.Ready(src, s, k, a.plans.threads[F.IdAt(src, s, k)]);
  }

  /** Behind the call at place `i` of the session comes turn `m` of the child it calls. */
  ghost predicate TurnShown(src: F.Source, a: S.Session, out: seq<T.Frame>, i: nat, c: string, k: nat, m: nat)
    requires i < |out| && k <= |a.search.members|
  {
    && out[i].owner == F.IdAt(src, a.search, k) && CallAt(src, a.search, k, out[i].slot, c, m)
    && c in a.plans.threads && m < |a.plans.threads[c].turns| && a.plans.threads[c].turns[m] != []
    && i + 1 < |out| && out[i + 1] == a.plans.threads[c].turns[m][0]
  }

  lemma ShownTurn(src: F.Source, a: S.Session, depth: map<string, nat>, i: nat, c: string) returns (k: nat, m: nat)
    requires S.Admitted(src, a) && F.Good(src, a.search) && S.Deep(src, a.search, |a.search.members|, depth)
    requires forall j :: 0 <= j <= |a.search.members| ==> S.Planed(src, a.search, a.plans.threads, j)
    requires var fam := S.FamilyOf(src, a);
             && FamilyOrder.Drain(fam, fam.root, map[]).Ok? && i < |FamilyOrder.Drain(fam, fam.root, map[]).value.0|
             && FamilyOrder.Link(FamilyOrder.Drain(fam, fam.root, map[]).value.0[i]) == Some(c)
             && S.Shows(src, a, FamilyOrder.Drain(fam, fam.root, map[]).value.0)
    ensures k <= |a.search.members|
    ensures var fam := S.FamilyOf(src, a);
            TurnShown(src, a, FamilyOrder.Drain(fam, fam.root, map[]).value.0, i, c, k, m)
  {
    hide F.Good, F.Visited, FamilyOrder.Drain, FamilyOrder.Splice, FamilyOrder.OwnFrames, FamilyOrder.FirstLink,
         FamilyOrder.CallCount, CallAt;
    hide S.Ready, FamilyOrder.Tree, FamilyOrder.AllProper, S.Lineage, S.ParentMap, S.Deep, S.Planed, S.MemberIds;
    var s, fam, line := a.search, S.FamilyOf(src, a), S.Lineage(a.search, depth);
    var out := FamilyOrder.Drain(fam, fam.root, map[]).value.0;
    S.SessionIsTree(src, a, depth);
    FamilyOrder.TurnFollowsCall(fam, fam.root, map[], i, c);
    FamilyOrder.OutIsProper(fam, line);
    assert S.OwnerKnown(src, s, out[i].owner);
    k :| 0 <= k <= |s.members| && F.IdAt(src, s, k) == out[i].owner;
    assert S.ThreadShown(src, a, out, k);
    FamilyOrder.ParentIsCaller(fam, line, out, i, c);
    var p := FamilyOrder.CountsOwn(fam, line, out, i, c);
    CallFrameStands(src, a, k, p, c);
    m := FamilyOrder.CallCount(out[..i], c);
    TurnIsFilled(src, a, c, m);
  }

  lemma TurnIsFilled(src: F.Source, a: S.Session, c: string, m: nat)
    requires S.Admitted(src, a) && c in S.MemberIds(a.search) && m < |a.plans.threads[c].turns|
    ensures a.plans.threads[c].turns[m] != []
  {
    hide F.Good, F.Visited, FamilyOrder.CallCount, FamilyOrder.EventTotal, Flatten, S.Owned;
    var k := S.MemberAt(src, a.search, c);
    assert S.Ready(src, a.search, k, a.plans.threads[c]);
  }

  /** The place of a call's frame in the session. */
  ghost predicate Calling(src: F.Source, a: S.Session, i: nat, c: string)
    requires src.sourceId in a.plans.threads && S.MemberIds(a.search) <= a.plans.threads.Keys
  {
    var fam := S.FamilyOf(src, a);
    && FamilyOrder.Drain(fam, fam.root, map[]).Ok? && i < |FamilyOrder.Drain(fam, fam.root, map[]).value.0|
    && FamilyOrder.Link(FamilyOrder.Drain(fam, fam.root, map[]).value.0[i]) == Some(c)
  }

  /** The session as the interleaving shows it. */
  ghost function Shown(src: F.Source, a: S.Session): seq<T.Frame>
    requires src.sourceId in a.plans.threads && S.MemberIds(a.search) <= a.plans.threads.Keys
    requires FamilyOrder.Drain(S.FamilyOf(src, a), S.FamilyOf(src, a).root, map[]).Ok?
  {
    FamilyOrder.Drain(S.FamilyOf(src, a), S.FamilyOf(src, a).root, map[]).value.0
  }

  lemma AdmittedShows(src: F.Source, events: nat, usage: nat)
    requires S.Admit(src, events, usage).Ok?
    ensures var a := S.Admit(src, events, usage).value;
            && S.Admitted(src, a) && F.Good(src, a.search)
            && src.sourceId in a.plans.threads && S.MemberIds(a.search) <= a.plans.threads.Keys
            && (forall j :: 0 <= j <= |a.search.members| ==> S.Planed(src, a.search, a.plans.threads, j))
            && FamilyOrder.Drain(S.FamilyOf(src, a), S.FamilyOf(src, a).root, map[]).Ok?
            && S.Shows(src, a, Shown(src, a))
  {
    hide S.PlanThreads, F.Snapshot, F.Good, F.Visited, S.Ready, FamilyOrder.Drain, FamilyOrder.OwnFrames, S.Planed,
         S.Shows, S.MemberIds;
    var a := S.Admit(src, events, usage).value;
    S.SessionInterleaves(src, events, usage);
    S.AdmitIsAdmitted(src, events, usage);
    F.SnapshotIsClosed(src);
    S.ThreadsPlanned(src, a.search, |a.search.members| + 1, events, usage);
    S.InterleavingShows(src, a, FamilyOrder.Drain(S.FamilyOf(src, a), S.FamilyOf(src, a).root, map[]).value.0);
  }

  /** Main result. In an admitted session every call is followed at once by a turn of the child it
    * calls; and it is the turn of this very call exactly when as many calls to the child have their
    * results before it as are made before it. */
  lemma TurnsFollowTheirCalls(src: F.Source, events: nat, usage: nat, i: nat, c: string) returns (k: nat, m: nat)
    requires S.Admit(src, events, usage).Ok?
    requires var a := S.Admit(src, events, usage).value;
             && src.sourceId in a.plans.threads && S.MemberIds(a.search) <= a.plans.threads.Keys
             && Calling(src, a, i, c)
    ensures var a := S.Admit(src, events, usage).value;
            && k <= |a.search.members| && TurnShown(src, a, Shown(src, a), i, c, k, m)
            && var entries, p := R.HistoryRecords(S.RecordsAt(src, a.search, k)).value, Shown(src, a)[i].slot;
               F.DeskAt(a.search, k).children[c].calls[m].callId == entries[p].record.callId
               <==> Keeps(src, a.search, k, p, c, m)
  {
    hide S.Admit, S.Admitted, F.Good, FamilyOrder.Drain, FamilyOrder.FirstLink, S.Planed, S.Shows, S.MemberIds, S.Deep;
    hide R.HistoryRecords, CallAt;
    var a := S.Admit(src, events, usage).value;
    AdmittedShows(src, events, usage);
    S.AdmittedIsGood(src, a);
    var depth := S.Depths(src, a.search, |a.search.members|);
    k, m := ShownTurn(src, a, depth, i, c);
    CallIsCompleted(src, a.search, a.plans.threads, k, Shown(src, a)[i].slot, c, m);
  }

  /** A call row of thread `k` to `c` whose own turn is not the one in its place. */
  lemma DisplacedCall(src: F.Source, a: S.Session, k: nat, c: string) returns (p: nat, x: nat)
    requires S.Admitted(src, a) && k <= |a.search.members| && S.Planed(src, a.search, a.plans.threads, k)
    requires c in F.DeskAt(a.search, k).children && R.HistoryRecords(S.RecordsAt(src, a.search, k)).Ok?
    requires !InOrder(R.HistoryRecords(S.RecordsAt(src, a.search, k)).value, F.DeskAt(a.search, k).links, c)
    ensures CallAt(src, a.search, k, p, c, x)
    ensures F.DeskAt(a.search, k).children[c].calls[x].callId
            != R.HistoryRecords(S.RecordsAt(src, a.search, k)).value[p].record.callId
  {
    hide F.Good, F.Visited, R.HistoryRecords, T.LinkOf, FamilyOrder.CallCount, FamilyOrder.EventTotal, Flatten,
         CallOrder, InOrder, Scan;
    hide S.Planed, S.MemberIds, Ordinary, FamilyOrder.FirstLink;
    var s, d := a.search, F.DeskAt(a.search, k);
    var entries, t := R.HistoryRecords(S.RecordsAt(src, s, k)).value, a.plans.threads[F.IdAt(src, s, k)];
    ReadingIsDesk(src, s, k);
    ThreadIsOrdinary(src, s, a.plans.threads, k);
    TurnsMeetCalls(entries, ReadingAt(src, s, k), c);
    FramesLinkRows(src, s, a.plans.threads, k);
    CallsBefore(entries, S.ContextAt(src, s, k, 0, 0), t.frames, |entries|, c);
    assert t.frames[..|entries|] == t.frames;
    assert S.Ready(src, s, k, t);
    var calls, receipts := CallOrder(entries, |entries|, d.links, c), ReceiptOrder(d, c);
    x := FirstDifference(calls, receipts);
    p := CallOrderRows(entries, |entries|, d.links, c, x);
  }

  /** Main result, the other half. If some call to a child has its result after that of a later call,
    * then some call of the session is followed by another call's turn. */
  lemma DisorderDisplaces(src: F.Source, events: nat, usage: nat, k: nat, c: string) returns (i: nat, m: nat)
    requires S.Admit(src, events, usage).Ok? && k <= |S.Admit(src, events, usage).value.search.members|
    requires var s := S.Admit(src, events, usage).value.search;
             && c in F.DeskAt(s, k).children && R.HistoryRecords(S.RecordsAt(src, s, k)).Ok?
             && !InOrder(R.HistoryRecords(S.RecordsAt(src, s, k)).value, F.DeskAt(s, k).links, c)
    ensures var a := S.Admit(src, events, usage).value;
            && src.sourceId in a.plans.threads && S.MemberIds(a.search) <= a.plans.threads.Keys
            && Calling(src, a, i, c) && TurnShown(src, a, Shown(src, a), i, c, k, m)
            && F.DeskAt(a.search, k).children[c].calls[m].callId
               != R.HistoryRecords(S.RecordsAt(src, a.search, k)).value[Shown(src, a)[i].slot].record.callId
  {
    hide S.Admit, S.Ready, F.Good, F.Visited, FamilyOrder.Drain, FamilyOrder.FirstLink, FamilyOrder.OwnFrames, S.Planed,
         S.MemberIds;
    hide R.HistoryRecords, InOrder, CallAt;
    var a := S.Admit(src, events, usage).value;
    AdmittedShows(src, events, usage);
    var p, x := DisplacedCall(src, a, k, c);
    i := PlaceOfCall(src, a, k, p, c, x);
    var k', m' := TurnsFollowTheirCalls(src, events, usage, i, c);
    if k' != k {
      if k' < k {
        S.IdsDiffer(src, a.search, k', k);
      } else {
        S.IdsDiffer(src, a.search, k, k');
      }
    }
    SameCallNumber(src, a.search, k, p, c, x, m');
    m := m';
  }

  lemma SameCallNumber(src: F.Source, s: F.Search, k: nat, p: nat, c: string, x: nat, m: nat)
    requires k <= |s.members| && CallAt(src, s, k, p, c, x) && CallAt(src, s, k, p, c, m)
    ensures x == m
  {
  }

  /** The call row has its frame in the session. */
  lemma PlaceOfCall(src: F.Source, a: S.Session, k: nat, p: nat, c: string, x: nat) returns (i: nat)
    requires S.Admitted(src, a) && k <= |a.search.members| && S.Planed(src, a.search, a.plans.threads, k)
    requires CallAt(src, a.search, k, p, c, x)
    requires FamilyOrder.Drain(S.FamilyOf(src, a), S.FamilyOf(src, a).root, map[]).Ok? && S.Shows(src, a, Shown(src, a))
    ensures Calling(src, a, i, c) && Shown(src, a)[i].owner == F.IdAt(src, a.search, k) && Shown(src, a)[i].slot == p
  {
    hide S.Ready, F.Good, F.Visited, FamilyOrder.Drain, FamilyOrder.OwnFrames, FamilyOrder.FirstLink, S.Planed,
         S.MemberIds;
    hide R.HistoryRecords, T.LinkOf, CallOrder;
    FramesLinkRows(src, a.search, a.plans.threads, k);
    var out, id := Shown(src, a), F.IdAt(src, a.search, k);
    assert S.ThreadShown(src, a, out, k);
    i := FamilyOrder.OwnIsShown(out, id, p);
    S.FrameStands(src, a, k, p);
  }
}
