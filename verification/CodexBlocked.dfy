/** What a blocked session does to the others: from every Raw state in which a session is blocked there are
  * runs of any length in which another one waits for Raw service, and pages of the collector lead there. */
module CodexBlocked {
  import opened Base
  import opened CodexSchedule
  import opened CodexStarving
  import opened CodexWaiting
  import Sending = CodexRaw

  // ---------------------------------------------------------------- runs from any blocked state

  /** Session x goes first, y waits behind it, and somebody keeps writing to z. */
  datatype Trio = Trio(x: string, y: string, z: string)

  predicate Apart(ids: Trio) {
    ids.x != ids.y && ids.x != ids.z && ids.y != ids.z
  }

  function Writer(z: string, k: nat): Session {
    OneFile(z, 6 + k, 6 + k)
  }

  function Ordered(ids: Trio, k: nat): seq<Session> {
    [OneFile(ids.x, 2, 4), OneFile(ids.y, 3, 4), Writer(ids.z, k)]
  }

  /** One Raw turn, then four canonical turns of z; the version of z that was shown last. */
  function LastShown(ids: Trio, k: nat): Progress {
    Progress(if k % 5 == 1 then 4 + k else 5 + k, [FileMark(ids.z, "g", if k % 5 == 1 then 4 + k else 5 + k)])
  }

  function TurnAt(ids: Trio, k: nat, s: Raws, git: bool, later: (string, string) -> bool): Turn {
    var needs := if NeedsRaw(FilesOf(s, ids.x), AcksOf(s, ids.x)) then {ids.x, ids.y, ids.z} else {ids.y, ids.z};
    var progress := map[ids.x := Shown(OneFile(ids.x, 2, 4)), ids.y := Shown(OneFile(ids.y, 3, 4)),
                        ids.z := LastShown(ids, k)];
    Turn(Sees(Ordered(ids, k), needs, git, later),
         Cursor(None, if k % 5 == 0 then 4 else k % 5 - 1, Some(if k % 5 == 1 then ids.x else ids.z),
                if ids.x in s.held then [Active(ids.x, Raw, 0)] else [], progress, 0, ""), true)
  }

  /** Who is selected. */
  function ChoiceAt(ids: Trio, k: nat): Choice {
    if k % 5 == 0 then Choice(OneFile(ids.x, 2, 4), Raw) else Choice(Writer(ids.z, k), Canonical)
  }

  lemma OrderAt(ids: Trio, k: nat, s: Raws, git: bool, later: (string, string) -> bool)
    requires Apart(ids) && Blocked(s, ids.x)
    ensures var t := TurnAt(ids, k, s, git, later);
            var x, y, z := OneFile(ids.x, 2, 4), OneFile(ids.y, 3, 4), Writer(ids.z, k);
            && Rotated(t.view, t.cursor) == (if k % 5 == 1 then [y, z, x] else [x, y, z])
            && CanonicalQueue(t.view, t.cursor) == [z]
            && Eligible(x, t.view, t.cursor) && Eligible(y, t.view, t.cursor)
  {
    hide IsAfter, Waiting, Without, Only, NeedsRaw, AllIdle, Sending.Complete;
    var t := TurnAt(ids, k, s, git, later);
    var v, c := t.view, t.cursor;
    var x, y, z := OneFile(ids.x, 2, 4), OneFile(ids.y, 3, 4), Writer(ids.z, k);
    WriterIsAfter(ids, k, c, later);
    Settled(x, x.files[0], c, later);
    Settled(y, y.files[0], c, later);
    ThreeRotated(x, y, z, c.last);
    ThreeWait(x, y, z, c, later);
    ThreeWait(y, z, x, c, later);
    if ids.x in s.held {
      assert c.pending[0] == Active(ids.x, Raw, 0);
    }
  }

  lemma WriterIsAfter(ids: Trio, k: nat, c: Cursor, later: (string, string) -> bool)
    requires ids.z in c.progress && c.progress[ids.z] == LastShown(ids, k)
    ensures IsAfter(Writer(ids.z, k), c, later)
  {
  }

  /** At every Raw slot x goes ahead of y; all other turns are z's. */
  lemma SelectAt(ids: Trio, k: nat, s: Raws, git: bool, later: (string, string) -> bool)
    requires Apart(ids) && Blocked(s, ids.x)
    ensures var t := TurnAt(ids, k, s, git, later); Select(t.view, t.cursor) == Some(ChoiceAt(ids, k))
  {
    OrderAt(ids, k, s, git, later);
    hide CanonicalQueue, Rotated, Eligible, RawChoice, Blocked, NeedsRaw;
    var t := TurnAt(ids, k, s, git, later);
    if k % 5 == 0 {
      FirstEligible(Rotated(t.view, t.cursor), t.view, t.cursor);
    } else {
      OnlyCanonical(t.view, t.cursor, Writer(ids.z, k));
    }
  }

  lemma TurnWaits(ids: Trio, k: nat, s: Raws, git: bool, later: (string, string) -> bool)
    requires Apart(ids) && Blocked(s, ids.x)
    ensures WaitsAt(TurnAt(ids, k, s, git, later), ids.y)
  {
    OrderAt(ids, k, s, git, later);
    SelectAt(ids, k, s, git, later);
    hide Select, Rotated, CanonicalQueue, Eligible, Blocked, NeedsRaw;
    assert EligibleAt(TurnAt(ids, k, s, git, later), ids.y, if k % 5 == 1 then 0 else 1);
  }

  lemma TurnAgrees(ids: Trio, k: nat, s: Raws, git: bool, later: (string, string) -> bool)
    requires Apart(ids)
    ensures Agrees([ids.x], TurnAt(ids, k, s, git, later), s)
  {
    hide NeedsRaw;
    var t := TurnAt(ids, k, s, git, later);
    if ids.x in s.held {
      assert t.cursor.pending[0] == Active(ids.x, Raw, 0);
    }
  }

  /** The Raw state before turn `k`: only the Raw turns of x change it. */
  function RawsAt(ids: Trio, k: nat, s: Raws, lims: seq<Sending.Limits>): Raws {
    if k == 0 then s
    else
      var before := RawsAt(ids, k - 1, s, lims);
      if (k - 1) % 5 == 0 then AfterRaw(before, ids.x, lims) else before
  }

  lemma {:induction false} BlockedAt(ids: Trio, k: nat, s: Raws, lims: seq<Sending.Limits>)
    requires Blocked(s, ids.x)
    ensures Blocked(RawsAt(ids, k, s, lims), ids.x)
  {
    hide Blocked, AfterRaw;
    if k > 0 {
      BlockedAt(ids, k - 1, s, lims);
      BlockedStays(RawsAt(ids, k - 1, s, lims), ids.x, lims);
    }
  }

  lemma LeavesNext(ids: Trio, k: nat, s: Raws, lims: seq<Sending.Limits>, git: bool, later: (string, string) -> bool)
    requires Apart(ids) && Blocked(s, ids.x)
    ensures var now, next := RawsAt(ids, k, s, lims), RawsAt(ids, k + 1, s, lims);
            && Leaves(TurnAt(ids, k, now, git, later), Found(now, lims)) == next
            && Leads(TurnAt(ids, k, now, git, later), TurnAt(ids, k + 1, next, git, later).cursor)
  {
    hide Select, Blocked, AfterRaw, NeedsRaw, Ordered, LastShown;
    var now := RawsAt(ids, k, s, lims);
    BlockedAt(ids, k, s, lims);
    SelectAt(ids, k, now, git, later);
    assert (k + 1) % 5 == if k % 5 == 4 then 0 else k % 5 + 1;
  }

  /** What a turn leaves is what the next one finds. */
  predicate Handed(turns: seq<Turn>, found: seq<Found>, k: nat)
    requires k + 1 < |turns| == |found|
  {
    found[k + 1].raws == Leaves(turns[k], found[k])
  }

  /** Main result. From every Raw state in which a session is blocked there is a run of any length, in which
    * nothing but its Raw turns happens to that state, and in which another session is eligible for Raw service
    * at every turn and gets none. */
  lemma BlockedStarves(s: Raws, ids: Trio, lims: seq<Sending.Limits>, n: nat, git: bool,
                       later: (string, string) -> bool)
    returns (turns: seq<Turn>, found: seq<Found>)
    requires Apart(ids) && Blocked(s, ids.x)
    ensures |turns| == |found| == n && IsRun(turns) && (n > 0 ==> found[0].raws == s)
    ensures forall k :: 0 <= k < n ==> WaitsAt(turns[k], ids.y) && Agrees([ids.x], turns[k], found[k].raws)
    ensures forall k: nat {:trigger Handed(turns, found, k)} :: k + 1 < n ==> Handed(turns, found, k)
  {
    hide WaitsAt, Agrees, Blocked, TurnAt, RawsAt, Leaves, Leads;
    turns := seq(n, k requires 0 <= k < n => TurnAt(ids, k, RawsAt(ids, k, s, lims), git, later));
    found := seq(n, k requires 0 <= k < n => Found(RawsAt(ids, k, s, lims), lims));
    forall k | 0 <= k < n
      ensures WaitsAt(turns[k], ids.y) && Agrees([ids.x], turns[k], found[k].raws)
    {
      BlockedAt(ids, k, s, lims);
      TurnWaits(ids, k, RawsAt(ids, k, s, lims), git, later);
      TurnAgrees(ids, k, RawsAt(ids, k, s, lims), git, later);
    }
    forall k: nat | k + 1 < n
      ensures Linked(turns, k) && Handed(turns, found, k)
    {
      LeavesNext(ids, k, s, lims, git, later);
    }
    FirstRaws(ids, s, lims);
  }

  lemma FirstRaws(ids: Trio, s: Raws, lims: seq<Sending.Limits>)
    ensures RawsAt(ids, 0, s, lims) == s
  {
  }

  // ---------------------------------------------------------------- a file without a complete line

  /** A session whose only record is not finished: the file has four bytes, its complete lines none. */
  const UNFINISHED := OneFile("a", 1, 4)
  const UNFINISHED_SHOWN := Progress(1, [FileMark("a", "g", 0)])
  const UNFINISHED_FILE := Sending.File("a", "g", [120, 120, 120, 120], 0, false, true)
  const UNFINISHED_RAWS := Raws(map["a" := [UNFINISHED_FILE]], map[], map[])

  lemma UnfinishedBlocked()
    ensures Blocked(UNFINISHED_RAWS, "a")
  {
    var files, acks := FilesOf(UNFINISHED_RAWS, "a"), AcksOf(UNFINISHED_RAWS, "a");
    assert Lineless(files[0], acks);
    BlockedExactly(UNFINISHED_RAWS, "a");
  }

  /** Its Raw page sends nothing and completes at once, so nothing is ever acknowledged of it. */
  lemma UnfinishedCompletes(lim: Sending.Limits)
    ensures var at := Sending.Position(0, false);
            && Sending.Collect([UNFINISHED_FILE], [at], 1, lim) == Ok(Sending.Page([[]], [at]))
            && Sending.Complete([UNFINISHED_FILE], [at])
  {
    var at := Sending.Position(0, false);
    assert Sending.Collect([UNFINISHED_FILE], [at], 0, lim) == Ok(Sending.Page([], []));
    var nothing: seq<Sending.Segment> := [];
    IdleVisit(UNFINISHED_FILE, at, 0, 0, lim);
    assert [] + [nothing] == [nothing] && [] + [at] == [at];
  }

  /** The canonical snapshot saw no complete line, and the file did not change since. */
  lemma UnfinishedSettled(c: Cursor, later: (string, string) -> bool)
    requires "a" in c.progress && c.progress["a"] == UNFINISHED_SHOWN
    ensures !IsAfter(UNFINISHED, c, later)
  {
    assert FindMark(UNFINISHED_SHOWN.files, "a") == Some(FileMark("a", "g", 0));
    assert SourceKey(UNFINISHED_SHOWN.files) == SourceKey(UNFINISHED.files);
  }

  function CycleView(p: nat, git: bool, later: (string, string) -> bool): View {
    Sees([UNFINISHED, WAITING, Growing(6 + p)], {"a", "b", "c"}, git, later)
  }

  /** A Raw page of a, which completes, then four canonical pages of c, and so on. */
  function CyclePage(p: nat, git: bool, later: (string, string) -> bool): PageOf {
    if p % 5 == 0 then PageOf(CycleView(p, git, later), Choice(UNFINISHED, Raw), Done, UNFINISHED_SHOWN)
    else PageOf(CycleView(p, git, later), Choice(Growing(6 + p), Canonical), Done, Shown(Growing(6 + p)))
  }

  function CycleCursor(p: nat): Cursor {
    Cursor(None, if p % 5 == 0 then 4 else p % 5 - 1, Some(if p % 5 == 1 then "a" else "c"), [],
           map["a" := UNFINISHED_SHOWN, "b" := Shown(WAITING),
               "c" := Shown(Growing(if p % 5 == 1 then 4 + p else 5 + p))], 0, "")
  }

  lemma CycleStep(p: nat, git: bool, later: (string, string) -> bool)
    ensures var page := CyclePage(p, git, later);
            AfterPage(CycleCursor(p), page.choice, page.outcome, page.snapshot) == CycleCursor(p + 1)
  {
    assert Forget([], "c", Canonical) == [] && Forget([], "a", Raw) == [];
    var r := p % 5;
    assert (p + 1) % 5 == if r == 4 then 0 else r + 1;
    assert r > 0 ==> CycleCursor(p).progress["c" := Shown(Growing(6 + p))] == CycleCursor(p + 1).progress;
  }

  lemma CycleOrder(p: nat, git: bool, later: (string, string) -> bool)
    ensures var v, c := CycleView(p, git, later), CycleCursor(p);
            && Rotated(v, c)
               == (if p % 5 == 1 then [WAITING, Growing(6 + p), UNFINISHED] else [UNFINISHED, WAITING, Growing(6 + p)])
            && CanonicalQueue(v, c) == [Growing(6 + p)] && Eligible(UNFINISHED, v, c) && Eligible(WAITING, v, c)
  {
    hide IsAfter, Waiting, Without, Only;
    var v, c, g := CycleView(p, git, later), CycleCursor(p), Growing(6 + p);
    CycleIsAfter(p, later);
    UnfinishedSettled(c, later);
    Settled(WAITING, WAITING.files[0], c, later);
    ThreeRotated(UNFINISHED, WAITING, g, c.last);
    ThreeWait(UNFINISHED, WAITING, g, c, later);
    ThreeWait(WAITING, g, UNFINISHED, c, later);
  }

  lemma CycleIsAfter(p: nat, later: (string, string) -> bool)
    ensures IsAfter(Growing(6 + p), CycleCursor(p), later)
  {
  }

  lemma CycleSelect(p: nat, git: bool, later: (string, string) -> bool)
    ensures Select(CycleView(p, git, later), CycleCursor(p)) == Some(CyclePage(p, git, later).choice)
  {
    CycleOrder(p, git, later);
    hide CanonicalQueue, Rotated, Eligible, RawChoice;
    var v, c := CycleView(p, git, later), CycleCursor(p);
    if p % 5 == 0 {
      FirstEligible(Rotated(v, c), v, c);
    } else {
      OnlyCanonical(v, c, Growing(6 + p));
    }
  }

  lemma CycleWaits(p: nat, git: bool, later: (string, string) -> bool)
    ensures var t := Turn(CycleView(p, git, later), CycleCursor(p), true);
            WaitsAt(t, "b") && Agrees(["a"], t, UNFINISHED_RAWS)
  {
    CycleSelect(p, git, later);
    CycleOrder(p, git, later);
    UnfinishedBlocked();
    hide Select, Rotated, CanonicalQueue, Eligible, NeedsRaw;
    assert EligibleAt(Turn(CycleView(p, git, later), CycleCursor(p), true), "b", if p % 5 == 1 then 0 else 1);
  }

  function CyclePages(n: nat, git: bool, later: (string, string) -> bool): (pages: seq<PageOf>)
    ensures |pages| == n && forall p :: 0 <= p < n ==> pages[p] == CyclePage(p, git, later)
  {
    seq(n, p requires 0 <= p < n => CyclePage(p, git, later))
  }

  lemma {:induction false} PagesCycle(n: nat, p: nat, git: bool, later: (string, string) -> bool)
    requires p <= n
    ensures Pages(CycleCursor(0), CyclePages(n, git, later), p) == CycleCursor(p)
  {
    hide AfterPage, CyclePage, CycleCursor;
    if p > 0 {
      PagesCycle(n, p - 1, git, later);
      CycleStep(p - 1, git, later);
    }
  }

  lemma CycleIsScheduled(n: nat, git: bool, later: (string, string) -> bool)
    ensures Scheduled(CycleCursor(0), CyclePages(n, git, later))
  {
    hide Select, Pages;
    var pages := CyclePages(n, git, later);
    forall p | 0 <= p < n
      ensures PageScheduled(Pages(CycleCursor(0), pages, p), pages[p])
    {
      PagesCycle(n, p, git, later);
      CycleSelect(p, git, later);
    }
  }

  /** Every page is a turn. */
  lemma {:induction false} CycleTurns(n: nat, p: nat, git: bool, later: (string, string) -> bool)
    requires p <= n
    ensures var turns := Turns(CycleCursor(0), CyclePages(n, git, later), p);
            && |turns| == p
            && forall k :: 0 <= k < p ==> WaitsAt(turns[k], "b") && Agrees(["a"], turns[k], UNFINISHED_RAWS)
  {
    hide Pages, WaitsAt, Agrees, CycleView;
    if p > 0 {
      CycleTurns(n, p - 1, git, later);
      PagesCycle(n, p, git, later);
      PagesCycle(n, p - 1, git, later);
      CycleWaits(p - 1, git, later);
    }
  }

  // ---------------------------------------------------------------- how it begins

  /** a, b and c are shown, c twice. */
  function FirstPage(p: nat, git: bool, later: (string, string) -> bool): PageOf
    requires p < 4
  {
    if p == 0 then PageOf(Sees([UNFINISHED], {"a"}, git, later), Choice(UNFINISHED, Canonical), Done, UNFINISHED_SHOWN)
    else if p == 1 then
      PageOf(Sees([UNFINISHED, WAITING], {"a", "b"}, git, later), Choice(WAITING, Canonical), Done, Shown(WAITING))
    else
      var c := Growing(p + 2);
      PageOf(Sees([UNFINISHED, WAITING, c], {"a", "b", "c"}, git, later), Choice(c, Canonical), Done, Shown(c))
  }

  function FirstCursor(p: nat): Cursor
    requires p <= 4
  {
    var a := map["a" := UNFINISHED_SHOWN];
    var ab := a["b" := Shown(WAITING)];
    if p == 0 then FRESH
    else if p == 1 then Cursor(None, 1, Some("a"), [], a, 0, "")
    else if p == 2 then Cursor(None, 2, Some("b"), [], ab, 0, "")
    else if p == 3 then Cursor(None, 3, Some("c"), [], ab["c" := Shown(Growing(4))], 0, "")
    else CycleCursor(0)
  }

  lemma FirstStep(p: nat, git: bool, later: (string, string) -> bool)
    requires p < 4
    ensures var page := FirstPage(p, git, later);
            AfterPage(FirstCursor(p), page.choice, page.outcome, page.snapshot) == FirstCursor(p + 1)
  {
    assert Forget([], "a", Canonical) == Forget([], "b", Canonical) == Forget([], "c", Canonical) == [];
  }

  lemma UnfinishedSelected(git: bool, later: (string, string) -> bool)
    ensures Select(FirstPage(0, git, later).view, FirstCursor(0)) == Some(FirstPage(0, git, later).choice)
  {
    var v, c := FirstPage(0, git, later).view, FirstCursor(0);
    assert IsAfter(UNFINISHED, c, later);
    OneWaits(UNFINISHED, c, later);
    hide IsAfter, Waiting, Without, Only;
    OnlyCanonical(v, c, UNFINISHED);
  }

  lemma WaitingSelectedNext(git: bool, later: (string, string) -> bool)
    ensures Select(FirstPage(1, git, later).view, FirstCursor(1)) == Some(FirstPage(1, git, later).choice)
  {
    var v, c := FirstPage(1, git, later).view, FirstCursor(1);
    UnfinishedSettled(c, later);
    assert IsAfter(WAITING, c, later);
    TwoWait(UNFINISHED, WAITING, c, later);
    hide IsAfter, Waiting, Without, Only;
    assert [] + [WAITING] == [WAITING] == [WAITING] + [];
    OnlyCanonical(v, c, WAITING);
  }

  lemma WriterSelected(p: nat, git: bool, later: (string, string) -> bool)
    requires 2 <= p < 4
    ensures Select(FirstPage(p, git, later).view, FirstCursor(p)) == Some(FirstPage(p, git, later).choice)
  {
    var v, c, g := FirstPage(p, git, later).view, FirstCursor(p), Growing(p + 2);
    UnfinishedSettled(c, later);
    Settled(WAITING, WAITING.files[0], c, later);
    assert IsAfter(g, c, later);
    ThreeWait(UNFINISHED, g, WAITING, c, later);
    ThreeWait(UNFINISHED, WAITING, g, c, later);
    if p == 2 {
      MiddleLast(UNFINISHED, WAITING, g);
    } else {
      ThreeRotated(UNFINISHED, WAITING, g, c.last);
    }
    hide IsAfter, Waiting, Without, Only;
    OnlyCanonical(v, c, g);
  }

  function FirstPages(git: bool, later: (string, string) -> bool): (pages: seq<PageOf>)
    ensures |pages| == 4 && forall p :: 0 <= p < 4 ==> pages[p] == FirstPage(p, git, later)
  {
    seq(4, p requires 0 <= p < 4 => FirstPage(p, git, later))
  }

  lemma {:induction false} FirstPagesRun(p: nat, git: bool, later: (string, string) -> bool)
    requires p <= 4
    ensures Pages(FRESH, FirstPages(git, later), p) == FirstCursor(p)
  {
    hide AfterPage, FirstPage;
    if p > 0 {
      FirstPagesRun(p - 1, git, later);
      FirstStep(p - 1, git, later);
    }
  }

  lemma FirstIsScheduled(git: bool, later: (string, string) -> bool)
    ensures Scheduled(FRESH, FirstPages(git, later))
  {
    hide Select, Pages;
    var pages := FirstPages(git, later);
    forall p | 0 <= p < 4
      ensures PageScheduled(Pages(FRESH, pages, p), pages[p])
    {
      FirstPagesRun(p, git, later);
      if p == 0 {
        UnfinishedSelected(git, later);
      } else if p == 1 {
        WaitingSelectedNext(git, later);
      } else {
        WriterSelected(p, git, later);
      }
    }
  }

  /** The failing input without any stalled file: from a fresh cursor on, a run of any length in which b is
    * eligible for Raw service at every turn and gets none, because every Raw slot goes to a session whose only
    * record is not finished. The schedule sees of that session what the code computes. */
  lemma UnfinishedCanStarve(n: nat, git: bool, later: (string, string) -> bool)
    returns (opening: seq<PageOf>, pages: seq<PageOf>)
    ensures |opening| == 4 && Scheduled(FRESH, opening) && Pages(FRESH, opening, 4).active.None?
    ensures |pages| == n && Scheduled(Pages(FRESH, opening, 4), pages)
    ensures var turns := Turns(Pages(FRESH, opening, 4), pages, n);
            && |turns| == n
            && forall k :: 0 <= k < n ==> WaitsAt(turns[k], "b") && Agrees(["a"], turns[k], UNFINISHED_RAWS)
  {
    hide Pages, Scheduled, WaitsAt, Agrees;
    opening, pages := FirstPages(git, later), CyclePages(n, git, later);
    FirstIsScheduled(git, later);
    FirstPagesRun(4, git, later);
    CycleIsScheduled(n, git, later);
    CycleTurns(n, n, git, later);
  }

  // ---------------------------------------------------------------- a file that was cut short

  /** Session a of the starving run: its paused snapshot, and the file as it is now. */
  const REMNANT_RAWS :=
    Raws(map["a" := [Sending.File("a", "g", RECORDS[..4], 4, false, true)]], map["a" := [REMNANT]],
         map["a" := map["a" := Sending.Saved("g", 8, false)]])

  lemma RemnantBlocked()
    ensures Blocked(REMNANT_RAWS, "a") && !NeedsRaw(FilesOf(REMNANT_RAWS, "a"), AcksOf(REMNANT_RAWS, "a"))
  {
    RemnantStays(Sending.Limits(1, 1, 1));
    assert At([REMNANT], AcksOf(REMNANT_RAWS, "a")) == [Sending.Position(8, false)];
  }

  /** Every turn of that run sees of a what the code computes from this state. */
  lemma StarvesBlocked(t: Turn)
    requires Starves(t)
    ensures WaitsAt(t, "b") && Agrees(["a"], t, REMNANT_RAWS) && Blocked(REMNANT_RAWS, "a")
  {
    hide WaitsAt, NeedsRaw, Blocked, HasPending;
    RemnantBlocked();
  }
}
