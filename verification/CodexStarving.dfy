/** Runs of the Codex collector in which an eligible session waits for Raw service without end, and
  * one in which Git recovery goes ahead of it. */
module CodexStarving {
  import opened Base
  import opened CodexSchedule
  import Lines = CodexLines
  import Sending = CodexRaw

  // ---------------------------------------------------------------- small queues

  lemma WithoutCons(s: Session, rest: seq<Session>, id: Option<string>)
    ensures Without([s] + rest, id) == (if Some(s.id) == id then [] else [s]) + Without(rest, id)
    ensures Only([s] + rest, id) == (if Some(s.id) == id then [s] else []) + Only(rest, id)
  {
    assert ([s] + rest)[1..] == rest;
  }

  lemma WaitingCons(s: Session, rest: seq<Session>, c: Cursor, later: (string, string) -> bool)
    ensures Waiting([s] + rest, c, later)
            == (if IsAfter(s, c, later) || HasPending(c, s.id, Canonical) then [s] else []) + Waiting(rest, c, later)
  {
    hide IsAfter;
    assert ([s] + rest)[1..] == rest;
  }

  /** A session whose only file is as its completed snapshot saw it. */
  lemma Settled(s: Session, f: FileMark, c: Cursor, later: (string, string) -> bool)
    requires s.files == [f] && s.id in c.progress && c.progress[s.id] == Progress(s.modifiedMs, [f])
    ensures !IsAfter(s, c, later)
  {
    assert FindMark([f], f.objectId) == Some(f);
  }

  lemma OnlyCanonical(v: View, c: Cursor, x: Session)
    requires CanonicalQueue(v, c) == [x] && c.canonicalTurns < 4
    ensures Select(v, c) == Some(Choice(x, Canonical))
  {
    hide CanonicalQueue, RawChoice;
    WithoutCons(x, [], c.last);
    assert [x] + [] == [x];
  }

  // ---------------------------------------------------------------- the sessions

  function OneFile(id: string, modifiedMs: nat, size: nat): Session {
    Session(id, modifiedMs, [FileMark(id, "g", size)])
  }

  /** What a completed canonical phase of such a session has shown. */
  function Shown(s: Session): Progress {
    Progress(s.modifiedMs, s.files)
  }

  /** Session a before and after its file was cut short. */
  const WHOLE := OneFile("a", 1, 10)
  const CUT := OneFile("a", 2, 4)
  const WAITING := OneFile("b", 3, 4)

  /** Session c, which somebody keeps writing to. */
  function Growing(m: nat): Session {
    OneFile("c", m, m)
  }

  const PAUSED := Active("a", Raw, 0)

  function Sees(ordered: seq<Session>, needsRaw: set<string>, git: bool, later: (string, string) -> bool): View {
    View(ordered, needsRaw, git, true, later)
  }

  // ---------------------------------------------------------------- the cycle

  function LiveView(p: nat, git: bool, later: (string, string) -> bool): View {
    Sees([CUT, WAITING, Growing(6 + p)], {"b", "c"}, git, later)
  }

  /** Four Raw pages of a, then four canonical pages of c, and so on. */
  function LivePage(p: nat, git: bool, later: (string, string) -> bool): PageOf {
    if p % 8 < 4 then PageOf(LiveView(p, git, later), Choice(CUT, Raw), More, Shown(CUT))
    else PageOf(LiveView(p, git, later), Choice(Growing(6 + p), Canonical), Done, Shown(Growing(6 + p)))
  }

  /** The version of c that its last canonical page before page `p` has shown. */
  function Seen(p: nat): nat {
    if p % 8 <= 4 then 5 + p - p % 8 else 5 + p
  }

  function LiveProgress(p: nat): map<string, Progress> {
    map["a" := Shown(CUT), "b" := Shown(WAITING), "c" := Shown(Growing(Seen(p)))]
  }

  /** The cursor before page `p`. */
  function LiveCursor(p: nat): Cursor {
    var r := p % 8;
    if r == 0 then Cursor(None, 4, Some("c"), [PAUSED], LiveProgress(p), 0, "")
    else if r < 4 then Cursor(Some(Active("a", Raw, r)), 4, Some("c"), [], LiveProgress(p), 0, "")
    else if r == 4 then Cursor(None, 0, Some("a"), [PAUSED], LiveProgress(p), 0, "")
    else Cursor(None, r - 4, Some("c"), [PAUSED], LiveProgress(p), 0, "")
  }

  lemma NextPage(p: nat, git: bool, later: (string, string) -> bool)
    ensures var page := LivePage(p, git, later);
            AfterPage(LiveCursor(p), page.choice, page.outcome, page.snapshot) == LiveCursor(p + 1)
  {
    assert [PAUSED][1..] == [] && [PAUSED] + [] == [PAUSED] && [] + [PAUSED] == [PAUSED];
    assert Forget([], "c", Canonical) == [] && Forget([], "a", Raw) == [];
    assert Forget([PAUSED], "c", Canonical) == [PAUSED] && Forget([PAUSED], "a", Raw) == [];
    var r := p % 8;
    assert (p + 1) % 8 == if r == 7 then 0 else r + 1;
    assert r >= 4 ==> LiveProgress(p)["c" := Shown(Growing(6 + p))] == LiveProgress(p + 1);
  }

  lemma LiveOrder(p: nat, git: bool, later: (string, string) -> bool)
    requires LiveCursor(p).active.None?
    ensures var v, c := LiveView(p, git, later), LiveCursor(p);
            && Rotated(v, c) == (if p % 8 == 4 then [WAITING, Growing(6 + p), CUT] else [CUT, WAITING, Growing(6 + p)])
            && CanonicalQueue(v, c) == [Growing(6 + p)] && Eligible(CUT, v, c) && Eligible(WAITING, v, c)
  {
    hide IsAfter, Waiting, Without, Only;
    var v, c, g := LiveView(p, git, later), LiveCursor(p), Growing(6 + p);
    GrowingIsAfter(p, later);
    Settled(CUT, CUT.files[0], c, later);
    Settled(WAITING, WAITING.files[0], c, later);
    ThreeRotated(CUT, WAITING, g, c.last);
    ThreeWait(CUT, WAITING, g, c, later);
    ThreeWait(WAITING, g, CUT, c, later);
    assert c.pending[0] == PAUSED;
  }

  lemma GrowingIsAfter(p: nat, later: (string, string) -> bool)
    ensures IsAfter(Growing(6 + p), LiveCursor(p), later)
  {
  }

  lemma ThreeRotated(x: Session, y: Session, z: Session, last: Option<string>)
    requires Some(y.id) != last && x.id != z.id && (last == Some(x.id) || last == Some(z.id))
    ensures Without([x, y, z], last) + Only([x, y, z], last) == if last == Some(x.id) then [y, z, x] else [x, y, z]
  {
    hide Without, Only;
    OneKept(z, [], last);
    OneKept(y, [z], last);
    OneKept(x, [y, z], last);
    NobodyLeft(last);
    assert [z] + [] == [z] && [y] + [z] == [y, z] && [x] + [y, z] == [x, y, z];
    if last == Some(x.id) {
      assert Without([x, y, z], last) == [y, z] && Only([x, y, z], last) == [x];
      assert [y, z] + [x] == [y, z, x];
    } else {
      assert Without([x, y, z], last) == [x, y] && Only([x, y, z], last) == [z];
      assert [x, y] + [z] == [x, y, z];
    }
  }

  lemma OneKept(s: Session, rest: seq<Session>, last: Option<string>)
    ensures last == Some(s.id) ==> Without([s] + rest, last) == Without(rest, last)
    ensures last == Some(s.id) ==> Only([s] + rest, last) == [s] + Only(rest, last)
    ensures last != Some(s.id) ==> Without([s] + rest, last) == [s] + Without(rest, last)
    ensures last != Some(s.id) ==> Only([s] + rest, last) == Only(rest, last)
  {
    WithoutCons(s, rest, last);
    assert [] + Without(rest, last) == Without(rest, last) && [] + Only(rest, last) == Only(rest, last);
  }

  lemma NobodyLeft(last: Option<string>)
    ensures Without([], last) == [] && Only([], last) == []
  {
  }

  lemma ThreeWait(x: Session, y: Session, z: Session, c: Cursor, later: (string, string) -> bool)
    requires forall k :: 0 <= k < |c.pending| ==> c.pending[k].phase.Raw?
    ensures Waiting([x, y, z], c, later)
            == (if IsAfter(x, c, later) then [x] else []) + (if IsAfter(y, c, later) then [y] else [])
               + if IsAfter(z, c, later) then [z] else []
  {
    hide IsAfter;
    assert [x] + ([y] + ([z] + [])) == [x, y, z];
    WaitingCons(z, [], c, later);
    WaitingCons(y, [z] + [], c, later);
    WaitingCons(x, [y] + ([z] + []), c, later);
  }

  /** Raw goes to a at every slot; all other turns are c's. */
  lemma LiveSelect(p: nat, git: bool, later: (string, string) -> bool)
    requires LiveCursor(p).active.None?
    ensures Select(LiveView(p, git, later), LiveCursor(p)) == Some(LivePage(p, git, later).choice)
  {
    var v, c, g := LiveView(p, git, later), LiveCursor(p), Growing(6 + p);
    LiveOrder(p, git, later);
    hide CanonicalQueue, Rotated, Eligible, RawChoice;
    if p % 8 == 0 {
      FirstEligible(Rotated(v, c), v, c);
    } else {
      OnlyCanonical(v, c, g);
    }
  }

  lemma FirstEligible(sessions: seq<Session>, v: View, c: Cursor)
    requires sessions != [] && Eligible(sessions[0], v, c)
    ensures RawChoice(sessions, v, c, true) == Some(Choice(sessions[0], Raw))
  {
  }

  // ---------------------------------------------------------------- pages and turns of the cycle

  function LivePages(n: nat, git: bool, later: (string, string) -> bool): (pages: seq<PageOf>)
    ensures |pages| == n && forall p :: 0 <= p < n ==> pages[p] == LivePage(p, git, later)
  {
    seq(n, p requires 0 <= p < n => LivePage(p, git, later))
  }

  lemma {:induction false} PagesAreLive(n: nat, p: nat, git: bool, later: (string, string) -> bool)
    requires p <= n
    ensures Pages(LiveCursor(0), LivePages(n, git, later), p) == LiveCursor(p)
  {
    hide AfterPage, LivePage, LiveCursor;
    if p > 0 {
      PagesAreLive(n, p - 1, git, later);
      NextPage(p - 1, git, later);
    }
  }

  lemma LiveIsScheduled(n: nat, git: bool, later: (string, string) -> bool)
    ensures Scheduled(LiveCursor(0), LivePages(n, git, later))
  {
    hide Select, Pages;
    var pages := LivePages(n, git, later);
    forall p | 0 <= p < n
      ensures PageScheduled(Pages(LiveCursor(0), pages, p), pages[p])
    {
      PagesAreLive(n, p, git, later);
      if LiveCursor(p).active.None? {
        LiveSelect(p, git, later);
      }
    }
  }

  /** Page `p` belongs to a turn that began at the last page without an open turn. */
  lemma {:induction false} LiveStart(n: nat, p: nat, git: bool, later: (string, string) -> bool)
    requires p <= n
    ensures TurnStart(LiveCursor(0), LivePages(n, git, later), p) == if 0 < p % 8 < 4 then p - p % 8 else p
  {
    hide Pages, LivePage;
    PagesAreLive(n, p, git, later);
    if 0 < p % 8 < 4 {
      LiveStart(n, p - 1, git, later);
    }
  }

  /** How many turns the first `p` pages complete. */
  function TurnCount(p: nat): nat {
    5 * (p / 8) + if p % 8 <= 3 then 0 else p % 8 - 3
  }

  /** A turn at which the session is eligible for Raw service and gets none. */
  ghost predicate WaitsAt(t: Turn, id: string) {
    t.served && RawWaits(t, id) && !RawServedAt(t, id)
  }

  /** b waits, and a asks for Raw work because its snapshot is paused. */
  ghost predicate Starves(t: Turn) {
    WaitsAt(t, "b") && HasPending(t.cursor, "a", Raw) && "a" !in t.view.needsRaw
  }

  lemma LiveTurnStarves(p: nat, git: bool, later: (string, string) -> bool)
    requires LiveCursor(p).active.None?
    ensures Starves(Turn(LiveView(p, git, later), LiveCursor(p), true))
  {
    LiveSelect(p, git, later);
    LiveOrder(p, git, later);
    hide Select, Rotated, CanonicalQueue, Eligible;
    assert EligibleAt(Turn(LiveView(p, git, later), LiveCursor(p), true), "b", if p % 8 == 4 then 0 else 1);
    assert LiveCursor(p).pending[0] == PAUSED;
  }

  lemma TurnCounts(p: nat)
    requires p > 0
    ensures TurnCount(p) == TurnCount(p - 1) + if 0 < p % 8 < 4 then 0 else 1
  {
    if p % 8 == 0 {
      assert (p - 1) % 8 == 7;
    } else {
      assert (p - 1) % 8 == p % 8 - 1;
    }
  }

  lemma TurnOpen(p: nat)
    ensures LiveCursor(p).active.Some? <==> 0 < p % 8 < 4
  {
  }

  lemma {:induction false} LiveTurns(n: nat, p: nat, git: bool, later: (string, string) -> bool)
    requires p <= n
    ensures var turns := Turns(LiveCursor(0), LivePages(n, git, later), p);
            |turns| == TurnCount(p) && forall k :: 0 <= k < |turns| ==> Starves(turns[k])
  {
    hide Pages, Starves, LiveCursor, LiveView, TurnStart, TurnCount;
    if p > 0 {
      LiveTurns(n, p - 1, git, later);
      PagesAreLive(n, p, git, later);
      LiveStart(n, p - 1, git, later);
      TurnCounts(p);
      TurnOpen(p);
      var start := TurnStart(LiveCursor(0), LivePages(n, git, later), p - 1);
      TurnOpen(start);
      if LiveCursor(p).active.None? {
        PagesAreLive(n, start, git, later);
        LiveTurnStarves(start, git, later);
      }
    } else {
      NoTurnsYet();
    }
  }

  lemma NoTurnsYet()
    ensures TurnCount(0) == 0
  {
  }

  // ---------------------------------------------------------------- how it begins

  const FRESH := Cursor(None, 0, None, [], map[], 0, "")

  /** a is shown and starts its Raw work; its file is cut short; b and c appear. */
  function OpeningPage(p: nat, git: bool, later: (string, string) -> bool): PageOf
    requires p < 9
  {
    if p == 0 then PageOf(Sees([WHOLE], {"a"}, git, later), Choice(WHOLE, Canonical), Done, Shown(WHOLE))
    else if p < 5 then PageOf(Sees([WHOLE], {"a"}, git, later), Choice(WHOLE, Raw), More, Shown(WHOLE))
    else if p == 5 then PageOf(Sees([CUT], {}, git, later), Choice(CUT, Canonical), Done, Shown(CUT))
    else if p == 6 then
      PageOf(Sees([CUT, WAITING], {"b"}, git, later), Choice(WAITING, Canonical), Done, Shown(WAITING))
    else
      var c := Growing(p - 3);
      PageOf(Sees([CUT, WAITING, c], {"b", "c"}, git, later), Choice(c, Canonical), Done, Shown(c))
  }

  function OpeningCursor(p: nat): Cursor
    requires p <= 9
  {
    var a, cut := map["a" := Shown(WHOLE)], map["a" := Shown(CUT)];
    if p == 0 then FRESH
    else if p == 1 then Cursor(None, 1, Some("a"), [], a, 0, "")
    else if p < 5 then Cursor(Some(Active("a", Raw, p - 1)), 1, Some("a"), [], a, 0, "")
    else if p == 5 then Cursor(None, 0, Some("a"), [PAUSED], a, 0, "")
    else if p == 6 then Cursor(None, 1, Some("a"), [PAUSED], cut, 0, "")
    else if p == 7 then Cursor(None, 2, Some("b"), [PAUSED], cut["b" := Shown(WAITING)], 0, "")
    else if p == 8 then
      Cursor(None, 3, Some("c"), [PAUSED], cut["b" := Shown(WAITING)]["c" := Shown(Growing(4))], 0, "")
    else LiveCursor(0)
  }

  lemma OpeningStep(p: nat, git: bool, later: (string, string) -> bool)
    requires p < 9
    ensures var page := OpeningPage(p, git, later);
            AfterPage(OpeningCursor(p), page.choice, page.outcome, page.snapshot) == OpeningCursor(p + 1)
  {
    assert [PAUSED][1..] == [] && [PAUSED] + [] == [PAUSED] && [] + [PAUSED] == [PAUSED];
    assert Forget([], "a", Canonical) == [] && Forget([], "a", Raw) == [];
    assert Forget([PAUSED], "a", Canonical) == Forget([PAUSED], "b", Canonical) == [PAUSED];
    assert Forget([PAUSED], "c", Canonical) == [PAUSED];
  }

  /** A queue of one session. */
  lemma OneWaits(x: Session, c: Cursor, later: (string, string) -> bool)
    requires forall k :: 0 <= k < |c.pending| ==> c.pending[k].phase.Raw?
    ensures Without([x], c.last) + Only([x], c.last) == [x]
    ensures Waiting([x], c, later) == if IsAfter(x, c, later) then [x] else []
  {
    hide IsAfter;
    WithoutCons(x, [], c.last);
    WaitingCons(x, [], c, later);
    assert [x] + [] == [x];
  }

  lemma WholeSelected(p: nat, git: bool, later: (string, string) -> bool)
    requires p <= 1 || p == 5
    ensures Select(OpeningPage(p, git, later).view, OpeningCursor(p)) == Some(OpeningPage(p, git, later).choice)
  {
    var v, c := OpeningPage(p, git, later).view, OpeningCursor(p);
    var x := v.ordered[0];
    OneWaits(x, c, later);
    if p == 1 {
      Settled(WHOLE, WHOLE.files[0], c, later);
      assert Eligible(WHOLE, v, c);
    } else {
      assert IsAfter(x, c, later);
      OnlyCanonical(v, c, x);
    }
  }

  lemma WaitingSelected(git: bool, later: (string, string) -> bool)
    ensures Select(OpeningPage(6, git, later).view, OpeningCursor(6)) == Some(OpeningPage(6, git, later).choice)
  {
    var v, c := OpeningPage(6, git, later).view, OpeningCursor(6);
    Settled(CUT, CUT.files[0], c, later);
    assert IsAfter(WAITING, c, later);
    TwoWait(CUT, WAITING, c, later);
    hide IsAfter, Waiting, Without, Only;
    assert [] + [WAITING] == [WAITING] == [WAITING] + [];
    OnlyCanonical(v, c, WAITING);
  }

  /** A queue of two, the older one served last. */
  lemma TwoWait(x: Session, y: Session, c: Cursor, later: (string, string) -> bool)
    requires c.last == Some(x.id) && y.id != x.id && forall k :: 0 <= k < |c.pending| ==> c.pending[k].phase.Raw?
    ensures Without([x, y], c.last) + Only([x, y], c.last) == [y, x]
    ensures Waiting([y, x], c, later)
            == (if IsAfter(y, c, later) then [y] else []) + if IsAfter(x, c, later) then [x] else []
  {
    hide IsAfter;
    assert [x] + ([y] + []) == [x, y] && [y] + ([x] + []) == [y, x];
    WithoutCons(y, [], c.last);
    WithoutCons(x, [y] + [], c.last);
    WaitingCons(x, [], c, later);
    WaitingCons(y, [x] + [], c, later);
  }

  lemma GrowingSelected(p: nat, git: bool, later: (string, string) -> bool)
    requires 7 <= p <= 8
    ensures Select(OpeningPage(p, git, later).view, OpeningCursor(p)) == Some(OpeningPage(p, git, later).choice)
  {
    var v, c, g := OpeningPage(p, git, later).view, OpeningCursor(p), Growing(p - 3);
    Settled(CUT, CUT.files[0], c, later);
    Settled(WAITING, WAITING.files[0], c, later);
    assert IsAfter(g, c, later);
    ThreeWait(CUT, g, WAITING, c, later);
    ThreeWait(CUT, WAITING, g, c, later);
    if p == 7 {
      MiddleLast(CUT, WAITING, g);
    } else {
      ThreeRotated(CUT, WAITING, g, c.last);
    }
    hide IsAfter, Waiting, Without, Only;
    OnlyCanonical(v, c, g);
  }

  lemma MiddleLast(x: Session, y: Session, z: Session)
    requires x.id != y.id && z.id != y.id
    ensures Without([x, y, z], Some(y.id)) + Only([x, y, z], Some(y.id)) == [x, z, y]
  {
    assert [x] + ([y] + ([z] + [])) == [x, y, z];
    WithoutCons(z, [], Some(y.id));
    WithoutCons(y, [z] + [], Some(y.id));
    WithoutCons(x, [y] + ([z] + []), Some(y.id));
  }

  function Opening(git: bool, later: (string, string) -> bool): (pages: seq<PageOf>)
    ensures |pages| == 9 && forall p :: 0 <= p < 9 ==> pages[p] == OpeningPage(p, git, later)
  {
    seq(9, p requires 0 <= p < 9 => OpeningPage(p, git, later))
  }

  lemma {:induction false} PagesOpen(p: nat, git: bool, later: (string, string) -> bool)
    requires p <= 9
    ensures Pages(FRESH, Opening(git, later), p) == OpeningCursor(p)
  {
    hide AfterPage, OpeningPage, OpeningCursor;
    if p > 0 {
      PagesOpen(p - 1, git, later);
      OpeningStep(p - 1, git, later);
    } else {
      OpensFresh();
    }
  }

  lemma OpensFresh()
    ensures OpeningCursor(0) == FRESH
  {
  }

  lemma OpeningIsScheduled(git: bool, later: (string, string) -> bool)
    ensures Scheduled(FRESH, Opening(git, later))
  {
    hide Select, Pages;
    var pages := Opening(git, later);
    forall p | 0 <= p < 9
      ensures PageScheduled(Pages(FRESH, pages, p), pages[p])
    {
      PagesOpen(p, git, later);
      if p <= 1 || p == 5 {
        WholeSelected(p, git, later);
      } else if p == 6 {
        WaitingSelected(git, later);
      } else if p >= 7 {
        GrowingSelected(p, git, later);
      }
    }
  }

  // ---------------------------------------------------------------- why the Raw pages of a never complete

  const RECORDS: seq<Lines.byte> := [120, Lines.Newline, 120, Lines.Newline, 120, Lines.Newline, 120,
                                     Lines.Newline, 120, Lines.Newline]

  /** The snapshot of the first Raw page, and what is left of its file later on. */
  const SNAPSHOT := Sending.File("a", "g", RECORDS, 10, false, true)
  const REMNANT := Sending.File("a", "g", RECORDS[..4], 10, false, true)

  /** One page of one record. */
  lemma RecordSent(n: nat)
    requires n < 4
    ensures var at := Sending.Position(2 * n, false);
            Sending.Collect([SNAPSHOT], [at], 1, Sending.Limits(1, 2, 2))
            == Ok(Sending.Page([[Sending.Segment("a", 2 * n, RECORDS[2 * n..2 * n + 2], false)]],
                               [Sending.Position(2 * n + 2, false)]))
  {
    var at, lim := Sending.Position(2 * n, false), Sending.Limits(1, 2, 2);
    var next := Sending.Position(2 * n + 2, false);
    assert Sending.Collect([SNAPSHOT], [at], 0, lim) == Ok(Sending.Page([], []));
    assert Sending.Chunk(SNAPSHOT, 2 * n, 2, false) == Ok(Some(2 * n + 2));
    assert Sending.Cut(SNAPSHOT, next, 1, 2, lim) == Ok(([], next));
    var segment := Sending.Segment("a", 2 * n, RECORDS[2 * n..2 * n + 2], false);
    assert Sending.SegmentTo(SNAPSHOT, 2 * n, 2 * n + 2) == segment;
    assert [segment] + [] == [segment];
    assert Sending.Visit(SNAPSHOT, at, 0, 0, lim) == Ok(([segment], next));
    assert [] + [[segment]] == [[segment]] && [] + [next] == [next];
  }

  /** The four Raw pages of the opening send a record each and leave one. */
  lemma {:induction false} RecordsSent(lims: seq<Sending.Limits>, n: nat)
    requires n <= |lims| == 4 && forall k :: 0 <= k < 4 ==> lims[k] == Sending.Limits(1, 2, 2)
    ensures var run := Sending.Run([SNAPSHOT], [Sending.Position(0, false)], lims, n);
            && run.Ok? && run.value.positions == [Sending.Position(2 * n, false)]
            && !Sending.Complete([SNAPSHOT], run.value.positions)
  {
    hide Sending.Collect, Sending.Complete;
    RecordsLeft(n);
    if n > 0 {
      RecordsSent(lims, n - 1);
      RecordSent(n - 1);
    }
  }

  lemma RecordsLeft(n: nat)
    requires n <= 4
    ensures !Sending.Complete([SNAPSHOT], [Sending.Position(2 * n, false)])
  {
    var files, at := [SNAPSHOT], [Sending.Position(2 * n, false)];
    assert !Sending.Covered(files[0], at[0]);
  }

  /** Once the file is shorter than what was acknowledged, no Raw page sends anything or completes,
    * whatever its limits: the paused snapshot stays for good. */
  lemma RemnantStays(lim: Sending.Limits)
    ensures var at := Sending.Position(8, false);
            && Sending.Collect([REMNANT], [at], 1, lim) == Ok(Sending.Page([[]], [at]))
            && !Sending.Complete([REMNANT], [at])
  {
    var at := Sending.Position(8, false);
    assert Sending.Collect([REMNANT], [at], 0, lim) == Ok(Sending.Page([], []));
    var nothing: seq<Sending.Segment> := [];
    Sending.StalledVisit(REMNANT, at, 0, 0, lim);
    assert [] + [nothing] == [nothing] && [] + [at] == [at];
    assert !Sending.Covered(REMNANT, at);
  }

  /** The failing input: from a fresh cursor on, whatever the order of ids and with or without Git
    * recovery, a run of any length in which b is eligible for Raw service at every turn and gets none. */
  lemma SessionCanStarve(n: nat, git: bool, later: (string, string) -> bool)
    returns (opening: seq<PageOf>, pages: seq<PageOf>)
    ensures |opening| == 9 && Scheduled(FRESH, opening) && Pages(FRESH, opening, 9).active.None?
    ensures |pages| == 8 * n && Scheduled(Pages(FRESH, opening, 9), pages)
    ensures var turns := Turns(Pages(FRESH, opening, 9), pages, 8 * n);
            |turns| == 5 * n && forall k :: 0 <= k < |turns| ==> Starves(turns[k])
  {
    hide Pages, Scheduled, Starves;
    opening, pages := Opening(git, later), LivePages(8 * n, git, later);
    OpeningIsScheduled(git, later);
    PagesOpen(9, git, later);
    LiveIsScheduled(8 * n, git, later);
    LiveTurns(8 * n, 8 * n, git, later);
  }

  // ---------------------------------------------------------------- Git recovery

  /** A session from before the baseline, without a completed snapshot. */
  const EARLIER := OneFile("a", 0, 4)
  const LATER := OneFile("b", 2, 4)

  function RecoveryView(later: (string, string) -> bool): View {
    Sees([EARLIER, LATER], {"a", "b"}, true, later)
  }

  function RecoveryCursor(turns: nat): Cursor {
    Cursor(None, turns, None, [], map[], 1, "")
  }

  function RecoveredCursor(turns: nat): Cursor {
    Cursor(None, turns + 1, Some("b"), [], map["b" := Shown(LATER)], 1, "")
  }

  lemma LaterSelected(turns: nat, later: (string, string) -> bool)
    ensures Select(RecoveryView(later), RecoveryCursor(turns)) == Some(Choice(LATER, Canonical))
  {
    var v, c := RecoveryView(later), RecoveryCursor(turns);
    TwoInOrder(EARLIER, LATER, c, later);
    assert IsAfter(LATER, c, later) && !IsAfter(EARLIER, c, later);
    hide IsAfter, Waiting, Without, Only;
    assert CanonicalQueue(v, c) == [LATER];
    NobodyEligible(Rotated(v, c), v, c);
  }

  /** A queue of two, the older one not served last. */
  lemma TwoInOrder(x: Session, y: Session, c: Cursor, later: (string, string) -> bool)
    requires c.pending == [] && x.id != y.id && c.last != Some(x.id)
    ensures Without([x, y], c.last) + Only([x, y], c.last) == [x, y]
    ensures Waiting([x, y], c, later)
            == (if IsAfter(x, c, later) then [x] else []) + if IsAfter(y, c, later) then [y] else []
  {
    hide IsAfter;
    assert [x] + ([y] + []) == [x, y];
    WithoutCons(y, [], c.last);
    WithoutCons(x, [y] + [], c.last);
    WaitingCons(y, [], c, later);
    WaitingCons(x, [y] + [], c, later);
  }

  lemma {:induction false} NobodyEligible(sessions: seq<Session>, v: View, c: Cursor)
    requires c.progress == map[]
    ensures RawChoice(sessions, v, c, true) == None
  {
    if sessions != [] {
      NobodyEligible(sessions[1..], v, c);
    }
  }

  lemma EarlierSelected(turns: nat, later: (string, string) -> bool)
    ensures var v, c := RecoveryView(later), RecoveredCursor(turns);
            Select(v, c) == Some(Choice(EARLIER, Canonical)) && RawWaits(Turn(v, c, true), "b")
  {
    var v, c := RecoveryView(later), RecoveredCursor(turns);
    TwoInOrder(EARLIER, LATER, c, later);
    Settled(LATER, LATER.files[0], c, later);
    assert !IsAfter(EARLIER, c, later);
    hide IsAfter, Waiting, Without, Only;
    assert CanonicalQueue(v, c) == [] && Rotated(v, c) == [EARLIER, LATER];
    assert EligibleAt(Turn(v, c, true), "b", 1);
  }

  /** With Git recovery and no canonical work waiting, an older session without a completed snapshot
    * goes first, whatever the number of canonical turns so far: b has shown its events and is eligible,
    * and the next turn is a canonical one of a. */
  lemma RecoveryGoesFirst(turns: nat, later: (string, string) -> bool) returns (pages: seq<PageOf>)
    ensures |pages| == 2 && Scheduled(RecoveryCursor(turns), pages)
    ensures var made := Turns(RecoveryCursor(turns), pages, 2);
            && |made| == 2 && RawWaits(made[1], "b")
            && Select(made[1].view, made[1].cursor) == Some(Choice(EARLIER, Canonical))
  {
    hide Select, RawWaits;
    var v, c := RecoveryView(later), RecoveryCursor(turns);
    pages := [PageOf(v, Choice(LATER, Canonical), Done, Shown(LATER)),
              PageOf(v, Choice(EARLIER, Canonical), Done, Shown(EARLIER))];
    LaterSelected(turns, later);
    EarlierSelected(turns, later);
    assert Pages(c, pages, 0) == c;
    assert Forget([], "b", Canonical) == [];
    assert map[]["b" := Shown(LATER)] == map["b" := Shown(LATER)];
    assert Pages(c, pages, 1) == RecoveredCursor(turns);
    assert Turns(c, pages, 0) == [];
    assert Turns(c, pages, 1) == [Turn(v, c, true)];
    assert Turns(c, pages, 2) == [Turn(v, c, true), Turn(v, RecoveredCursor(turns), true)];
  }
}
