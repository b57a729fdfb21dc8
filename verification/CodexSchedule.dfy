/** The Codex scheduler: which session gets the next turn, and how long a turn lasts. */
module CodexSchedule {
  import opened Base

  datatype Phase = Canonical | Raw

  datatype FileMark = FileMark(objectId: string, generation: string, size: nat)

  datatype Session = Session(id: string, modifiedMs: nat, files: seq<FileMark>)

  /** A completed canonical snapshot of a session. */
  datatype Progress = Progress(modifiedMs: nat, files: seq<FileMark>)

  datatype Active = Active(sessionId: string, phase: Phase, quantum: nat)

  datatype Cursor = Cursor(active: Option<Active>, canonicalTurns: nat, last: Option<string>, pending: seq<Active>,
                           progress: map<string, Progress>, baselineMs: nat, baselineId: string)

  /** What one selection sees: the sessions oldest first, and which of them Raw work waits for. */
  datatype View = View(ordered: seq<Session>, needsRaw: set<string>, recoverGit: bool, rawEnabled: bool,
                       later: (string, string) -> bool)

  datatype Choice = Choice(session: Session, phase: Phase)

  const Quantum := 4

  // ---------------------------------------------------------------- what is pending

  function SourceKey(files: seq<FileMark>): multiset<(string, string)> {
    if files == [] then multiset{} else multiset{(files[0].objectId, files[0].generation)} + SourceKey(files[1..])
  }

  function FindMark(files: seq<FileMark>, objectId: string): Option<FileMark> {
    if files == [] then None
    else if files[0].objectId == objectId then Some(files[0]) else FindMark(files[1..], objectId)
  }

  predicate Shrunk(before: seq<FileMark>, now: seq<FileMark>) {
    exists k ::
      0 <= k < |now| && FindMark(before, now[k].objectId).Some?
      && FindMark(before, now[k].objectId).value.size > now[k].size
  }

  /** `isAfterWatermark`: the session changed since its last completed canonical snapshot. */
  predicate IsAfter(s: Session, c: Cursor, later: (string, string) -> bool) {
    if s.id in c.progress then
      var p := c.progress[s.id];
      s.modifiedMs > p.modifiedMs || SourceKey(p.files) != SourceKey(s.files) || Shrunk(p.files, s.files)
    else s.modifiedMs > c.baselineMs || (s.modifiedMs == c.baselineMs && later(s.id, c.baselineId))
  }

  predicate HasPending(c: Cursor, id: string, phase: Phase) {
    exists k :: 0 <= k < |c.pending| && c.pending[k].sessionId == id && c.pending[k].phase == phase
  }

  function Without(sessions: seq<Session>, id: Option<string>): seq<Session> {
    if sessions == [] then []
    else (if Some(sessions[0].id) == id then [] else [sessions[0]]) + Without(sessions[1..], id)
  }

  function Only(sessions: seq<Session>, id: Option<string>): seq<Session> {
    if sessions == [] then [] else (if Some(sessions[0].id) == id then [sessions[0]] else []) + Only(sessions[1..], id)
  }

  /** The queue: oldest first, the session served last behind all others. */
  function Rotated(v: View, c: Cursor): seq<Session> {
    Without(v.ordered, c.last) + Only(v.ordered, c.last)
  }

  function Waiting(sessions: seq<Session>, c: Cursor, later: (string, string) -> bool): seq<Session> {
    if sessions == [] then []
    else (if IsAfter(sessions[0], c, later) || HasPending(c, sessions[0].id, Canonical) then [sessions[0]] else [])
         + Waiting(sessions[1..], c, later)
  }

  /** The rotated queue of canonical work. */
  function CanonicalQueue(v: View, c: Cursor): seq<Session> {
    Waiting(Rotated(v, c), c, v.later)
  }

  // ---------------------------------------------------------------- selection

  /** The newest changed session other than the one served last. */
  function Recent(queue: seq<Session>, last: Option<string>): Option<Session> {
    if last.None? then None
    else
      var others := Without(queue, last);
      if others == [] then None else Some(others[|others| - 1])
  }

  predicate WantsRaw(s: Session, v: View, c: Cursor) {
    HasPending(c, s.id, Raw) || s.id in v.needsRaw
  }

  /** Raw service is for sessions whose completed snapshot is current. */
  predicate Eligible(s: Session, v: View, c: Cursor) {
    WantsRaw(s, v, c) && s.id in c.progress && !IsAfter(s, c, v.later)
  }

  function RawChoice(sessions: seq<Session>, v: View, c: Cursor, canonicalWaits: bool): Option<Choice> {
    if sessions == [] then None
    else
      var s := sessions[0];
      if Eligible(s, v, c) then Some(Choice(s, Raw))
      else if WantsRaw(s, v, c) && !canonicalWaits && v.recoverGit && s.id !in c.progress then
        Some(Choice(s, Canonical))
      else if WantsRaw(s, v, c) && !canonicalWaits && !v.recoverGit then Some(Choice(s, Raw))
      else RawChoice(sessions[1..], v, c, canonicalWaits)
  }

  /** `selectSession`. */
  function Select(v: View, c: Cursor): Option<Choice> {
    var queue := CanonicalQueue(v, c);
    var recent := Recent(queue, c.last);
    var changed := if queue == [] then None
                   else if c.canonicalTurns % 4 == 3 || recent.None? then Some(queue[0]) else recent;
    if changed.Some? && c.canonicalTurns < 4 then Some(Choice(changed.value, Canonical))
    else
      var raw := RawChoice(if v.rawEnabled then Rotated(v, c) else [], v, c, changed.Some?);
      if raw.Some? then raw else if changed.Some? then Some(Choice(changed.value, Canonical)) else None
  }

  // ---------------------------------------------------------------- turns

  /** The counters after a turn that completed or paused; a dropped turn leaves them alone. */
  function AfterTurn(c: Cursor, choice: Choice): Cursor {
    c.(canonicalTurns := if choice.phase.Canonical? then c.canonicalTurns + 1 else 0, last := Some(choice.session.id))
  }

  /** The session head of the queue gets this canonical turn. */
  predicate ServesHead(v: View, c: Cursor) {
    var queue := CanonicalQueue(v, c);
    queue != [] && Select(v, c) == Some(Choice(queue[0], Canonical))
  }

  predicate ServesRaw(v: View, c: Cursor) {
    Select(v, c).Some? && Select(v, c).value.phase.Raw?
  }

  /** How many more served turns can pass before the head is served. */
  function HeadWait(turns: nat): nat {
    if turns < 4 then 3 - turns else 7 - turns % 4
  }

  lemma TurnApproachesHead(v: View, c: Cursor)
    requires CanonicalQueue(v, c) != []
    ensures Select(v, c).Some?
    ensures ServesHead(v, c) || HeadWait(AfterTurn(c, Select(v, c).value).canonicalTurns) < HeadWait(c.canonicalTurns)
  {
    hide CanonicalQueue;
    var queue := CanonicalQueue(v, c);
    WaitingRaw(if v.rawEnabled then Rotated(v, c) else [], v, c);
    if c.canonicalTurns % 4 == 3 {
      assert Select(v, c) == Some(Choice(queue[0], Canonical)) || ServesRaw(v, c);
    }
  }

  /** While canonical work waits, the Raw loop only gives Raw turns. */
  lemma {:induction false} WaitingRaw(sessions: seq<Session>, v: View, c: Cursor)
    ensures RawChoice(sessions, v, c, true).Some? ==> RawChoice(sessions, v, c, true).value.phase.Raw?
    ensures (exists k :: 0 <= k < |sessions| && Eligible(sessions[k], v, c)) ==> RawChoice(sessions, v, c, true).Some?
  {
    hide Eligible;
    if sessions != [] {
      WaitingRaw(sessions[1..], v, c);
      if exists k :: 0 <= k < |sessions| && Eligible(sessions[k], v, c) {
        var k :| 0 <= k < |sessions| && Eligible(sessions[k], v, c);
        assert k > 0 ==> sessions[1..][k - 1] == sessions[k];
      }
    }
  }

  /** One turn of a run: what was seen, what else changed in the cursor, and whether the turn
    * completed or paused (`served`) or was dropped. */
  datatype Turn = Turn(view: View, cursor: Cursor, served: bool)

  /** The counters move as `AfterTurn` says, everything else may change. */
  predicate Leads(now: Turn, next: Cursor) {
    if now.served && Select(now.view, now.cursor).Some? then
      SameCounters(AfterTurn(now.cursor, Select(now.view, now.cursor).value), next)
    else SameCounters(now.cursor, next)
  }

  predicate SameCounters(a: Cursor, b: Cursor) {
    a.canonicalTurns == b.canonicalTurns && a.last == b.last
  }

  /** Turns follow each other. */
  ghost predicate Linked(turns: seq<Turn>, k: nat)
    requires k + 1 < |turns|
  {
    Leads(turns[k], turns[k + 1].cursor)
  }

  ghost predicate IsRun(turns: seq<Turn>) {
    forall k: nat {:trigger Linked(turns, k)} :: k + 1 < |turns| ==> Linked(turns, k)
  }

  function Served(turns: seq<Turn>, from: nat): nat
    decreases |turns| - from
  {
    if from >= |turns| then 0 else (if turns[from].served then 1 else 0) + Served(turns, from + 1)
  }

  ghost predicate CanonicalWaits(turns: seq<Turn>) {
    forall k :: 0 <= k < |turns| ==> CanonicalQueue(turns[k].view, turns[k].cursor) != []
  }

  predicate HeadServedAt(t: Turn) {
    t.served && ServesHead(t.view, t.cursor)
  }

  lemma {:induction false} HeadComes(turns: seq<Turn>, from: nat)
    requires IsRun(turns) && CanonicalWaits(turns) && from < |turns|
    requires Served(turns, from) > HeadWait(turns[from].cursor.canonicalTurns)
    ensures exists k :: from <= k < |turns| && HeadServedAt(turns[k])
    decreases |turns| - from
  {
    hide CanonicalQueue, Select, ServesHead;
    var t := turns[from];
    assert CanonicalQueue(t.view, t.cursor) != [];
    TurnApproachesHead(t.view, t.cursor);
    if !HeadServedAt(t) {
      assert Served(turns, from + 1) > 0;
      assert from + 1 < |turns|;
      assert Linked(turns, from);
      HeadComes(turns, from + 1);
    }
  }

  /** Main result. While canonical work is pending, any eight turns that complete or pause serve
    * the head of the queue at least once. */
  lemma {:induction false} HeadWithinEight(turns: seq<Turn>)
    requires IsRun(turns) && CanonicalWaits(turns) && Served(turns, 0) >= 8
    ensures exists k :: 0 <= k < |turns| && HeadServedAt(turns[k])
  {
    HeadComes(turns, 0);
  }

  // ---------------------------------------------------------------- who gets a Raw slot

  /** Raw work is looked at: no canonical work waits, or four canonical turns have gone by. */
  predicate RawSlot(v: View, c: Cursor) {
    CanonicalQueue(v, c) == [] || c.canonicalTurns >= 4
  }

  predicate TakesRaw(s: Session, v: View, c: Cursor) {
    Eligible(s, v, c) || (CanonicalQueue(v, c) == [] && WantsRaw(s, v, c) && !v.recoverGit)
  }

  /** Git recovery takes a session without a completed snapshot through its canonical phase first. */
  predicate Recovers(s: Session, v: View, c: Cursor) {
    CanonicalQueue(v, c) == [] && WantsRaw(s, v, c) && v.recoverGit && s.id !in c.progress
  }

  predicate Takes(s: Session, v: View, c: Cursor) {
    TakesRaw(s, v, c) || Recovers(s, v, c)
  }

  /** The first session that takes the slot. */
  ghost predicate FirstTaker(sessions: seq<Session>, v: View, c: Cursor, p: nat) {
    p < |sessions| && Takes(sessions[p], v, c) && forall q :: 0 <= q < p ==> !Takes(sessions[q], v, c)
  }

  lemma {:induction false} RawChoiceIsFirst(sessions: seq<Session>, v: View, c: Cursor) returns (p: nat)
    ensures var choice := RawChoice(sessions, v, c, CanonicalQueue(v, c) != []);
            if choice.Some? then
              FirstTaker(sessions, v, c, p)
              && choice.value == Choice(sessions[p], if TakesRaw(sessions[p], v, c) then Raw else Canonical)
            else forall q :: 0 <= q < |sessions| ==> !Takes(sessions[q], v, c)
  {
    hide CanonicalQueue, WantsRaw, IsAfter;
    p := 0;
    if sessions != [] && !Takes(sessions[0], v, c) {
      var q := RawChoiceIsFirst(sessions[1..], v, c);
      p := q + 1;
      assert sessions == [sessions[0]] + sessions[1..];
    }
  }

  /** What the selection does with the slot. */
  lemma SlotGoesToFirst(v: View, c: Cursor) returns (p: nat)
    requires v.rawEnabled && RawSlot(v, c)
    ensures FirstTaker(Rotated(v, c), v, c, p) ==>
              Select(v, c)
              == Some(Choice(Rotated(v, c)[p], if TakesRaw(Rotated(v, c)[p], v, c) then Raw else Canonical))
    ensures !FirstTaker(Rotated(v, c), v, c, p) ==>
              !ServesRaw(v, c) && forall q :: 0 <= q < |Rotated(v, c)| ==> !Takes(Rotated(v, c)[q], v, c)
  {
    hide CanonicalQueue, Takes, TakesRaw, Rotated;
    p := RawChoiceIsFirst(Rotated(v, c), v, c);
  }

  lemma OneFirstTaker(sessions: seq<Session>, v: View, c: Cursor, p: nat, q: nat)
    requires FirstTaker(sessions, v, c, p) && FirstTaker(sessions, v, c, q)
    ensures p == q
  {
    hide Takes;
  }

  /** Main result. A session gets a Raw turn exactly at a Raw slot at which it may have one and no
    * session ahead of it in the rotated order takes the slot. */
  lemma RawServedExactly(v: View, c: Cursor, s: Session)
    ensures Select(v, c) == Some(Choice(s, Raw)) <==>
              v.rawEnabled && RawSlot(v, c) && TakesRaw(s, v, c)
              && exists p: nat :: FirstTaker(Rotated(v, c), v, c, p) && Rotated(v, c)[p] == s
  {
    hide CanonicalQueue, Takes, TakesRaw, Rotated;
    if v.rawEnabled && RawSlot(v, c) {
      var p := SlotGoesToFirst(v, c);
      if q: nat :| FirstTaker(Rotated(v, c), v, c, q) && Rotated(v, c)[q] == s {
        if FirstTaker(Rotated(v, c), v, c, p) {
          OneFirstTaker(Rotated(v, c), v, c, p, q);
        }
      }
    }
  }

  // ---------------------------------------------------------------- waiting for a Raw turn

  /** How many more served turns can pass before a Raw slot comes. */
  function RawWait(turns: nat): nat {
    if turns < 4 then 4 - turns else 0
  }

  /** The session is eligible for Raw service. */
  ghost predicate RawWaits(t: Turn, id: string) {
    t.view.rawEnabled && exists k :: EligibleAt(t, id, k)
  }

  ghost predicate EligibleAt(t: Turn, id: string, k: nat) {
    var all := Rotated(t.view, t.cursor);
    k < |all| && all[k].id == id && Eligible(all[k], t.view, t.cursor)
  }

  predicate RawServedAt(t: Turn, id: string) {
    t.served && Select(t.view, t.cursor).Some?
    && Select(t.view, t.cursor).value.session.id == id && Select(t.view, t.cursor).value.phase.Raw?
  }

  /** A Raw slot that somebody else gets. */
  predicate Overtaken(t: Turn, id: string) {
    t.served && RawSlot(t.view, t.cursor) && !RawServedAt(t, id)
  }

  function OvertakenCount(turns: seq<Turn>, from: nat, id: string): nat
    decreases |turns| - from
  {
    if from >= |turns| then 0 else (if Overtaken(turns[from], id) then 1 else 0) + OvertakenCount(turns, from + 1, id)
  }

  /** The guard of being overtaken: somebody ahead of the session takes the slot. */
  lemma OvertakenByAhead(t: Turn, id: string, k: nat)
    requires t.view.rawEnabled && EligibleAt(t, id, k)
    requires forall q :: 0 <= q < k ==> Rotated(t.view, t.cursor)[q].id != id
    ensures Overtaken(t, id) <==>
              t.served && RawSlot(t.view, t.cursor)
              && exists q :: 0 <= q < k && Takes(Rotated(t.view, t.cursor)[q], t.view, t.cursor)
  {
    hide CanonicalQueue, Rotated, IsAfter, WantsRaw, Select;
    if RawSlot(t.view, t.cursor) {
      var p := SlotGoesToFirst(t.view, t.cursor);
      assert Takes(Rotated(t.view, t.cursor)[k], t.view, t.cursor);
      assert FirstTaker(Rotated(t.view, t.cursor), t.view, t.cursor, p);
    }
  }

  /** While a session waits every turn is its own, a slot lost to another, or a step to the next slot. */
  lemma TurnApproachesRaw(t: Turn, id: string)
    requires RawWaits(t, id)
    ensures Select(t.view, t.cursor).Some?
    ensures !RawSlot(t.view, t.cursor) ==>
              RawWait(t.cursor.canonicalTurns)
              == RawWait(AfterTurn(t.cursor, Select(t.view, t.cursor).value).canonicalTurns) + 1
  {
    hide CanonicalQueue, Rotated, IsAfter, WantsRaw;
    if RawSlot(t.view, t.cursor) {
      var k: nat :| EligibleAt(t, id, k);
      var p := SlotGoesToFirst(t.view, t.cursor);
      assert Takes(Rotated(t.view, t.cursor)[k], t.view, t.cursor);
    }
  }

  ghost predicate AllWait(turns: seq<Turn>, id: string) {
    forall k :: 0 <= k < |turns| ==> RawWaits(turns[k], id)
  }

  /** Without service the served turns are at most the wait, and five for each lost slot. */
  lemma {:induction false} WaitIsBounded(turns: seq<Turn>, from: nat, id: string)
    requires IsRun(turns) && AllWait(turns, id) && from < |turns|
    requires forall k :: from <= k < |turns| ==> !RawServedAt(turns[k], id)
    ensures Served(turns, from) <= RawWait(turns[from].cursor.canonicalTurns) + 5 * OvertakenCount(turns, from, id)
    decreases |turns| - from
  {
    hide RawWaits, Select, RawSlot;
    var t := turns[from];
    assert RawWaits(t, id);
    TurnApproachesRaw(t, id);
    if from + 1 < |turns| {
      assert Linked(turns, from);
      WaitIsBounded(turns, from + 1, id);
    } else {
      assert Served(turns, from + 1) == 0;
    }
  }

  /** Main result. A session that stays eligible gets a Raw turn within five served turns, and five
    * more for every Raw slot that it loses to a session ahead of it. */
  lemma SessionServedInTime(turns: seq<Turn>, id: string)
    requires IsRun(turns) && AllWait(turns, id) && Served(turns, 0) >= 5 * (OvertakenCount(turns, 0, id) + 1)
    ensures exists k :: 0 <= k < |turns| && RawServedAt(turns[k], id)
  {
    hide RawWaits, IsRun, RawServedAt;
    if forall k :: 0 <= k < |turns| ==> !RawServedAt(turns[k], id) {
      assert turns != [];
      WaitIsBounded(turns, 0, id);
    }
  }

  /** A turn that spends the Raw slot: on Raw work, or on Git recovery. */
  predicate SlotServedAt(t: Turn) {
    t.served && RawSlot(t.view, t.cursor)
  }

  lemma {:induction false} SlotComes(turns: seq<Turn>, from: nat, id: string)
    requires IsRun(turns) && AllWait(turns, id) && from < |turns|
    requires Served(turns, from) > RawWait(turns[from].cursor.canonicalTurns)
    ensures exists k :: from <= k < |turns| && SlotServedAt(turns[k])
    decreases |turns| - from
  {
    hide RawWaits, Select, RawSlot;
    var t := turns[from];
    assert RawWaits(t, id);
    TurnApproachesRaw(t, id);
    if !SlotServedAt(t) {
      assert Served(turns, from + 1) > 0;
      assert from + 1 < |turns|;
      assert Linked(turns, from);
      SlotComes(turns, from + 1, id);
    }
  }

  /** Main result. While some session stays eligible for Raw work, one of any five served turns is a
    * Raw turn, of that session or another, or a turn of Git recovery with no canonical work waiting. */
  lemma SomeRawWithinFive(turns: seq<Turn>, id: string)
    requires IsRun(turns) && AllWait(turns, id) && Served(turns, 0) >= 5
    ensures exists k :: 0 <= k < |turns| && turns[k].served
                        && (ServesRaw(turns[k].view, turns[k].cursor)
                            || (turns[k].view.recoverGit && CanonicalQueue(turns[k].view, turns[k].cursor) == []))
  {
    hide RawWaits, CanonicalQueue, Rotated, IsAfter, WantsRaw, Select;
    assert turns != [];
    SlotComes(turns, 0, id);
    var k :| 0 <= k < |turns| && SlotServedAt(turns[k]);
    var t := turns[k];
    assert RawWaits(t, id);
    EligibleSlot(t, id);
  }

  lemma EligibleSlot(t: Turn, id: string)
    requires RawWaits(t, id) && RawSlot(t.view, t.cursor)
    ensures ServesRaw(t.view, t.cursor) || (t.view.recoverGit && CanonicalQueue(t.view, t.cursor) == [])
  {
    hide CanonicalQueue, Rotated, IsAfter, WantsRaw;
    var k: nat :| EligibleAt(t, id, k);
    var p := SlotGoesToFirst(t.view, t.cursor);
    assert Takes(Rotated(t.view, t.cursor)[k], t.view, t.cursor);
  }

  // ---------------------------------------------------------------- pages of a turn

  /** How a page ends: the phase is complete, there is more, or the session failed or vanished. */
  datatype Outcome = Done | More | Dropped

  function Forget(pending: seq<Active>, id: string, phase: Phase): seq<Active> {
    if pending == [] then []
    else (if pending[0].sessionId == id && pending[0].phase == phase then [] else [pending[0]])
         + Forget(pending[1..], id, phase)
  }

  /** The turn a page belongs to: the one that is open, or a new one for the selected session. */
  function Opened(c: Cursor, choice: Choice): Cursor {
    if c.active.Some? then c
    else
      c.(active := Some(Active(choice.session.id, choice.phase, 0)),
         pending := Forget(c.pending, choice.session.id, choice.phase))
  }

  /** The counters of a turn that ends by completing or by pausing. */
  function EndTurn(c: Cursor, a: Active): Cursor {
    c.(active := None,
       canonicalTurns := if a.phase.Canonical? then c.canonicalTurns + 1 else 0, last := Some(a.sessionId))
  }

  /** The cursor after a page; `snapshot` is what a completed canonical phase has shown. */
  function AfterPage(c: Cursor, choice: Choice, outcome: Outcome, snapshot: Progress): Cursor {
    var open := Opened(c, choice);
    var a := open.active.value;
    match outcome
    case Done =>
      EndTurn(open, a).(progress :=
        if a.phase.Canonical? then open.progress[a.sessionId := snapshot] else open.progress)
    case More =>
      if a.quantum + 1 >= Quantum then EndTurn(open, a).(pending := open.pending + [a.(quantum := 0)])
      else open.(active := Some(a.(quantum := a.quantum + 1)))
    case Dropped =>
      open.(active := None, pending := Forget(open.pending, a.sessionId, a.phase) + [a])
  }

  /** A page: what the selection would see, whose page it is, and how it ends. */
  datatype PageOf = PageOf(view: View, choice: Choice, outcome: Outcome, snapshot: Progress)

  function Pages(c: Cursor, pages: seq<PageOf>, n: nat): Cursor
    requires n <= |pages|
  {
    if n == 0 then c
    else AfterPage(Pages(c, pages, n - 1), pages[n - 1].choice, pages[n - 1].outcome, pages[n - 1].snapshot)
  }

  /** Every open turn has had fewer than four pages. */
  predicate QuantumOk(c: Cursor) {
    c.active.Some? ==> c.active.value.quantum < Quantum
  }

  lemma {:induction false} QuantumKept(c: Cursor, pages: seq<PageOf>, n: nat)
    requires n <= |pages| && QuantumOk(c)
    ensures QuantumOk(Pages(c, pages, n))
  {
    if n > 0 {
      QuantumKept(c, pages, n - 1);
    }
  }

  function Spent(c: Cursor): nat {
    if c.active.Some? then c.active.value.quantum else 0
  }

  ghost predicate EndedBetween(c: Cursor, pages: seq<PageOf>, m: nat, n: nat)
    requires n <= |pages|
  {
    exists k :: m < k <= n && Pages(c, pages, k).active.None?
  }

  lemma PageSpends(c: Cursor, p: PageOf)
    ensures var after := AfterPage(c, p.choice, p.outcome, p.snapshot);
            after.active.None? || Spent(after) == Spent(c) + 1
  {
    hide Forget;
  }

  lemma {:induction false} TurnSpends(c: Cursor, pages: seq<PageOf>, m: nat, n: nat)
    requires m <= n <= |pages|
    ensures EndedBetween(c, pages, m, n) || Spent(Pages(c, pages, n)) == Spent(Pages(c, pages, m)) + n - m
    decreases n - m
  {
    hide AfterPage, Spent;
    if m < n {
      TurnSpends(c, pages, m, n - 1);
      PageSpends(Pages(c, pages, n - 1), pages[n - 1]);
      assert EndedBetween(c, pages, m, n - 1) ==> EndedBetween(c, pages, m, n);
    }
  }

  /** Main result. A turn lasts at most four pages: among any four pages in a row one ends it. */
  lemma TurnWithinFourPages(c: Cursor, pages: seq<PageOf>, m: nat)
    requires m + 4 <= |pages| && QuantumOk(c)
    ensures exists k :: m < k <= m + 4 && Pages(c, pages, k).active.None?
  {
    QuantumKept(c, pages, m + 4);
    TurnSpends(c, pages, m, m + 4);
  }

  /** A turn that completes or pauses moves the counters as `AfterTurn` says; a paused session
    * stays pending in its phase, and a dropped turn leaves the counters alone. */
  lemma PageEndsTurn(c: Cursor, choice: Choice, outcome: Outcome, snapshot: Progress)
    requires c.active.Some? ==> c.active.value.sessionId == choice.session.id && c.active.value.phase == choice.phase
    ensures var after := AfterPage(c, choice, outcome, snapshot);
            after.active.None? ==>
              && SameCounters(if outcome.Dropped? then c else AfterTurn(c, choice), after)
              && (!outcome.Done? ==> HasPending(after, choice.session.id, choice.phase))
  {
    var after := AfterPage(c, choice, outcome, snapshot);
    if after.active.None? && !outcome.Done? {
      var added := after.pending[|after.pending| - 1];
      assert added.sessionId == choice.session.id && added.phase == choice.phase;
    }
  }

  // ---------------------------------------------------------------- pages make turns

  /** Where no turn is open the selection decides; otherwise the page belongs to the open turn. */
  ghost predicate Scheduled(c: Cursor, pages: seq<PageOf>) {
    forall k {:trigger Pages(c, pages, k)} :: 0 <= k < |pages| ==> PageScheduled(Pages(c, pages, k), pages[k])
  }

  predicate PageScheduled(now: Cursor, page: PageOf) {
    if now.active.None? then Select(page.view, now) == Some(page.choice)
    else now.active.value.sessionId == page.choice.session.id && now.active.value.phase == page.choice.phase
  }

  /** The page that opened the turn in which the run is after `n` pages. */
  function TurnStart(c: Cursor, pages: seq<PageOf>, n: nat): (k: nat)
    requires n <= |pages|
    ensures k <= n
  {
    if n == 0 || Pages(c, pages, n).active.None? then n else TurnStart(c, pages, n - 1)
  }

  /** The turns that ended within the first `n` pages. */
  function Turns(c: Cursor, pages: seq<PageOf>, n: nat): seq<Turn>
    requires n <= |pages|
  {
    if n == 0 then []
    else
      var before := Turns(c, pages, n - 1);
      if Pages(c, pages, n).active.Some? then before
      else
        var start := TurnStart(c, pages, n - 1);
        before + [Turn(pages[start].view, Pages(c, pages, start), !pages[n - 1].outcome.Dropped?)]
  }

  /** The open turn is the one that was selected at its start, and its pages left the counters alone. */
  ghost predicate InTurn(c: Cursor, pages: seq<PageOf>, n: nat)
    requires n <= |pages|
  {
    var start := TurnStart(c, pages, n);
    var now, begun := Pages(c, pages, n), Pages(c, pages, start);
    && begun.active.None? && SameCounters(begun, now)
    && (now.active.Some? ==>
          && start < n && Select(pages[start].view, begun) == Some(pages[start].choice)
          && now.active.value.sessionId == pages[start].choice.session.id
          && now.active.value.phase == pages[start].choice.phase)
  }

  lemma PageStays(c: Cursor, page: PageOf)
    requires PageScheduled(c, page) && AfterPage(c, page.choice, page.outcome, page.snapshot).active.Some?
    ensures var after := AfterPage(c, page.choice, page.outcome, page.snapshot);
            && SameCounters(c, after) && after.active.value.sessionId == page.choice.session.id
            && after.active.value.phase == page.choice.phase
  {
    hide Select, Forget;
  }

  lemma {:induction false} PagesStayInTurn(c: Cursor, pages: seq<PageOf>, n: nat)
    requires n <= |pages| && c.active.None? && Scheduled(c, pages)
    ensures InTurn(c, pages, n)
  {
    hide Select, AfterPage;
    if n > 0 {
      PagesStayInTurn(c, pages, n - 1);
      var before := Pages(c, pages, n - 1);
      assert PageScheduled(before, pages[n - 1]);
      if Pages(c, pages, n).active.Some? {
        PageStays(before, pages[n - 1]);
      }
    }
  }

  /** A page that ends a turn moves the counters as a run of turns demands. */
  lemma TurnEnds(c: Cursor, pages: seq<PageOf>, n: nat)
    requires 0 < n <= |pages| && c.active.None? && Scheduled(c, pages) && Pages(c, pages, n).active.None?
    ensures var start := TurnStart(c, pages, n - 1);
            Leads(Turn(pages[start].view, Pages(c, pages, start), !pages[n - 1].outcome.Dropped?), Pages(c, pages, n))
  {
    hide Select, AfterPage;
    PagesStayInTurn(c, pages, n - 1);
    var before, page := Pages(c, pages, n - 1), pages[n - 1];
    assert PageScheduled(before, page);
    PageEndsTurn(before, page.choice, page.outcome, page.snapshot);
  }

  /** The last turn leads to where the run stands. */
  ghost predicate LastLeads(turns: seq<Turn>, next: Cursor) {
    turns != [] ==> Leads(turns[|turns| - 1], next)
  }

  lemma RunSnoc(turns: seq<Turn>, t: Turn)
    requires IsRun(turns) && LastLeads(turns, t.cursor)
    ensures IsRun(turns + [t])
  {
    hide Select;
    var all := turns + [t];
    forall k: nat | k + 1 < |all|
      ensures Linked(all, k)
    {
      if k + 1 < |turns| {
        assert Linked(turns, k);
      }
    }
  }

  /** Main result. Whatever happens on the pages, the turns they make form a run: the counters of
    * each turn follow from the turn before, so the bounds on waiting hold for every run of pages. */
  lemma {:induction false} PagesMakeRun(c: Cursor, pages: seq<PageOf>, n: nat)
    requires n <= |pages| && c.active.None? && Scheduled(c, pages)
    ensures IsRun(Turns(c, pages, n))
    ensures LastLeads(Turns(c, pages, n), Pages(c, pages, TurnStart(c, pages, n)))
  {
    hide Select, AfterPage, Leads, IsRun;
    if n > 0 {
      PagesMakeRun(c, pages, n - 1);
      if Pages(c, pages, n).active.None? {
        var start := TurnStart(c, pages, n - 1);
        TurnEnds(c, pages, n);
        RunSnoc(Turns(c, pages, n - 1),
                Turn(pages[start].view, Pages(c, pages, start), !pages[n - 1].outcome.Dropped?));
      }
    } else {
      NoTurns();
    }
  }

  lemma NoTurns()
    ensures IsRun([])
  {
  }

  // ---------------------------------------------------------------- completed sessions leave the queue

  /** A session with an open turn has no paused one in the same phase. */
  ghost predicate OpenIsNotPending(c: Cursor) {
    c.active.Some? ==> !HasPending(c, c.active.value.sessionId, c.active.value.phase)
  }

  lemma {:induction false} ForgetDrops(pending: seq<Active>, id: string, phase: Phase)
    ensures forall k :: 0 <= k < |Forget(pending, id, phase)| ==>
              !(Forget(pending, id, phase)[k].sessionId == id && Forget(pending, id, phase)[k].phase == phase)
  {
    if pending != [] {
      ForgetDrops(pending[1..], id, phase);
    }
  }

  lemma OpenedIsNotPending(c: Cursor, choice: Choice)
    requires OpenIsNotPending(c)
    ensures OpenIsNotPending(Opened(c, choice))
  {
    ForgetDrops(c.pending, choice.session.id, choice.phase);
  }

  lemma PageNeverBoth(c: Cursor, page: PageOf)
    requires OpenIsNotPending(c)
    ensures OpenIsNotPending(AfterPage(c, page.choice, page.outcome, page.snapshot))
  {
    hide Forget;
    OpenedIsNotPending(c, page.choice);
    var open := Opened(c, page.choice);
    var after := AfterPage(c, page.choice, page.outcome, page.snapshot);
    if after.active.Some? {
      assert after.pending == open.pending;
    }
  }

  /** No run of pages leaves a session both open and paused in the same phase. */
  lemma {:induction false} NeverBoth(c: Cursor, pages: seq<PageOf>, n: nat)
    requires n <= |pages| && OpenIsNotPending(c)
    ensures OpenIsNotPending(Pages(c, pages, n))
  {
    hide AfterPage, OpenIsNotPending;
    if n > 0 {
      NeverBoth(c, pages, n - 1);
      PageNeverBoth(Pages(c, pages, n - 1), pages[n - 1]);
    }
  }

  lemma {:induction false} WaitingNeeds(sessions: seq<Session>, c: Cursor, later: (string, string) -> bool, s: Session)
    requires s in Waiting(sessions, c, later)
    ensures IsAfter(s, c, later) || HasPending(c, s.id, Canonical)
  {
    hide IsAfter, HasPending;
    if s !in Waiting(sessions[1..], c, later) {
      assert s == sessions[0];
    } else {
      WaitingNeeds(sessions[1..], c, later, s);
    }
  }

  /** Main result. A completed canonical phase takes its session out of the queue, until it changes
    * again: it is neither behind nor paused. */
  lemma CompletedLeaves(c: Cursor, s: Session, snapshot: Progress, v: View)
    requires snapshot == Progress(s.modifiedMs, s.files) && Distinct(Ids(s.files)) && OpenIsNotPending(c)
    requires c.active.Some? ==> c.active.value.sessionId == s.id && c.active.value.phase == Canonical
    ensures s !in CanonicalQueue(v, AfterPage(c, Choice(s, Canonical), Done, snapshot))
  {
    forall k | 0 <= k < |s.files|
      ensures FindMark(s.files, s.files[k].objectId) == Some(s.files[k])
    {
      FindOwn(s.files, k);
    }
    var after := AfterPage(c, Choice(s, Canonical), Done, snapshot);
    OpenedIsNotPending(c, Choice(s, Canonical));
    assert !IsAfter(s, after, v.later) && !HasPending(after, s.id, Canonical);
    if s in CanonicalQueue(v, after) {
      WaitingNeeds(Rotated(v, after), after, v.later, s);
    }
  }

  function Ids(files: seq<FileMark>): (r: seq<string>)
    ensures |r| == |files| && forall k :: 0 <= k < |files| ==> r[k] == files[k].objectId
  {
    seq(|files|, k requires 0 <= k < |files| => files[k].objectId)
  }

  lemma {:induction false} FindOwn(files: seq<FileMark>, k: nat)
    requires Distinct(Ids(files)) && k < |files|
    ensures FindMark(files, files[k].objectId) == Some(files[k])
  {
    if k > 0 {
      assert Ids(files)[0] != Ids(files)[k];
      assert forall j :: 0 <= j < |files| - 1 ==> Ids(files[1..])[j] == Ids(files)[j + 1];
      FindOwn(files[1..], k - 1);
    }
  }
}
