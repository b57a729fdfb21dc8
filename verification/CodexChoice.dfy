/** Which session a turn of the Codex scheduler goes to: a canonical turn to the newest waiting one
  * three times out of four and to the oldest otherwise, a Raw turn to the oldest that may have it. */
module CodexChoice {
  import opened Base
  import opened CodexSchedule

  // ---------------------------------------------------------------- what a session waits for

  /** The files with this object id and generation. */
  function Marked(files: seq<FileMark>, objectId: string, generation: string): set<nat> {
    set k: nat | k < |files| && files[k].objectId == objectId && files[k].generation == generation
  }

  /** The first mark of this file. */
  ghost predicate FirstMark(files: seq<FileMark>, k: nat, objectId: string) {
    k < |files| && files[k].objectId == objectId && forall i :: 0 <= i < k ==> files[i].objectId != objectId
  }

  /** A file is shorter than it was. */
  ghost predicate Shorter(before: seq<FileMark>, k: nat, now: FileMark) {
    FirstMark(before, k, now.objectId) && before[k].size > now.size
  }

  /** The session has other files than before, or a file that lost bytes. */
  ghost predicate FilesChanged(before: seq<FileMark>, now: seq<FileMark>) {
    || (exists o, g :: |Marked(before, o, g)| != |Marked(now, o, g)|)
    || (exists f, k: nat :: f in now && Shorter(before, k, f))
  }

  /** The session changed since its completed snapshot, or, without one, since the baseline. */
  ghost predicate Changed(s: Session, c: Cursor, later: (string, string) -> bool) {
    if s.id !in c.progress then
      s.modifiedMs > c.baselineMs || (s.modifiedMs == c.baselineMs && later(s.id, c.baselineId))
    else s.modifiedMs > c.progress[s.id].modifiedMs || FilesChanged(c.progress[s.id].files, s.files)
  }

  ghost predicate Paused(c: Cursor, id: string, phase: Phase) {
    exists a :: a in c.pending && a.sessionId == id && a.phase == phase
  }

  /** Canonical work waits for the session: it changed or was paused. */
  ghost predicate Waits(s: Session, v: View, c: Cursor) {
    Changed(s, c, v.later) || Paused(c, s.id, Canonical)
  }

  lemma {:induction false} KeyCounts(files: seq<FileMark>, o: string, g: string)
    ensures SourceKey(files)[(o, g)] == |Marked(files, o, g)|
    decreases |files|
  {
    if files != [] {
      var last := |files| - 1;
      KeyCounts(files[..last], o, g);
      KeySnoc(files[..last], files[last]);
      assert files[..last] + [files[last]] == files;
      assert Marked(files, o, g)
             == Marked(files[..last], o, g)
                + if files[last].objectId == o && files[last].generation == g then {last} else {};
    } else {
      assert Marked(files, o, g) == {};
    }
  }

  lemma {:induction false} KeySnoc(files: seq<FileMark>, last: FileMark)
    ensures SourceKey(files + [last]) == SourceKey(files) + multiset{(last.objectId, last.generation)}
  {
    if files == [] {
      assert files + [last] == [last] && [last][1..] == [];
    } else {
      KeySnoc(files[1..], last);
      assert (files + [last])[1..] == files[1..] + [last] && (files + [last])[0] == files[0];
    }
  }

  lemma {:induction false} MarkFound(files: seq<FileMark>, o: string)
    ensures FindMark(files, o).Some? ==> exists k: nat :: FirstMark(files, k, o) && FindMark(files, o).value == files[k]
    ensures FindMark(files, o).None? ==> forall k: nat :: !FirstMark(files, k, o)
  {
    if files != [] && files[0].objectId != o {
      MarkFound(files[1..], o);
      if k: nat :| FirstMark(files[1..], k, o) {
        var n := k + 1;
        forall i | 0 <= i < n
          ensures files[i].objectId != o
        {
          assert i > 0 ==> files[i] == files[1..][i - 1];
        }
        assert FirstMark(files, n, o) && files[n] == files[1..][k];
      }
      forall k: nat | FirstMark(files, k, o)
        ensures FirstMark(files[1..], k - 1, o)
      {
        assert forall i :: 0 <= i < k - 1 ==> files[1..][i] == files[i + 1];
      }
    } else if files != [] {
      assert FirstMark(files, 0, o);
    }
  }

  lemma FirstMarkOnce(files: seq<FileMark>, j: nat, k: nat, o: string)
    requires FirstMark(files, j, o) && FirstMark(files, k, o)
    ensures j == k
  {
  }

  lemma ShrunkExactly(before: seq<FileMark>, now: seq<FileMark>)
    ensures Shrunk(before, now) <==> exists f, k: nat :: f in now && Shorter(before, k, f)
  {
    hide FindMark;
    if Shrunk(before, now) {
      var i :| 0 <= i < |now| && FindMark(before, now[i].objectId).Some?
               && FindMark(before, now[i].objectId).value.size > now[i].size;
      MarkFound(before, now[i].objectId);
      var k: nat :| FirstMark(before, k, now[i].objectId) && FindMark(before, now[i].objectId).value == before[k];
      assert now[i] in now && Shorter(before, k, now[i]);
    }
    if f, k: nat :| f in now && Shorter(before, k, f) {
      var i :| 0 <= i < |now| && now[i] == f;
      MarkFound(before, f.objectId);
      var j: nat :| FirstMark(before, j, f.objectId) && FindMark(before, f.objectId).value == before[j];
      FirstMarkOnce(before, j, k, f.objectId);
    }
  }

  lemma FilesChangedExactly(before: seq<FileMark>, now: seq<FileMark>)
    ensures SourceKey(before) != SourceKey(now) || Shrunk(before, now) <==> FilesChanged(before, now)
  {
    hide SourceKey, Shrunk, Marked, Shorter;
    ShrunkExactly(before, now);
    forall o, g
      ensures SourceKey(before)[(o, g)] == |Marked(before, o, g)| && SourceKey(now)[(o, g)] == |Marked(now, o, g)|
    {
      KeyCounts(before, o, g);
      KeyCounts(now, o, g);
    }
    if forall o, g :: |Marked(before, o, g)| == |Marked(now, o, g)| {
      forall key: (string, string)
        ensures SourceKey(before)[key] == SourceKey(now)[key]
      {
        assert key == (key.0, key.1);
        assert |Marked(before, key.0, key.1)| == |Marked(now, key.0, key.1)|;
      }
      assert SourceKey(before) == SourceKey(now);
    }
  }

  /** What counts as changed and as paused, without the folds over the marks. */
  lemma ChangedExactly(s: Session, v: View, c: Cursor)
    ensures IsAfter(s, c, v.later) <==> Changed(s, c, v.later)
    ensures forall phase :: HasPending(c, s.id, phase) <==> Paused(c, s.id, phase)
  {
    hide SourceKey, Shrunk, FilesChanged;
    if s.id in c.progress {
      FilesChangedExactly(c.progress[s.id].files, s.files);
    }
    forall phase
      ensures HasPending(c, s.id, phase) <==> Paused(c, s.id, phase)
    {
      if a :| a in c.pending && a.sessionId == s.id && a.phase == phase {
        var k :| 0 <= k < |c.pending| && c.pending[k] == a;
      }
    }
  }

  // ---------------------------------------------------------------- the canonical queue

  predicate ServedLast(s: Session, c: Cursor) {
    c.last == Some(s.id)
  }

  /** `compareSessions(a, b) <= 0`; `before` is the order of `localeCompare`. */
  predicate NotLater(a: Session, b: Session, before: (string, string) -> bool) {
    a.modifiedMs < b.modifiedMs || (a.modifiedMs == b.modifiedMs && !before(b.id, a.id))
  }

  ghost predicate Sorted(sessions: seq<Session>, before: (string, string) -> bool) {
    forall i, j :: 0 <= i < j < |sessions| ==> NotLater(sessions[i], sessions[j], before)
  }

  lemma {:induction false} WithoutKeeps(sessions: seq<Session>, id: Option<string>, before: (string, string) -> bool)
    ensures forall s :: s in Without(sessions, id) <==> s in sessions && Some(s.id) != id
    ensures Sorted(sessions, before) ==> Sorted(Without(sessions, id), before)
  {
    if sessions != [] {
      WithoutKeeps(sessions[1..], id, before);
      assert forall s :: s in sessions <==> s == sessions[0] || s in sessions[1..];
      if Sorted(sessions, before) {
        SortedTail(sessions, before);
      }
    }
  }

  lemma SortedTail(sessions: seq<Session>, before: (string, string) -> bool)
    requires sessions != [] && Sorted(sessions, before)
    ensures Sorted(sessions[1..], before)
    ensures forall s :: s in sessions[1..] ==> NotLater(sessions[0], s, before)
  {
  }

  lemma {:induction false} OnlyKeeps(sessions: seq<Session>, id: Option<string>)
    ensures forall s :: s in Only(sessions, id) <==> s in sessions && Some(s.id) == id
  {
    if sessions != [] {
      OnlyKeeps(sessions[1..], id);
      assert forall s :: s in sessions <==> s == sessions[0] || s in sessions[1..];
    }
  }

  lemma WaitsExactly(s: Session, v: View, c: Cursor)
    ensures Waits(s, v, c) <==> IsAfter(s, c, v.later) || HasPending(c, s.id, Canonical)
  {
    hide IsAfter, HasPending, Changed, Paused;
    ChangedExactly(s, v, c);
  }

  lemma {:induction false} WaitingKeeps(sessions: seq<Session>, v: View, c: Cursor, before: (string, string) -> bool)
    ensures forall s :: s in Waiting(sessions, c, v.later) <==> s in sessions && Waits(s, v, c)
    ensures Sorted(sessions, before) ==> Sorted(Waiting(sessions, c, v.later), before)
  {
    hide IsAfter, HasPending, Waits;
    if sessions != [] {
      WaitingKeeps(sessions[1..], v, c, before);
      assert Waits(sessions[0], v, c) <==> IsAfter(sessions[0], c, v.later) || HasPending(c, sessions[0].id, Canonical)
        by { WaitsExactly(sessions[0], v, c); }
      assert forall s :: s in sessions <==> s == sessions[0] || s in sessions[1..];
      if Sorted(sessions, before) {
        SortedTail(sessions, before);
      }
    }
  }

  lemma {:induction false} WaitingAppend(a: seq<Session>, b: seq<Session>, c: Cursor, later: (string, string) -> bool)
    ensures Waiting(a + b, c, later) == Waiting(a, c, later) + Waiting(b, c, later)
  {
    hide IsAfter, HasPending;
    if a == [] {
      assert a + b == b;
    } else {
      WaitingAppend(a[1..], b, c, later);
      assert (a + b)[1..] == a[1..] + b;
      Assoc(Waiting([a[0]], c, later), Waiting(a[1..], c, later), Waiting(b, c, later));
    }
  }

  lemma {:induction false} WithoutAppend(a: seq<Session>, b: seq<Session>, id: Option<string>)
    ensures Without(a + b, id) == Without(a, id) + Without(b, id)
  {
    if a == [] {
      assert a + b == b;
    } else {
      WithoutAppend(a[1..], b, id);
      assert (a + b)[1..] == a[1..] + b;
      Assoc(if Some(a[0].id) == id then [] else [a[0]], Without(a[1..], id), Without(b, id));
    }
  }

  lemma {:induction false} WithoutNone(sessions: seq<Session>, id: Option<string>)
    requires forall s :: s in sessions ==> Some(s.id) != id
    ensures Without(sessions, id) == sessions
  {
    if sessions != [] {
      assert sessions[0] in sessions;
      WithoutNone(sessions[1..], id);
    }
  }

  lemma {:induction false} WithoutAll(sessions: seq<Session>, id: Option<string>)
    requires forall s :: s in sessions ==> Some(s.id) == id
    ensures Without(sessions, id) == []
  {
    if sessions != [] {
      assert sessions[0] in sessions;
      WithoutAll(sessions[1..], id);
    }
  }

  /** The queue: the waiting sessions in order, with the one served last at the end. */
  lemma QueueParts(v: View, c: Cursor, before: (string, string) -> bool)
    ensures var others := Waiting(Without(v.ordered, c.last), c, v.later);
            var again := Waiting(Only(v.ordered, c.last), c, v.later);
            && CanonicalQueue(v, c) == others + again && Without(CanonicalQueue(v, c), c.last) == others
            && (forall s :: s in others <==> s in v.ordered && Waits(s, v, c) && !ServedLast(s, c))
            && (forall s :: s in again <==> s in v.ordered && Waits(s, v, c) && ServedLast(s, c))
            && (Sorted(v.ordered, before) ==> Sorted(others, before))
  {
    hide IsAfter, HasPending;
    var others := Waiting(Without(v.ordered, c.last), c, v.later);
    var again := Waiting(Only(v.ordered, c.last), c, v.later);
    WithoutKeeps(v.ordered, c.last, before);
    OnlyKeeps(v.ordered, c.last);
    WaitingKeeps(Without(v.ordered, c.last), v, c, before);
    WaitingKeeps(Only(v.ordered, c.last), v, c, before);
    WaitingAppend(Without(v.ordered, c.last), Only(v.ordered, c.last), c, v.later);
    WithoutAppend(others, again, c.last);
    WithoutNone(others, c.last);
    WithoutAll(again, c.last);
    assert others + [] == others;
  }

  /** The sessions between which a canonical turn decides: those that wait, and the one served last
    * only if no other does. */
  ghost predicate Candidate(s: Session, v: View, c: Cursor) {
    && s in v.ordered && Waits(s, v, c)
    && (ServedLast(s, c) ==> forall o :: o in v.ordered && Waits(o, v, c) ==> ServedLast(o, c))
  }

  /** Nothing between which it decides comes before `s`. */
  ghost predicate Oldest(s: Session, v: View, c: Cursor, before: (string, string) -> bool) {
    Candidate(s, v, c) && forall o :: Candidate(o, v, c) && !ServedLast(o, c) ==> o == s || NotLater(s, o, before)
  }

  ghost predicate Newest(s: Session, v: View, c: Cursor, before: (string, string) -> bool) {
    Candidate(s, v, c) && forall o :: Candidate(o, v, c) && !ServedLast(o, c) ==> o == s || NotLater(o, s, before)
  }

  /** Three of every four canonical turns go to the newest candidate, if a session was served before
    * and another one waits. */
  ghost predicate PrefersNewest(v: View, c: Cursor) {
    c.canonicalTurns % 4 != 3 && c.last.Some? && exists s :: s in v.ordered && Waits(s, v, c) && !ServedLast(s, c)
  }

  lemma HeadIsOldest(v: View, c: Cursor, before: (string, string) -> bool)
    requires Sorted(v.ordered, before) && CanonicalQueue(v, c) != []
    ensures Oldest(CanonicalQueue(v, c)[0], v, c, before)
  {
    hide IsAfter, HasPending, Waits, Without, Only, Waiting, CanonicalQueue;
    QueueParts(v, c, before);
    var others := Waiting(Without(v.ordered, c.last), c, v.later);
    var again := Waiting(Only(v.ordered, c.last), c, v.later);
    if others == [] {
      assert again[0] in again;
    } else {
      assert others[0] in others;
    }
  }

  lemma RecentIsNewest(v: View, c: Cursor, before: (string, string) -> bool)
    requires Sorted(v.ordered, before)
    ensures var recent := Recent(CanonicalQueue(v, c), c.last);
            && (recent.Some? <==>
                  c.last.Some? && exists s :: s in v.ordered && Waits(s, v, c) && !ServedLast(s, c))
            && (recent.Some? ==> Newest(recent.value, v, c, before) && !ServedLast(recent.value, c))
  {
    hide IsAfter, HasPending, Waits, Without, Only, Waiting, CanonicalQueue;
    QueueParts(v, c, before);
    var others := Waiting(Without(v.ordered, c.last), c, v.later);
    if others != [] {
      assert others[|others| - 1] in others;
    }
  }

  /** Main result. Canonical work is served exactly to waiting sessions. The turn goes to the newest
    * candidate where newest ones are preferred, and to the oldest otherwise; below four turns in a
    * row it goes there before any Raw work. */
  lemma CanonicalGoesTo(v: View, c: Cursor, before: (string, string) -> bool)
    requires Sorted(v.ordered, before)
    ensures (exists s :: s in v.ordered && Waits(s, v, c)) <==> CanonicalQueue(v, c) != []
    ensures CanonicalQueue(v, c) != [] ==> Select(v, c).Some?
    ensures CanonicalQueue(v, c) != [] && c.canonicalTurns < 4 ==> Select(v, c).value.phase == Canonical
    ensures CanonicalQueue(v, c) != [] && Select(v, c).value.phase == Canonical ==>
              var s := Select(v, c).value.session;
              if PrefersNewest(v, c) then Newest(s, v, c, before) && !ServedLast(s, c) else Oldest(s, v, c, before)
  {
    QueueParts(v, c, before);
    var queue := CanonicalQueue(v, c);
    hide IsAfter, HasPending, CanonicalQueue, Recent, Newest, Oldest, Rotated, ServedLast;
    if queue != [] {
      assert queue[0] in queue;
      HeadIsOldest(v, c, before);
      RecentIsNewest(v, c, before);
      WaitingRaw(if v.rawEnabled then Rotated(v, c) else [], v, c);
    }
  }

  // ---------------------------------------------------------------- Raw turns

  /** Raw work waits for the session: it was paused or has bytes to send. */
  ghost predicate RawWaits(s: Session, v: View, c: Cursor) {
    Paused(c, s.id, Raw) || s.id in v.needsRaw
  }

  /** No canonical work waits. */
  ghost predicate NoneWaits(v: View, c: Cursor) {
    forall o :: o in v.ordered ==> !Waits(o, v, c)
  }

  /** The session may take a Raw turn: its completed snapshot is current, or nothing canonical waits
    * and Git recovery does not claim the turn. */
  ghost predicate MayTake(s: Session, v: View, c: Cursor) {
    RawWaits(s, v, c)
    && ((s.id in c.progress && !Changed(s, c, v.later)) || (NoneWaits(v, c) && !v.recoverGit))
  }

  /** The turn goes to Git recovery of a session without a completed snapshot. */
  ghost predicate GoesToRecovery(s: Session, v: View, c: Cursor) {
    RawWaits(s, v, c) && NoneWaits(v, c) && v.recoverGit && s.id !in c.progress
  }

  lemma NoneWaitsExactly(v: View, c: Cursor, before: (string, string) -> bool)
    ensures NoneWaits(v, c) <==> CanonicalQueue(v, c) == []
  {
    hide Waits, CanonicalQueue, Without, Only, Waiting;
    QueueParts(v, c, before);
    var others := Waiting(Without(v.ordered, c.last), c, v.later);
    var again := Waiting(Only(v.ordered, c.last), c, v.later);
    if CanonicalQueue(v, c) != [] {
      var s := CanonicalQueue(v, c)[0];
      assert s in others + again;
    }
  }

  lemma TakesExactly(s: Session, v: View, c: Cursor, before: (string, string) -> bool)
    ensures TakesRaw(s, v, c) <==> MayTake(s, v, c)
    ensures Takes(s, v, c) <==> MayTake(s, v, c) || GoesToRecovery(s, v, c)
  {
    hide IsAfter, HasPending, Changed, Paused, NoneWaits, CanonicalQueue;
    ChangedExactly(s, v, c);
    NoneWaitsExactly(v, c, before);
  }

  /** Main result. A session gets a Raw turn only with Raw capture on, when nothing canonical waits or
    * four canonical turns have gone by. It may take the turn, and no other one that takes it, itself or
    * for Git recovery, comes first: in the order of the sessions, the one served last behind all others. */
  lemma RawGoesTo(v: View, c: Cursor, before: (string, string) -> bool)
    requires Sorted(v.ordered, before) && Select(v, c).Some? && Select(v, c).value.phase.Raw?
    ensures v.rawEnabled && (NoneWaits(v, c) || c.canonicalTurns >= 4)
    ensures var s := Select(v, c).value.session;
            && s in v.ordered && MayTake(s, v, c)
            && forall o :: o in v.ordered && !ServedLast(o, c) && (MayTake(o, v, c) || GoesToRecovery(o, v, c)) ==>
                 o == s || (!ServedLast(s, c) && NotLater(s, o, before))
  {
    hide CanonicalQueue, Takes, TakesRaw, MayTake, GoesToRecovery, Without, Only, Select, NoneWaits;
    var s := Select(v, c).value.session;
    assert Select(v, c) == Some(Choice(s, Raw));
    NoneWaitsExactly(v, c, before);
    RawServedExactly(v, c, s);
    TakesExactly(s, v, c, before);
    WithoutKeeps(v.ordered, c.last, before);
    OnlyKeeps(v.ordered, c.last);
    var p: nat :| FirstTaker(Rotated(v, c), v, c, p) && Rotated(v, c)[p] == s;
    assert Rotated(v, c)[p] in Rotated(v, c);
    var others := Without(v.ordered, c.last);
    forall o | o in v.ordered && !ServedLast(o, c) && (MayTake(o, v, c) || GoesToRecovery(o, v, c))
      ensures o == s || (!ServedLast(s, c) && NotLater(s, o, before))
    {
      TakesExactly(o, v, c, before);
      var q :| 0 <= q < |others| && others[q] == o;
      assert Rotated(v, c)[q] == o;
      assert p <= q;
      assert others[p] == s;
    }
  }

  /** A session that may take the slot is not passed over: some session takes it. */
  lemma RawSlotIsUsed(v: View, c: Cursor, before: (string, string) -> bool, s: Session)
    requires v.rawEnabled && (NoneWaits(v, c) || c.canonicalTurns >= 4)
    requires s in v.ordered && (MayTake(s, v, c) || GoesToRecovery(s, v, c))
    ensures Select(v, c).Some?
    ensures Select(v, c).value.phase.Raw? || GoesToRecovery(Select(v, c).value.session, v, c)
  {
    hide CanonicalQueue, Takes, TakesRaw, MayTake, GoesToRecovery, Without, Only, Select, NoneWaits;
    NoneWaitsExactly(v, c, before);
    TakesExactly(s, v, c, before);
    WithoutKeeps(v.ordered, c.last, before);
    OnlyKeeps(v.ordered, c.last);
    assert s in Rotated(v, c);
    var p := SlotGoesToFirst(v, c);
    var q :| 0 <= q < |Rotated(v, c)| && Rotated(v, c)[q] == s;
    TakesExactly(Rotated(v, c)[p], v, c, before);
  }
}
