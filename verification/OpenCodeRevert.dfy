/** Where a revert cuts an OpenCode session: the flags of the projection against the order of rows. */
module OpenCodeRevert {
  import opened Base
  import opened OpenCodeSource
  import opened OpenCodeWalk
  import opened OpenCodeCoverage

  /** The part of the projection's state that decides whether a part is shown. */
  datatype Mode = Mode(session: Session, message: Option<Message>, pastRevert: bool, active: bool,
                       boundary: Option<nat>)

  function Seen(mode: Mode, r: Record): Mode {
    match r
    case SessionRow(s) => Mode(s, None, false, true, None)
    case MessageRow(m) =>
      if mode.session.revert.Some? && mode.session.revert.value.message == m.id then
        Mode(mode.session, Some(m), true, mode.session.revert.value.part.Some?, mode.session.revert.value.part)
      else mode.(message := Some(m), active := !mode.pastRevert, boundary := None)
    case PartRow(p, _) => mode.(active := mode.active && mode.boundary != Some(p.id))
  }

  function End(mode: Mode, rows: seq<Record>): Mode
    decreases |rows|
  {
    if rows == [] then mode else End(Seen(mode, rows[0]), rows[1..])
  }

  /** For each row, whether the projection is showing once it has seen it. */
  function Flags(mode: Mode, rows: seq<Record>): (flags: seq<bool>)
    ensures |flags| == |rows|
    decreases |rows|
  {
    if rows == [] then [] else [Seen(mode, rows[0]).active] + Flags(Seen(mode, rows[0]), rows[1..])
  }

  lemma {:induction false} FlagsJoin(mode: Mode, a: seq<Record>, b: seq<Record>)
    ensures End(mode, a + b) == End(End(mode, a), b)
    ensures Flags(mode, a + b) == Flags(mode, a) + Flags(End(mode, a), b)
    decreases |a|
  {
    if a == [] {
      assert a + b == b;
    } else {
      assert (a + b)[1..] == a[1..] + b;
      FlagsJoin(Seen(mode, a[0]), a[1..], b);
    }
  }

  // ---------------------------------------------------------------- the order that a revert cuts

  /** A message of the session that the revert names. */
  predicate IsBoundary(db: Db, s: Session, b: Message) {
    s.revert.Some? && b in db.messages && b.id == s.revert.value.message && b.session == s.id
  }

  /** The part comes before the revert's message, or before its part in the same message. */
  ghost predicate Precedes(db: Db, s: Session, m: Message, p: Part) {
    s.revert.Some? ==>
      if m.id == s.revert.value.message then s.revert.value.part.Some? && p.id < s.revert.value.part.value
      else exists b :: IsBoundary(db, s, b) && After(b, m.time, m.id)
  }

  /** The message comes before the revert's message, or is that message and keeps some parts. */
  ghost predicate Stays(db: Db, s: Session, m: Message) {
    s.revert.Some? ==>
      if m.id == s.revert.value.message then s.revert.value.part.Some?
      else exists b :: IsBoundary(db, s, b) && After(b, m.time, m.id)
  }

  /** The flag of every part row says whether the part precedes the boundary, and that of a message
    * row whether the message does. */
  ghost predicate Flagged(db: Db, s: Session, r: Record, flag: bool) {
    match r
    case SessionRow(_) => true
    case MessageRow(m) => m in db.messages && m.session == s.id ==> (flag <==> Stays(db, s, m))
    case PartRow(p, _) =>
      forall m :: m in db.messages && m.session == s.id && m.id == p.message ==> (flag <==> Precedes(db, s, m, p))
  }

  ghost predicate AllFlagged(db: Db, s: Session, rows: seq<Record>, flags: seq<bool>)
    requires |rows| == |flags|
  {
    forall k :: 0 <= k < |rows| ==> Flagged(db, s, rows[k], flags[k])
  }

  lemma FlaggedJoin(db: Db, s: Session, a: seq<Record>, fa: seq<bool>, b: seq<Record>, fb: seq<bool>)
    requires |a| == |fa| && |b| == |fb| && AllFlagged(db, s, a, fa) && AllFlagged(db, s, b, fb)
    ensures AllFlagged(db, s, a + b, fa + fb)
  {
    hide Flagged;
  }

  // ---------------------------------------------------------------- parts of one message

  /** Without a boundary part to meet, all parts keep the message's flag. */
  lemma {:induction false} PartsKeep(mode: Mode, rows: seq<Record>)
    requires forall k :: 0 <= k < |rows| ==> rows[k].PartRow? && mode.boundary != Some(rows[k].p.id)
    ensures End(mode, rows) == mode && forall k :: 0 <= k < |rows| ==> Flags(mode, rows)[k] == mode.active
    decreases |rows|
  {
    if rows != [] {
      assert Seen(mode, rows[0]) == mode;
      PartsKeep(mode, rows[1..]);
    }
  }

  /** Behind the boundary part nothing is active. */
  lemma {:induction false} PartsStop(mode: Mode, rows: seq<Record>)
    requires !mode.active && forall k :: 0 <= k < |rows| ==> rows[k].PartRow?
    ensures End(mode, rows) == mode && forall k :: 0 <= k < |rows| ==> !Flags(mode, rows)[k]
    decreases |rows|
  {
    if rows != [] {
      assert Seen(mode, rows[0]) == mode;
      PartsStop(mode, rows[1..]);
    }
  }

  lemma {:induction false} PartsCut(mode: Mode, rows: seq<Record>, at: nat)
    requires mode.active && at < |rows| && forall k :: 0 <= k < |rows| ==> rows[k].PartRow?
    requires mode.boundary == Some(rows[at].p.id)
    requires forall k :: 0 <= k < at ==> rows[k].p.id != rows[at].p.id
    ensures End(mode, rows) == mode.(active := false)
    ensures forall k :: 0 <= k < |rows| ==> (Flags(mode, rows)[k] <==> k < at)
    decreases |rows|
  {
    if at == 0 {
      PartsStop(mode.(active := false), rows[1..]);
    } else {
      assert Seen(mode, rows[0]) == mode;
      PartsCut(mode, rows[1..], at - 1);
    }
  }

  /** The flag that every part of `m` should have, as far as its id decides it. */
  predicate Showing(s: Session, m: Message, mode: Mode, p: Part) {
    if s.revert.Some? && m.id == s.revert.value.message then
      s.revert.value.part.Some? && p.id < s.revert.value.part.value
    else !mode.pastRevert
  }

  lemma PartFlags(db: Db, s: Session, m: Message, mode: Mode)
    requires RowsById(db) && m.session == s.id && mode.session == s && RevertResolved(db, s)
    requires s.revert.Some? && s.revert.value.part.Some? ==> s.revert.value.part.value > 0
    ensures var ps, next := PartsFrom(db.parts, m.id, 0), Seen(mode, MessageRow(m));
            var parts := PartRows(ps, m.session);
            && (forall k :: 0 <= k < |parts| ==> (Flags(next, parts)[k] <==> Showing(s, m, mode, ps[k])))
            && End(next, parts).session == s && End(next, parts).pastRevert == next.pastRevert
  {
    var ps := PartsFrom(db.parts, m.id, 0);
    var parts, next := PartRows(ps, m.session), Seen(mode, MessageRow(m));
    PartsListed(db.parts, m.id, 0);
    if s.revert.Some? && m.id == s.revert.value.message && s.revert.value.part.Some? {
      var at := BoundaryPart(db, s, m);
      PartsCut(next, parts, at);
    } else if s.revert.Some? && m.id == s.revert.value.message {
      PartsStop(next, parts);
    } else {
      PartsKeep(next, parts);
    }
  }

  lemma ShowingPrecedes(db: Db, s: Session, m: Message, mode: Mode, r: Record, flag: bool)
    requires RowsById(db) && m in db.messages && m.session == s.id && r.PartRow? && r.p.message == m.id
    requires s.revert.Some? && m.id != s.revert.value.message ==>
               (!mode.pastRevert <==> exists b :: IsBoundary(db, s, b) && After(b, m.time, m.id))
    requires s.revert.None? ==> !mode.pastRevert
    requires flag <==> Showing(s, m, mode, r.p)
    ensures Flagged(db, s, r, flag)
  {
  }

  /** One message and its parts. */
  lemma MessageFlagged(db: Db, s: Session, m: Message, mode: Mode)
    requires RowsById(db) && m in db.messages && m.session == s.id && mode.session == s && RevertResolved(db, s)
    requires s.revert.Some? && s.revert.value.part.Some? ==> s.revert.value.part.value > 0
    requires s.revert.Some? && m.id != s.revert.value.message ==>
               (!mode.pastRevert <==> exists b :: IsBoundary(db, s, b) && After(b, m.time, m.id))
    requires s.revert.None? ==> !mode.pastRevert
    ensures var rows := [MessageRow(m)] + PartRows(PartsFrom(db.parts, m.id, 0), m.session);
            && AllFlagged(db, s, rows, Flags(mode, rows)) && End(mode, rows).session == s
            && (End(mode, rows).pastRevert <==> mode.pastRevert || (s.revert.Some? && m.id == s.revert.value.message))
  {
    hide RowsById, RevertResolved, Showing, Precedes, PartsFrom, IsBoundary;
    var ps, next := PartsFrom(db.parts, m.id, 0), Seen(mode, MessageRow(m));
    var parts := PartRows(ps, m.session);
    PartFlags(db, s, m, mode);
    PartsOfMessage(db, m);
    forall k | 0 <= k < |parts|
      ensures Flagged(db, s, parts[k], Flags(next, parts)[k])
    {
      ShowingPrecedes(db, s, m, mode, parts[k], Flags(next, parts)[k]);
    }
    assert ([MessageRow(m)] + parts)[1..] == parts;
    assert Flagged(db, s, MessageRow(m), next.active);
    FlaggedJoin(db, s, [MessageRow(m)], [next.active], parts, Flags(next, parts));
  }

  lemma PartsOfMessage(db: Db, m: Message)
    requires RowsById(db)
    ensures forall k :: 0 <= k < |PartsFrom(db.parts, m.id, 0)| ==> PartsFrom(db.parts, m.id, 0)[k].message == m.id
  {
    PartsListed(db.parts, m.id, 0);
    forall k | 0 <= k < |PartsFrom(db.parts, m.id, 0)|
      ensures PartsFrom(db.parts, m.id, 0)[k].message == m.id
    {
      assert PartsFrom(db.parts, m.id, 0)[k] in PartsFrom(db.parts, m.id, 0);
    }
  }

  /** The boundary part is among the parts of the boundary message. */
  lemma BoundaryPart(db: Db, s: Session, m: Message) returns (at: nat)
    requires RowsById(db) && RevertResolved(db, s) && s.revert.Some? && s.revert.value.part.Some?
             && m.id == s.revert.value.message
    requires s.revert.value.part.value > 0
    ensures at < |PartsFrom(db.parts, m.id, 0)| && PartsFrom(db.parts, m.id, 0)[at].id == s.revert.value.part.value
  {
    PartsListed(db.parts, m.id, 0);
    var i :| 0 <= i < |db.parts| && db.parts[i].id == s.revert.value.part.value && db.parts[i].message == m.id;
    assert PartFollows(db.parts[i], m.id, 0);
    assert db.parts[i] in PartsFrom(db.parts, m.id, 0);
    at :| 0 <= at < |PartsFrom(db.parts, m.id, 0)| && PartsFrom(db.parts, m.id, 0)[at] == db.parts[i];
  }

  // ---------------------------------------------------------------- one session

  ghost predicate Listed(db: Db, s: Session, ms: seq<Message>) {
    MessagesRise(ms) && forall k :: 0 <= k < |ms| ==> ms[k] in db.messages && ms[k].session == s.id
  }

  /** Before the boundary it is still to come; behind it no message is before it. */
  ghost predicate PastOk(db: Db, s: Session, ms: seq<Message>, past: bool) {
    if s.revert.None? then !past
    else if past then
      forall k, b :: 0 <= k < |ms| && IsBoundary(db, s, b) ==> ms[k].id != b.id && !After(b, ms[k].time, ms[k].id)
    else exists k :: 0 <= k < |ms| && ms[k].id == s.revert.value.message
  }

  lemma PastHead(db: Db, s: Session, ms: seq<Message>, past: bool)
    requires RowsById(db) && Listed(db, s, ms) && ms != [] && PastOk(db, s, ms, past)
    ensures s.revert.Some? && ms[0].id != s.revert.value.message ==>
              (!past <==> exists b :: IsBoundary(db, s, b) && After(b, ms[0].time, ms[0].id))
    ensures s.revert.None? ==> !past
    ensures Listed(db, s, ms[1..])
    ensures PastOk(db, s, ms[1..], past || (s.revert.Some? && ms[0].id == s.revert.value.message))
  {
    var m, rest := ms[0], ms[1..];
    if s.revert.Some? && !past {
      var k :| 0 <= k < |ms| && ms[k].id == s.revert.value.message;
      if k == 0 {
        BoundaryPassed(db, s, ms);
      } else {
        assert IsBoundary(db, s, ms[k]) && After(ms[k], m.time, m.id);
        assert rest[k - 1] == ms[k];
        assert m.id != s.revert.value.message by {
          assert ms[k] in db.messages && m in db.messages;
        }
      }
    }
  }

  lemma BoundaryPassed(db: Db, s: Session, ms: seq<Message>)
    requires RowsById(db) && Listed(db, s, ms) && ms != [] && s.revert.Some? && ms[0].id == s.revert.value.message
    ensures PastOk(db, s, ms[1..], true)
  {
    forall k, b | 0 <= k < |ms[1..]| && IsBoundary(db, s, b)
      ensures ms[1..][k].id != b.id && !After(b, ms[1..][k].time, ms[1..][k].id)
    {
      assert ms[0] in db.messages && b == ms[0];
      assert After(ms[k + 1], ms[0].time, ms[0].id);
      assert ms[k + 1] in db.messages;
    }
  }

  /** The revert names a part with a valid id, if it names one. */
  predicate RevertValid(s: Session) {
    s.revert.Some? && s.revert.value.part.Some? ==> s.revert.value.part.value > 0
  }

  lemma {:induction false} MessagesFlagged(db: Db, s: Session, ms: seq<Message>, mode: Mode)
    requires RowsById(db) && RevertResolved(db, s) && RevertValid(s) && mode.session == s
    requires Listed(db, s, ms) && PastOk(db, s, ms, mode.pastRevert)
    ensures AllFlagged(db, s, MessageRows(db, ms), Flags(mode, MessageRows(db, ms)))
    decreases |ms|
  {
    hide RowsById, Listed, PastOk, Flagged, Seen, RevertResolved;
    if ms != [] {
      PastHead(db, s, ms, mode.pastRevert);
      ListedFirst(db, s, ms);
      MessageFlagged(db, s, ms[0], mode);
      var rows, rest :=
        [MessageRow(ms[0])] + PartRows(PartsFrom(db.parts, ms[0].id, 0), ms[0].session), MessageRows(db, ms[1..]);
      FlagsJoin(mode, rows, rest);
      MessagesFlagged(db, s, ms[1..], End(mode, rows));
      FlaggedJoin(db, s, rows, Flags(mode, rows), rest, Flags(End(mode, rows), rest));
    }
  }

  lemma ListedFirst(db: Db, s: Session, ms: seq<Message>)
    requires Listed(db, s, ms) && ms != []
    ensures ms[0] in db.messages && ms[0].session == s.id
  {
  }

  lemma SessionFlagged(db: Db, family: seq<Session>, k: nat, mode: Mode)
    requires RowsById(db) && Sound(db, family) && k < |family| && Supported(db, family[k])
    ensures var rows := SessionRows(db, family[k]); AllFlagged(db, family[k], rows, Flags(mode, rows))
  {
    hide MessageRows, MessagesFrom, AdmittedRows, RowsById;
    var s := family[k];
    var ms, next := MessagesFrom(db.messages, s.id, -1, 0), Seen(mode, SessionRow(s));
    RowsByIdMessages(db);
    MessagesListed(db.messages, s.id, -1, 0);
    forall i | 0 <= i < |ms|
      ensures ms[i] in db.messages && ms[i].session == s.id
    {
      assert ms[i] in ms;
    }
    if s.revert.Some? {
      var j :| 0 <= j < |db.messages| && db.messages[j].id == s.revert.value.message && db.messages[j].session == s.id;
      MessageAdmitted(db, family, k, db.messages[j]);
      assert Follows(db.messages[j], s.id, -1, 0);
      assert db.messages[j] in ms;
      if s.revert.value.part.Some? {
        var i :| 0 <= i < |db.parts| && db.parts[i].id == s.revert.value.part.value && db.parts[i].session == s.id;
        PartAdmitted(db, family, k, db.parts[i]);
      }
    }
    MessagesFlagged(db, s, ms, next);
    var rest := MessageRows(db, ms);
    assert ([SessionRow(s)] + rest)[1..] == rest;
    FlaggedJoin(db, s, [SessionRow(s)], [next.active], rest, Flags(next, rest));
  }

  lemma RowsByIdMessages(db: Db)
    requires RowsById(db)
    ensures forall a, b :: a in db.messages && b in db.messages && a.id == b.id ==> a == b
  {
  }

  // ---------------------------------------------------------------- the whole family

  ghost predicate FlaggedIn(db: Db, family: seq<Session>, r: Record, flag: bool) {
    forall k :: 0 <= k < |family| && SessionOf(r) == family[k].id ==> Flagged(db, family[k], r, flag)
  }

  ghost predicate FamilyFlagged(db: Db, family: seq<Session>, rows: seq<Record>, flags: seq<bool>)
    requires |rows| == |flags|
  {
    forall k :: 0 <= k < |rows| ==> FlaggedIn(db, family, rows[k], flags[k])
  }

  lemma FamilyFlaggedJoin(db: Db, family: seq<Session>, a: seq<Record>, fa: seq<bool>, b: seq<Record>, fb: seq<bool>)
    requires |a| == |fa| && |b| == |fb| && FamilyFlagged(db, family, a, fa) && FamilyFlagged(db, family, b, fb)
    ensures FamilyFlagged(db, family, a + b, fa + fb)
  {
    hide FlaggedIn;
  }

  lemma SessionFlagsIn(db: Db, family: seq<Session>, n: nat, r: Record, flag: bool)
    requires SessionsDiffer(family) && n < |family| && SessionOf(r) == family[n].id && Flagged(db, family[n], r, flag)
    ensures FlaggedIn(db, family, r, flag)
  {
    hide Flagged;
  }

  /** Main result. Whatever the projection's state was before, over the rows of a sound family it
    * shows a part exactly if the part precedes the revert boundary of its own session, in the order
    * of time, message id and part id, and a message exactly if it does or keeps some of its parts. */
  lemma {:induction false} RevertCutsPrefix(db: Db, family: seq<Session>, n: nat, mode: Mode)
    requires RowsById(db) && SessionsDiffer(family) && Sound(db, family)
             && forall k :: 0 <= k < |family| ==> Supported(db, family[k])
    ensures FamilyFlagged(db, family, FamilyRows(db, family, n), Flags(mode, FamilyRows(db, family, n)))
    decreases |family| - n
  {
    hide RowsById, Sound, Supported, FlaggedIn, Flagged, SessionRows, Seen, SessionsDiffer;
    if n < |family| {
      var first, rest := SessionRows(db, family[n]), FamilyRows(db, family, n + 1);
      SessionFlagged(db, family, n, mode);
      FlagsJoin(mode, first, rest);
      RevertCutsPrefix(db, family, n + 1, End(mode, first));
      forall k | 0 <= k < |first|
        ensures FlaggedIn(db, family, first[k], Flags(mode, first)[k])
      {
        assert first[k] in first;
        SessionRowsOf(db, family[n], first[k]);
        SessionFlagsIn(db, family, n, first[k], Flags(mode, first)[k]);
      }
      FamilyFlaggedJoin(db, family, first, Flags(mode, first), rest, Flags(End(mode, first), rest));
    }
  }
}
