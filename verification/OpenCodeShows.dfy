/** What an OpenCode capture shows and what it refuses, read off the listed rows: a part belongs to
  * the message row before it, and yields what its draft says unless a revert took it. */
module OpenCodeShows {
  import opened Base
  import opened OpenCodeSource
  import opened OpenCodeWalk
  import opened OpenCodeCoverage
  import opened OpenCodeRevert
  import opened OpenCodeCapture

  // ---------------------------------------------------------------- loading a session

  lemma {:induction false} FoundIsOnly(rows: seq<Session>, k: nat)
    requires k < |rows| && forall i :: 0 <= i < |rows| && i != k ==> rows[i].id != rows[k].id
    ensures FindSession(rows, rows[k].id) == Some(rows[k])
  {
    if k > 0 {
      FoundIsOnly(rows[1..], k - 1);
    }
  }

  /** A session loads exactly if its id is valid and its one row is there and sound. */
  lemma LoadedExactly(db: Db, id: nat, s: Session)
    requires Keyed(db)
    ensures Load(db, id) == Ok(s) <==> id != 0 && s in db.sessions && s.id == id && s.sound
  {
    if s in db.sessions && s.id == id {
      var k :| 0 <= k < |db.sessions| && db.sessions[k] == s;
      FoundIsOnly(db.sessions, k);
    }
  }

  // ---------------------------------------------------------------- admitted and walked rows

  /** A message of this session has this id. */
  predicate Holds(db: Db, session: Session, message: nat, m: Message) {
    m in db.messages && m.id == message && m.session == session.id
  }

  /** A session is admitted exactly if it is not of the second schema, each of its parts belongs to one
    * of its messages, and its revert names one of its messages and, if any, a part of that message. */
  lemma SupportedExactly(db: Db, s: Session)
    ensures Supported(db, s) <==>
            && !s.v2
            && (forall p :: p in db.parts && p.session == s.id ==> exists m :: Holds(db, s, p.message, m))
            && (s.revert.Some? ==>
                  && (exists m :: Holds(db, s, s.revert.value.message, m))
                  && (s.revert.value.part.Some? ==>
                        exists p :: p in db.parts && p.id == s.revert.value.part.value
                                    && p.message == s.revert.value.message && p.session == s.id))
  {
    forall id: nat
      ensures HasMessage(db.messages, id, s.id) <==> exists m :: Holds(db, s, id, m)
    {
      if m :| Holds(db, s, id, m) {
        var k :| 0 <= k < |db.messages| && db.messages[k] == m;
      }
      if HasMessage(db.messages, id, s.id) {
        var k :| 0 <= k < |db.messages| && db.messages[k].id == id && db.messages[k].session == s.id;
        assert Holds(db, s, id, db.messages[k]);
      }
    }
    assert forall k :: 0 <= k < |db.parts| ==> db.parts[k] in db.parts;
  }

  /** The rows of the session itself, its messages and their parts are sound, with valid ids and
    * times, and no part under them is of another session. */
  ghost predicate RowsPass(db: Db, s: Session) {
    && s.sound
    && (forall m :: m in db.messages && m.session == s.id ==> m.id > 0 && m.time >= 0 && m.sound)
    && (forall p :: p in db.parts && p.session == s.id ==> p.id > 0 && p.sound)
    && (forall p, m :: p in db.parts && p.id > 0 && Holds(db, s, p.message, m) ==> p.session == s.id)
  }

  /** The rows that admission counts for a session: its own, its messages and its parts. */
  predicate Counts(db: Db, s: Session, r: Record) {
    match r
    case SessionRow(t) => t == s
    case MessageRow(m) => m in db.messages && m.session == s.id
    case PartRow(p, under) => p in db.parts && p.session == s.id && under == s.id
  }

  lemma CountsExactly(db: Db, s: Session, r: Record)
    ensures r in AdmittedOf(db, s) <==> Counts(db, s, r)
  {
  }

  lemma SessionPasses(db: Db, s: Session)
    ensures (forall r :: Counts(db, s, r) ==> Healthy(r)) <==>
            && s.sound
            && (forall m :: m in db.messages && m.session == s.id ==> m.id > 0 && m.time >= 0 && m.sound)
            && (forall p :: p in db.parts && p.session == s.id ==> p.id > 0 && p.sound)
  {
    if forall r :: Counts(db, s, r) ==> Healthy(r) {
      assert Counts(db, s, SessionRow(s));
      forall m | m in db.messages && m.session == s.id
        ensures m.id > 0 && m.time >= 0 && m.sound
      {
        assert Counts(db, s, MessageRow(m));
      }
      forall p | p in db.parts && p.session == s.id
        ensures p.id > 0 && p.sound
      {
        assert Counts(db, s, PartRow(p, s.id));
      }
    }
  }

  lemma ForeignExactly(db: Db, s: Session, p: Part)
    ensures HasMessage(db.messages, p.message, s.id) <==> exists m :: Holds(db, s, p.message, m)
  {
    if m :| Holds(db, s, p.message, m) {
      var k :| 0 <= k < |db.messages| && db.messages[k] == m;
    }
    if HasMessage(db.messages, p.message, s.id) {
      var k :| 0 <= k < |db.messages| && db.messages[k].id == p.message && db.messages[k].session == s.id;
      assert Holds(db, s, p.message, db.messages[k]);
    }
  }

  lemma SoundExactly(db: Db, family: seq<Session>)
    ensures Sound(db, family) <==> forall k :: 0 <= k < |family| ==> RowsPass(db, family[k])
  {
    hide AdmittedRows, AdmittedOf, Healthy, HasMessage, Holds;
    forall k | 0 <= k < |family|
      ensures (forall r :: Counts(db, family[k], r) ==> Healthy(r)) <==>
              && family[k].sound
              && (forall m :: m in db.messages && m.session == family[k].id ==> m.id > 0 && m.time >= 0 && m.sound)
              && (forall p :: p in db.parts && p.session == family[k].id ==> p.id > 0 && p.sound)
    {
      SessionPasses(db, family[k]);
    }
    hide Counts;
    forall r
      ensures r in AdmittedRows(db, family) <==> exists k :: 0 <= k < |family| && Counts(db, family[k], r)
    {
      AdmittedMember(db, family, r);
      forall k | 0 <= k < |family|
        ensures r in AdmittedOf(db, family[k]) <==> Counts(db, family[k], r)
      {
        CountsExactly(db, family[k], r);
      }
    }
    forall p, k | p in db.parts && 0 <= k < |family|
      ensures HasMessage(db.messages, p.message, family[k].id) <==> exists m :: Holds(db, family[k], p.message, m)
    {
      ForeignExactly(db, family[k], p);
    }
  }

  /** For an admitted family both passes meet the admitted counts exactly if the rows of each of its
    * sessions pass. */
  lemma SucceedsOnRows(db: Db, family: seq<Session>)
    requires Keyed(db) && SessionsDiffer(family) && forall k :: 0 <= k < |family| ==> Supported(db, family[k])
    ensures Succeeds(db, family) <==> forall k :: 0 <= k < |family| ==> RowsPass(db, family[k])
  {
    hide Succeeds, Sound, RowsPass, Supported;
    SucceedsExactly(db, family);
    SoundExactly(db, family);
  }

  // ---------------------------------------------------------------- the rows above a row

  /** Row `j` is the message that row `k` comes under. */
  predicate UnderMessage(rows: seq<Record>, k: nat, j: nat) {
    j < k <= |rows| && rows[j].MessageRow? && forall i :: j < i < k ==> rows[i].PartRow?
  }

  /** Row `j` is the session that row `k` comes under. */
  predicate UnderSession(rows: seq<Record>, k: nat, j: nat) {
    j < k <= |rows| && rows[j].SessionRow? && forall i :: j < i < k ==> !rows[i].SessionRow?
  }

  ghost predicate ModeRead(mode: Mode, rows: seq<Record>, k: nat) {
    && (exists j: nat :: UnderSession(rows, k, j))
    && (forall j: nat :: UnderSession(rows, k, j) ==> mode.session == rows[j].s)
    && (forall j: nat :: UnderMessage(rows, k, j) ==> mode.message == Some(rows[j].m))
    && (mode.message.Some? ==> exists j: nat :: UnderMessage(rows, k, j))
  }

  /** A message that is shown has a known role; a part comes under its own message in its own
    * session, and has a draft if it is shown. */
  ghost predicate RowFits(rows: seq<Record>, flags: seq<bool>, k: nat, rules: Rules)
    requires k < |rows| == |flags|
  {
    match rows[k]
    case SessionRow(_) => true
    case MessageRow(m) => flags[k] ==> rules.roleOk(m)
    case PartRow(p, _) =>
      exists j: nat, i: nat :: UnderMessage(rows, k, j) && UnderSession(rows, k, i)
                               && rows[j].m.id == p.message && rows[i].s.id == p.session
                               && (flags[k] ==> rules.draft(rows[j].m, p).Some?)
  }

  /** What a row yields. */
  ghost function Yield(rows: seq<Record>, flags: seq<bool>, k: nat, rules: Rules): Draft
    requires k < |rows| == |flags|
  {
    if rows[k].PartRow? && flags[k] && exists j: nat :: UnderMessage(rows, k, j) then
      var j: nat :| UnderMessage(rows, k, j);
      var d := rules.draft(rows[j].m, rows[k].p);
      if d.Some? then d.value else Draft(0, 0)
    else Draft(0, 0)
  }

  lemma OneMessage(rows: seq<Record>, k: nat, i: nat, j: nat)
    requires UnderMessage(rows, k, i) && UnderMessage(rows, k, j)
    ensures i == j
  {
  }

  lemma OneSession(rows: seq<Record>, k: nat, i: nat, j: nat)
    requires UnderSession(rows, k, i) && UnderSession(rows, k, j)
    ensures i == j
  {
  }

  lemma SessionNext(rows: seq<Record>, k: nat, j: nat)
    requires k < |rows|
    ensures UnderSession(rows, k + 1, j) <==>
            (j == k && rows[k].SessionRow?) || (UnderSession(rows, k, j) && !rows[k].SessionRow?)
  {
  }

  lemma MessageNext(rows: seq<Record>, k: nat, j: nat)
    requires k < |rows|
    ensures UnderMessage(rows, k + 1, j) <==>
            (j == k && rows[k].MessageRow?) || (UnderMessage(rows, k, j) && rows[k].PartRow?)
  {
  }

  lemma ModeNext(mode: Mode, rows: seq<Record>, k: nat)
    requires k < |rows| && (ModeRead(mode, rows, k) || rows[k].SessionRow?)
    ensures var m := k + 1; ModeRead(Seen(mode, rows[k]), rows, m)
  {
    var m, next := k + 1, Seen(mode, rows[k]);
    forall j: nat
      ensures UnderSession(rows, m, j) <==>
              (j == k && rows[k].SessionRow?) || (UnderSession(rows, k, j) && !rows[k].SessionRow?)
    {
      SessionNext(rows, k, j);
    }
    forall j: nat
      ensures UnderMessage(rows, m, j) <==>
              (j == k && rows[k].MessageRow?) || (UnderMessage(rows, k, j) && rows[k].PartRow?)
    {
      MessageNext(rows, k, j);
    }
    hide UnderSession, UnderMessage;
    if rows[k].SessionRow? {
      assert UnderSession(rows, m, k);
    } else {
      var j: nat :| UnderSession(rows, k, j);
      assert UnderSession(rows, m, j);
      if rows[k].MessageRow? {
        assert UnderMessage(rows, m, k);
      } else if mode.message.Some? {
        var i: nat :| UnderMessage(rows, k, i);
        assert UnderMessage(rows, m, i);
      }
    }
  }

  // ---------------------------------------------------------------- one row

  /** The flag of row `k`, and the mode that the rows before it leave. */
  ghost predicate Stands(c: Cut, rows: seq<Record>, flags: seq<bool>, k: nat)
    requires k < |rows| == |flags|
  {
    (ModeRead(c.mode, rows, k) || rows[k].SessionRow?) && (flags[k] <==> Seen(c.mode, rows[k]).active)
  }

  lemma RowExactly(c: Cut, rows: seq<Record>, flags: seq<bool>, k: nat, rules: Rules)
    requires k < |rows| == |flags| && Stands(c, rows, flags, k)
    requires c.events <= rules.events && c.usage <= rules.usage
    ensures Project(c, rows[k], rules).Ok? <==>
            RowFits(rows, flags, k, rules)
            && c.events + Yield(rows, flags, k, rules).events <= rules.events
            && c.usage + Yield(rows, flags, k, rules).usage <= rules.usage
    ensures Project(c, rows[k], rules).Ok? ==>
              var r, y := Project(c, rows[k], rules).value, Yield(rows, flags, k, rules);
              && r.0 == Frame(rows[k], c.events, y.events, y.usage)
              && r.1 == Cut(Seen(c.mode, rows[k]), c.events + y.events, c.usage + y.usage)
  {
    if rows[k].PartRow? {
      assert ModeRead(c.mode, rows, k);
      var i: nat :| UnderSession(rows, k, i);
      if c.mode.message.Some? {
        var j: nat :| UnderMessage(rows, k, j);
        forall l: nat | UnderMessage(rows, k, l)
          ensures l == j
        {
          OneMessage(rows, k, l, j);
        }
        forall l: nat | UnderSession(rows, k, l)
          ensures l == i
        {
          OneSession(rows, k, l, i);
        }
      }
    }
    hide UnderMessage, UnderSession;
  }

  // ---------------------------------------------------------------- all rows

  ghost function Yielded(rows: seq<Record>, flags: seq<bool>, from: nat, to: nat, rules: Rules): Draft
    requires from <= to <= |rows| == |flags|
    decreases |rows| - from
  {
    if from == to then Draft(0, 0)
    else
      var y, rest := Yield(rows, flags, from, rules), Yielded(rows, flags, from + 1, to, rules);
      Draft(y.events + rest.events, y.usage + rest.usage)
  }

  lemma {:induction false} RowsExactly(c: Cut, rows: seq<Record>, flags: seq<bool>, k: nat, rules: Rules)
    requires k <= |rows| == |flags| && flags[k..] == Flags(c.mode, rows[k..])
    requires k < |rows| ==> ModeRead(c.mode, rows, k) || rows[k].SessionRow?
    requires c.events <= rules.events && c.usage <= rules.usage
    ensures var r := ProjectAll(c, rows[k..], rules); var y := Yielded(rows, flags, k, |rows|, rules);
            && (r.Ok? <==>
                  (forall i :: k <= i < |rows| ==> RowFits(rows, flags, i, rules))
                  && c.events + y.events <= rules.events && c.usage + y.usage <= rules.usage)
            && (r.Ok? ==>
                  && r.value.1.events == c.events + y.events && r.value.1.usage == c.usage + y.usage
                  && |r.value.0| == |rows| - k
                  && forall i :: k <= i < |rows| ==>
                       var before := Yielded(rows, flags, k, i, rules);
                       var own := Yield(rows, flags, i, rules);
                       r.value.0[i - k] == Frame(rows[i], c.events + before.events, own.events, own.usage))
    decreases |rows| - k
  {
    hide Project, RowFits, Yield, Seen, ModeRead;
    if k < |rows| {
      var m, rest := k + 1, rows[k..][1..];
      assert rest == rows[m..] && rows[k..][0] == rows[k];
      assert Flags(c.mode, rows[k..]) == [Seen(c.mode, rows[k]).active] + Flags(Seen(c.mode, rows[k]), rest);
      assert flags[k..][0] == flags[k] && flags[m..] == flags[k..][1..];
      RowExactly(c, rows, flags, k, rules);
      ModeNext(c.mode, rows, k);
      if Project(c, rows[k], rules).Ok? {
        RowsExactly(Project(c, rows[k], rules).value.1, rows, flags, m, rules);
      }
    }
  }

  /** A capture of rows that begin with a session succeeds exactly if each row fits the rows above
    * it and the yields of the shown parts stay within the budgets. Then row `k` has one frame with
    * exactly its yield, numbered behind those before it. */
  lemma CapturedExactly(root: Session, rows: seq<Record>, rules: Rules)
    requires rows != [] ==> rows[0].SessionRow?
    ensures var flags := Flags(Reset(root).mode, rows);
            var r, y := ProjectAll(Reset(root), rows, rules), Yielded(rows, flags, 0, |rows|, rules);
            && (r.Ok? <==>
                  (forall i :: 0 <= i < |rows| ==> RowFits(rows, flags, i, rules))
                  && y.events <= rules.events && y.usage <= rules.usage)
            && (r.Ok? ==>
                  && r.value.1.events == y.events && r.value.1.usage == y.usage && |r.value.0| == |rows|
                  && forall i :: 0 <= i < |rows| ==>
                       var own := Yield(rows, flags, i, rules);
                       r.value.0[i]
                       == Frame(rows[i], Yielded(rows, flags, 0, i, rules).events, own.events, own.usage))
  {
    var flags := Flags(Reset(root).mode, rows);
    assert rows[0..] == rows && flags[0..] == flags;
    RowsExactly(Reset(root), rows, flags, 0, rules);
    hide RowFits, Yield, ProjectAll;
  }
}
