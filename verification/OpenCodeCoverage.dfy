/** What a successful OpenCode traversal covers: the count check at its end holds exactly when every
  * admitted row was emitted once. */
module OpenCodeCoverage {
  import opened Base
  import opened OpenCodeSource
  import opened OpenCodeWalk

  // ---------------------------------------------------------------- the admitted rows

  function MessageRecords(rows: seq<Message>, session: nat): (r: seq<Record>)
    ensures |r| == CountMessages(rows, session)
    ensures forall x :: x in r <==> x.MessageRow? && x.m in rows && x.m.session == session
  {
    if rows == [] then []
    else (if rows[0].session == session then [MessageRow(rows[0])] else []) + MessageRecords(rows[1..], session)
  }

  function PartRecords(rows: seq<Part>, session: nat): (r: seq<Record>)
    ensures |r| == CountParts(rows, session)
    ensures forall x :: x in r <==> x.PartRow? && x.p in rows && x.p.session == session && x.under == session
  {
    if rows == [] then []
    else (if rows[0].session == session then [PartRow(rows[0], session)] else []) + PartRecords(rows[1..], session)
  }

  function AdmittedOf(db: Db, s: Session): seq<Record> {
    [SessionRow(s)] + MessageRecords(db.messages, s.id) + PartRecords(db.parts, s.id)
  }

  /** The rows that admission counted, session by session. */
  function AdmittedRows(db: Db, family: seq<Session>): seq<Record> {
    if family == [] then [] else AdmittedRows(db, family[..|family| - 1]) + AdmittedOf(db, family[|family| - 1])
  }

  lemma {:induction false} AdmittedLength(db: Db, family: seq<Session>)
    ensures |AdmittedRows(db, family)| == Admitted(db, family)
  {
    if family != [] {
      AdmittedLength(db, family[..|family| - 1]);
    }
  }

  lemma {:induction false} AdmittedMember(db: Db, family: seq<Session>, r: Record)
    ensures r in AdmittedRows(db, family) <==> exists k :: 0 <= k < |family| && r in AdmittedOf(db, family[k])
  {
    hide AdmittedOf;
    if family != [] {
      var init := family[..|family| - 1];
      AdmittedMember(db, init, r);
      if exists k :: 0 <= k < |init| && r in AdmittedOf(db, init[k]) {
        var k :| 0 <= k < |init| && r in AdmittedOf(db, init[k]);
        assert family[k] == init[k];
      }
    }
  }

  // ---------------------------------------------------------------- listed rows are distinct

  function SessionOf(r: Record): nat {
    match r case SessionRow(s) => s.id case MessageRow(m) => m.session case PartRow(p, under) => under
  }

  ghost predicate Apart(a: seq<Record>, b: seq<Record>) {
    forall i, j :: 0 <= i < |a| && 0 <= j < |b| ==> a[i] != b[j]
  }

  lemma DistinctJoin(a: seq<Record>, b: seq<Record>)
    requires Distinct(a) && Distinct(b) && Apart(a, b)
    ensures Distinct(a + b)
  {
  }

  ghost predicate RowsById(db: Db) {
    && (forall a, b :: a in db.messages && b in db.messages && a.id == b.id ==> a == b)
    && forall a, b :: a in db.parts && b in db.parts && a.id == b.id ==> a == b
  }

  lemma KeyedRows(db: Db)
    requires Keyed(db)
    ensures RowsById(db)
  {
  }

  /** The rows of one message: itself or one of its parts. */
  predicate OfMessage(db: Db, r: Record, m: Message) {
    r == MessageRow(m) || (r.PartRow? && r.p in db.parts && r.p.message == m.id && r.p.id > 0 && r.under == m.session)
  }

  ghost predicate OfMessages(db: Db, r: Record, ms: seq<Message>) {
    exists k :: 0 <= k < |ms| && OfMessage(db, r, ms[k])
  }

  lemma {:induction false} MessageRowsOf(db: Db, ms: seq<Message>, r: Record)
    requires RowsById(db)
    ensures r in MessageRows(db, ms) <==> OfMessages(db, r, ms)
  {
    if ms != [] {
      MessageRowsOf(db, ms[1..], r);
      PartsListed(db.parts, ms[0].id, 0);
      PartRowsOf(PartsFrom(db.parts, ms[0].id, 0), ms[0].session, r);
      hide RowsById, PartsFrom;
      if OfMessages(db, r, ms) {
        var k :| 0 <= k < |ms| && OfMessage(db, r, ms[k]);
        assert k > 0 ==> ms[1..][k - 1] == ms[k];
      }
      if OfMessages(db, r, ms[1..]) {
        var k :| 0 <= k < |ms[1..]| && OfMessage(db, r, ms[1..][k]);
        assert ms[k + 1] == ms[1..][k];
      }
    }
  }

  lemma PartRowsOf(ps: seq<Part>, under: nat, r: Record)
    ensures r in PartRows(ps, under) <==> r.PartRow? && r.p in ps && r.under == under
  {
    if r.PartRow? && r.p in ps && r.under == under {
      var k :| 0 <= k < |ps| && ps[k] == r.p;
      assert PartRows(ps, under)[k] == r;
    }
  }

  ghost predicate IdsDiffer(ms: seq<Message>) {
    forall i, j :: 0 <= i < j < |ms| ==> ms[i].id != ms[j].id
  }

  lemma PartRowsDistinct(db: Db, m: Message)
    requires RowsById(db)
    ensures Distinct(PartRows(PartsFrom(db.parts, m.id, 0), m.session))
  {
    PartsListed(db.parts, m.id, 0);
  }

  lemma {:induction false} MessageRowsDistinct(db: Db, ms: seq<Message>)
    requires RowsById(db) && IdsDiffer(ms)
    ensures Distinct(MessageRows(db, ms))
  {
    hide PartsFrom, PartRows, RowsById;
    if ms != [] {
      var parts, rest := PartRows(PartsFrom(db.parts, ms[0].id, 0), ms[0].session), MessageRows(db, ms[1..]);
      MessageRowsDistinct(db, ms[1..]);
      var first := [MessageRow(ms[0])] + parts;
      PartRowsDistinct(db, ms[0]);
      forall j | 0 <= j < |parts|
        ensures parts[j] != MessageRow(ms[0])
      {
        assert parts[j] in parts;
        PartRowsOf(PartsFrom(db.parts, ms[0].id, 0), ms[0].session, parts[j]);
      }
      DistinctJoin([MessageRow(ms[0])], parts);
      forall i, j | 0 <= i < |first| && 0 <= j < |rest|
        ensures first[i] != rest[j]
      {
        assert first[i] in first && rest[j] in rest;
        FirstOf(db, ms[0], first[i]);
        RestOf(db, ms, rest[j]);
      }
      DistinctJoin(first, rest);
    }
  }

  function MessageIdOf(r: Record): nat {
    match r case SessionRow(s) => 0 case MessageRow(m) => m.id case PartRow(p, _) => p.message
  }

  lemma FirstOf(db: Db, m: Message, r: Record)
    requires RowsById(db) && r in [MessageRow(m)] + PartRows(PartsFrom(db.parts, m.id, 0), m.session)
    ensures MessageIdOf(r) == m.id
  {
    PartsListed(db.parts, m.id, 0);
    PartRowsOf(PartsFrom(db.parts, m.id, 0), m.session, r);
  }

  lemma RestOf(db: Db, ms: seq<Message>, r: Record)
    requires RowsById(db) && IdsDiffer(ms) && ms != [] && r in MessageRows(db, ms[1..])
    ensures MessageIdOf(r) != ms[0].id
  {
    MessageRowsOf(db, ms[1..], r);
    var k :| 0 <= k < |ms[1..]| && OfMessage(db, r, ms[1..][k]);
    assert ms[0].id != ms[k + 1].id;
  }

  lemma SessionRowsOf(db: Db, s: Session, r: Record)
    requires RowsById(db)
    ensures r in SessionRows(db, s) <==>
              r == SessionRow(s)
              || exists m :: m in db.messages && Follows(m, s.id, -1, 0) && OfMessage(db, r, m)
    ensures r in SessionRows(db, s) ==> SessionOf(r) == s.id
  {
    hide RowsById, MessagesFrom, MessageRows, OfMessage, Follows;
    var ms := MessagesFrom(db.messages, s.id, -1, 0);
    SessionMessages(db, s);
    MessageRowsOf(db, ms, r);
    if OfMessages(db, r, ms) {
      var k :| 0 <= k < |ms| && OfMessage(db, r, ms[k]);
      assert ms[k] in ms;
      MessageIsOf(db, r, ms[k], s.id);
    }
    if m :| m in db.messages && Follows(m, s.id, -1, 0) && OfMessage(db, r, m) {
      assert m in ms;
      var k :| 0 <= k < |ms| && ms[k] == m;
    }
  }

  lemma SessionMessages(db: Db, s: Session)
    requires RowsById(db)
    ensures forall m :: m in MessagesFrom(db.messages, s.id, -1, 0) <==> m in db.messages && Follows(m, s.id, -1, 0)
  {
    MessagesListed(db.messages, s.id, -1, 0);
  }

  lemma MessageIsOf(db: Db, r: Record, m: Message, id: nat)
    requires OfMessage(db, r, m) && Follows(m, id, -1, 0)
    ensures SessionOf(r) == id
  {
  }

  lemma SessionRowsDistinct(db: Db, s: Session)
    requires RowsById(db)
    ensures Distinct(SessionRows(db, s))
  {
    var ms := MessagesFrom(db.messages, s.id, -1, 0);
    MessagesListed(db.messages, s.id, -1, 0);
    forall i, j | 0 <= i < j < |ms|
      ensures ms[i].id != ms[j].id
    {
      assert ms[i] in ms && ms[j] in ms;
      assert After(ms[j], ms[i].time, ms[i].id);
    }
    MessageRowsDistinct(db, ms);
    var rest := MessageRows(db, ms);
    forall j | 0 <= j < |rest|
      ensures rest[j] != SessionRow(s)
    {
      MessageRowsOf(db, ms, rest[j]);
    }
    DistinctJoin([SessionRow(s)], rest);
  }

  ghost predicate SessionsDiffer(family: seq<Session>) {
    forall i, j :: 0 <= i < j < |family| ==> family[i].id != family[j].id
  }

  lemma {:induction false} FamilyRowsOf(db: Db, family: seq<Session>, n: nat, r: Record)
    ensures r in FamilyRows(db, family, n) <==> exists k :: n <= k < |family| && r in SessionRows(db, family[k])
    decreases |family| - n
  {
    hide SessionRows;
    if n < |family| {
      FamilyRowsOf(db, family, n + 1, r);
    }
  }

  /** No row is listed twice. */
  lemma {:induction false} FamilyRowsDistinct(db: Db, family: seq<Session>, n: nat)
    requires RowsById(db) && SessionsDiffer(family)
    ensures Distinct(FamilyRows(db, family, n))
    decreases |family| - n
  {
    hide SessionRows, RowsById;
    if n < |family| {
      FamilyRowsDistinct(db, family, n + 1);
      SessionRowsDistinct(db, family[n]);
      var first, rest := SessionRows(db, family[n]), FamilyRows(db, family, n + 1);
      forall i, j | 0 <= i < |first| && 0 <= j < |rest|
        ensures first[i] != rest[j]
      {
        SessionRowsOf(db, family[n], first[i]);
        assert rest[j] in rest;
        FamilyRowsOf(db, family, n + 1, rest[j]);
        var k :| n + 1 <= k < |family| && rest[j] in SessionRows(db, family[k]);
        SessionRowsOf(db, family[k], rest[j]);
        assert first[i] in first;
      }
      DistinctJoin(first, rest);
    }
  }

  // ---------------------------------------------------------------- counting

  function Elements(rows: seq<Record>): set<Record> {
    set r | r in rows
  }

  lemma {:induction false} ElementCount(rows: seq<Record>)
    ensures |Elements(rows)| <= |rows|
    ensures Distinct(rows) <==> |Elements(rows)| == |rows|
  {
    if rows != [] {
      var rest := rows[1..];
      ElementCount(rest);
      assert rows == [rows[0]] + rest;
      assert Elements(rows) == Elements(rest) + {rows[0]};
      if rows[0] in rest {
        var k :| 0 <= k < |rest| && rest[k] == rows[0];
        assert rows[k + 1] == rows[0];
        assert Elements(rows) == Elements(rest);
      } else {
        DistinctTail(rows);
      }
    }
  }

  lemma DistinctTail(rows: seq<Record>)
    requires rows != [] && rows[0] !in rows[1..]
    ensures Distinct(rows) <==> Distinct(rows[1..])
  {
    var rest := rows[1..];
    if Distinct(rest) {
      forall i, j | 0 <= i < j < |rows|
        ensures rows[i] != rows[j]
      {
        assert rows[j] == rest[j - 1];
        assert i > 0 ==> rows[i] == rest[i - 1];
      }
    }
  }

  lemma SubsetSize(a: set<Record>, b: set<Record>)
    requires a <= b
    ensures |a| <= |b| && (|a| == |b| ==> a == b)
  {
    if a != b {
      var x :| x in b && x !in a;
      assert a <= b - {x};
      SubsetSize'(a, b - {x});
    }
  }

  lemma {:induction false} SubsetSize'(a: set<Record>, b: set<Record>)
    requires a <= b
    ensures |a| <= |b|
  {
    if a != {} {
      var x :| x in a;
      SubsetSize'(a - {x}, b - {x});
    }
  }

  /** Distinct rows out of a list of the same length are the whole list, each once. */
  lemma Pigeonhole(rows: seq<Record>, list: seq<Record>)
    requires Distinct(rows) && (forall r :: r in rows ==> r in list)
    ensures |rows| <= |list|
    ensures |rows| == |list| <==> Distinct(list) && forall r :: r in list ==> r in rows
  {
    ElementCount(rows);
    ElementCount(list);
    SubsetSize(Elements(rows), Elements(list));
    if Distinct(list) && forall r :: r in list ==> r in rows {
      assert Elements(list) == Elements(rows);
    }
    if |rows| == |list| {
      assert Elements(list) == Elements(rows);
      forall r | r in list
        ensures r in rows
      {
        assert r in Elements(list);
      }
    }
  }

  // ---------------------------------------------------------------- coverage

  /** A good listed row was admitted. */
  lemma ListedIsAdmitted(db: Db, family: seq<Session>, r: Record)
    requires RowsById(db) && r in FamilyRows(db, family, 0) && Good(r)
    ensures r in AdmittedRows(db, family)
  {
    FamilyRowsOf(db, family, 0, r);
    var k :| 0 <= k < |family| && r in SessionRows(db, family[k]);
    SessionRowsOf(db, family[k], r);
    AdmittedMember(db, family, r);
    assert r in AdmittedOf(db, family[k]);
  }

  /** Main result. When the walk succeeds, its row count meets the admission count exactly if every
    * admitted row was emitted, each of them once. */
  lemma CountMeansCoverage(db: Db, family: seq<Session>)
    requires Keyed(db) && SessionsDiffer(family) && Walk(db, family, Start).Ok?
    ensures var rows := Walk(db, family, Start).value;
            && rows == FamilyRows(db, family, 0) && Distinct(rows) && |rows| <= Admitted(db, family)
            && (|rows| == Admitted(db, family) <==>
                  Distinct(AdmittedRows(db, family)) && forall r :: r in AdmittedRows(db, family) ==> r in rows)
  {
    hide Walk, FamilyRows;
    KeyedRows(db);
    WalkIsListing(db, family, Start);
    var rows := FamilyRows(db, family, 0);
    StartAhead(db, family);
    FamilyRowsDistinct(db, family, 0);
    AdmittedLength(db, family);
    forall r | r in rows
      ensures r in AdmittedRows(db, family)
    {
      var k :| 0 <= k < |rows| && rows[k] == r;
      ListedIsAdmitted(db, family, r);
    }
    Pigeonhole(rows, AdmittedRows(db, family));
  }

  // ---------------------------------------------------------------- which databases are walked to the end

  /** No message of the family holds a part of another session. */
  ghost predicate NoForeign(db: Db, family: seq<Session>) {
    forall p, k {:trigger p in db.parts, family[k]} ::
      p in db.parts && 0 <= k < |family| && p.id > 0 && HasMessage(db.messages, p.message, family[k].id) ==>
        p.session == family[k].id
  }

  /** The row passes the walk's checks and can be found by the keyset. */
  predicate Healthy(r: Record) {
    Good(r) && (r.PartRow? ==> r.p.id > 0)
  }

  ghost predicate Sound(db: Db, family: seq<Session>) {
    NoForeign(db, family) && forall r :: r in AdmittedRows(db, family) ==> Healthy(r)
  }

  predicate Succeeds(db: Db, family: seq<Session>) {
    var rows := Walk(db, family, Start);
    rows.Ok? && |rows.value| == Admitted(db, family)
  }

  lemma MessageAdmitted(db: Db, family: seq<Session>, k: nat, m: Message)
    requires k < |family| && m in db.messages && m.session == family[k].id
    ensures MessageRow(m) in AdmittedRows(db, family)
  {
    AdmittedMember(db, family, MessageRow(m));
    assert MessageRow(m) in AdmittedOf(db, family[k]);
  }

  lemma PartAdmitted(db: Db, family: seq<Session>, k: nat, p: Part)
    requires k < |family| && p in db.parts && p.session == family[k].id
    ensures PartRow(p, p.session) in AdmittedRows(db, family)
  {
    AdmittedMember(db, family, PartRow(p, p.session));
    assert PartRow(p, p.session) in AdmittedOf(db, family[k]);
  }

  /** In a sound family every listed row is good. */
  lemma SoundListed(db: Db, family: seq<Session>, r: Record)
    requires RowsById(db) && Sound(db, family) && r in FamilyRows(db, family, 0)
    ensures Good(r)
  {
    hide FamilyRows, AdmittedRows, SessionRows, Healthy, RowsById;
    FamilyRowsOf(db, family, 0, r);
    var k :| 0 <= k < |family| && r in SessionRows(db, family[k]);
    SessionRowsOf(db, family[k], r);
    if r == SessionRow(family[k]) {
      AdmittedMember(db, family, r);
      assert r in AdmittedOf(db, family[k]);
    } else {
      var m :| m in db.messages && Follows(m, family[k].id, -1, 0) && OfMessage(db, r, m);
      MessageAdmitted(db, family, k, m);
      if r.PartRow? {
        assert HasMessage(db.messages, r.p.message, family[k].id);
        assert r.p.session == family[k].id;
        PartAdmitted(db, family, k, r.p);
      }
    }
    assert r in AdmittedRows(db, family);
    HealthyIsGood(r);
  }

  lemma HealthyIsGood(r: Record)
    ensures Healthy(r) ==> Good(r)
  {
  }

  /** In a sound family every admitted row is listed. */
  lemma AdmittedIsListed(db: Db, family: seq<Session>, r: Record)
    requires RowsById(db) && Sound(db, family) && (forall k :: 0 <= k < |family| ==> Supported(db, family[k]))
    requires r in AdmittedRows(db, family)
    ensures r in FamilyRows(db, family, 0)
  {
    hide FamilyRows, AdmittedRows, SessionRows, RowsById;
    AdmittedMember(db, family, r);
    var k :| 0 <= k < |family| && r in AdmittedOf(db, family[k]);
    SessionRowsOf(db, family[k], r);
    FamilyRowsOf(db, family, 0, r);
    match r {
      case SessionRow(_) =>
      case MessageRow(m) => assert Follows(m, family[k].id, -1, 0) && OfMessage(db, r, m);
      case PartRow(p, _) =>
        assert Supported(db, family[k]);
        var i :| 0 <= i < |db.parts| && db.parts[i] == p;
        assert HasMessage(db.messages, p.message, family[k].id);
        var j :| 0 <= j < |db.messages| && db.messages[j].id == p.message && db.messages[j].session == family[k].id;
        MessageAdmitted(db, family, k, db.messages[j]);
        assert Follows(db.messages[j], family[k].id, -1, 0) && OfMessage(db, r, db.messages[j]);
    }
  }

  lemma {:induction false} AdmittedDistinct(db: Db, family: seq<Session>)
    requires Keyed(db) && SessionsDiffer(family)
    ensures Distinct(AdmittedRows(db, family))
  {
    if family != [] {
      var init, last := family[..|family| - 1], family[|family| - 1];
      AdmittedDistinct(db, init);
      AdmittedOfDistinct(db, last);
      var before, more := AdmittedRows(db, init), AdmittedOf(db, last);
      forall i, j | 0 <= i < |before| && 0 <= j < |more|
        ensures before[i] != more[j]
      {
        assert before[i] in before && more[j] in more;
        AdmittedMember(db, init, before[i]);
        var k :| 0 <= k < |init| && before[i] in AdmittedOf(db, init[k]);
        assert init[k] == family[k];
      }
      DistinctJoin(before, more);
    }
  }

  lemma {:induction false} MessageRecordsDistinct(rows: seq<Message>, session: nat)
    requires forall i, j :: 0 <= i < j < |rows| ==> rows[i].id != rows[j].id
    ensures Distinct(MessageRecords(rows, session))
  {
    if rows != [] {
      MessageRecordsDistinct(rows[1..], session);
      var rest := MessageRecords(rows[1..], session);
      forall j | 0 <= j < |rest|
        ensures rest[j] != MessageRow(rows[0])
      {
        assert rest[j] in rest;
      }
    }
  }

  lemma {:induction false} PartRecordsDistinct(rows: seq<Part>, session: nat)
    requires forall i, j :: 0 <= i < j < |rows| ==> rows[i].id != rows[j].id
    ensures Distinct(PartRecords(rows, session))
  {
    if rows != [] {
      PartRecordsDistinct(rows[1..], session);
      var rest := PartRecords(rows[1..], session);
      forall j | 0 <= j < |rest|
        ensures rest[j] != PartRow(rows[0], session)
      {
        assert rest[j] in rest;
      }
    }
  }

  lemma AdmittedOfDistinct(db: Db, s: Session)
    requires Keyed(db)
    ensures Distinct(AdmittedOf(db, s))
  {
    MessageRecordsDistinct(db.messages, s.id);
    PartRecordsDistinct(db.parts, s.id);
    var ms, ps := MessageRecords(db.messages, s.id), PartRecords(db.parts, s.id);
    forall i | 0 <= i < |ms|
      ensures ms[i].MessageRow?
    {
      assert ms[i] in ms;
    }
    forall i | 0 <= i < |ps|
      ensures ps[i].PartRow?
    {
      assert ps[i] in ps;
    }
    DistinctJoin([SessionRow(s)], ms);
    DistinctJoin([SessionRow(s)] + ms, ps);
  }

  /** Main result. For an admitted family the traversal reaches its end with matching counts exactly
    * when every admitted row is sound, has a valid id and a time that is not negative, and no
    * message of the family holds a part of another session. */
  lemma SucceedsExactly(db: Db, family: seq<Session>)
    requires Keyed(db) && SessionsDiffer(family) && forall k :: 0 <= k < |family| ==> Supported(db, family[k])
    ensures Succeeds(db, family) <==> Sound(db, family)
  {
    hide Walk, FamilyRows, AdmittedRows, Supported, Healthy, Good, NoForeign;
    KeyedRows(db);
    var rows, admitted := FamilyRows(db, family, 0), AdmittedRows(db, family);
    StartAhead(db, family);
    WalkIsListing(db, family, Start);
    AdmittedLength(db, family);
    AdmittedDistinct(db, family);
    FamilyRowsDistinct(db, family, 0);
    if Sound(db, family) {
      forall r | r in rows
        ensures Good(r) && r in admitted
      {
        SoundListed(db, family, r);
        ListedIsAdmitted(db, family, r);
      }
      forall r | r in admitted
        ensures r in rows
      {
        AdmittedIsListed(db, family, r);
      }
      Pigeonhole(rows, admitted);
    }
    if Succeeds(db, family) {
      CountMeansCoverage(db, family);
      SuccessIsSound(db, family);
    }
  }

  lemma SuccessIsSound(db: Db, family: seq<Session>)
    requires RowsById(db) && AllGood(FamilyRows(db, family, 0))
    requires forall r :: r in AdmittedRows(db, family) ==> r in FamilyRows(db, family, 0)
    ensures Sound(db, family)
  {
    hide FamilyRows, AdmittedRows, SessionRows, RowsById;
    var rows := FamilyRows(db, family, 0);
    forall r | r in AdmittedRows(db, family)
      ensures Healthy(r)
    {
      var i :| 0 <= i < |rows| && rows[i] == r;
      FamilyRowsOf(db, family, 0, r);
      var k :| 0 <= k < |family| && r in SessionRows(db, family[k]);
      SessionRowsOf(db, family[k], r);
    }
    forall p, k | p in db.parts && 0 <= k < |family| && p.id > 0 && HasMessage(db.messages, p.message, family[k].id)
      ensures p.session == family[k].id
    {
      var j :| 0 <= j < |db.messages| && db.messages[j].id == p.message && db.messages[j].session == family[k].id;
      var m := db.messages[j];
      MessageAdmitted(db, family, k, m);
      assert Healthy(MessageRow(m));
      assert OfMessage(db, PartRow(p, family[k].id), m);
      SessionRowsOf(db, family[k], PartRow(p, family[k].id));
      FamilyRowsOf(db, family, 0, PartRow(p, family[k].id));
      var i :| 0 <= i < |rows| && rows[i] == PartRow(p, family[k].id);
    }
  }
}
