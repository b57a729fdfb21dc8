/** The keyset walk over an admitted OpenCode family: sessions, their messages by time and id, and
  * the parts of each message by id. */
module OpenCodeWalk {
  import opened Base
  import opened OpenCodeSource

  /** A walked row; a part carries the session whose message it was found under. */
  datatype Record = SessionRow(s: Session) | MessageRow(m: Message) | PartRow(p: Part, under: nat)

  datatype Phase = AtSession | AtMessage | AtPart

  /** The walk's variables: `threadIndex`, `phase`, `messageId`, `messageTime`, `partId`. */
  datatype At = At(thread: nat, phase: Phase, message: nat, time: int, part: nat)

  const Start := At(0, AtSession, 0, -1, 0)

  // ---------------------------------------------------------------- the two queries

  /** `(time_created, id) > (time, id)`. */
  predicate After(m: Message, time: int, id: nat) {
    m.time > time || (m.time == time && m.id > id)
  }

  predicate Follows(m: Message, session: nat, time: int, id: nat) {
    m.session == session && After(m, time, id)
  }

  function LeastMessage(rows: seq<Message>, session: nat, time: int, id: nat): (r: Option<Message>)
    ensures r.None? ==> forall m :: m in rows ==> !Follows(m, session, time, id)
    ensures r.Some? ==> r.value in rows && Follows(r.value, session, time, id)
    ensures r.Some? ==> forall m :: m in rows && Follows(m, session, time, id) ==> !After(r.value, m.time, m.id)
  {
    if rows == [] then None
    else
      var rest := LeastMessage(rows[1..], session, time, id);
      if Follows(rows[0], session, time, id) && (rest.None? || After(rest.value, rows[0].time, rows[0].id)) then
        Some(rows[0]) else rest
  }

  predicate PartFollows(p: Part, message: nat, id: nat) {
    p.message == message && p.id > id
  }

  function LeastPart(rows: seq<Part>, message: nat, id: nat): (r: Option<Part>)
    ensures r.None? ==> forall p :: p in rows ==> !PartFollows(p, message, id)
    ensures r.Some? ==> r.value in rows && PartFollows(r.value, message, id)
    ensures r.Some? ==> forall p :: p in rows && PartFollows(p, message, id) ==> r.value.id <= p.id
  {
    if rows == [] then None
    else
      var rest := LeastPart(rows[1..], message, id);
      if PartFollows(rows[0], message, id) && (rest.None? || rows[0].id < rest.value.id) then Some(rows[0]) else rest
  }

  // ---------------------------------------------------------------- the listings

  function MessagesLeft(rows: seq<Message>, session: nat, time: int, id: nat): set<Message> {
    set m | m in rows && Follows(m, session, time, id)
  }

  function PartsLeft(rows: seq<Part>, message: nat, id: nat): set<Part> {
    set p | p in rows && PartFollows(p, message, id)
  }

  /** All messages of a session behind a key, in order. */
  function MessagesFrom(rows: seq<Message>, session: nat, time: int, id: nat): seq<Message>
    decreases MessagesLeft(rows, session, time, id)
  {
    var next := LeastMessage(rows, session, time, id);
    if next.None? then []
    else
      assert next.value in MessagesLeft(rows, session, time, id);
      assert next.value !in MessagesLeft(rows, session, next.value.time, next.value.id);
      [next.value] + MessagesFrom(rows, session, next.value.time, next.value.id)
  }

  /** All parts of a message behind an id, in order. */
  function PartsFrom(rows: seq<Part>, message: nat, id: nat): seq<Part>
    decreases PartsLeft(rows, message, id)
  {
    var next := LeastPart(rows, message, id);
    if next.None? then []
    else
      assert next.value in PartsLeft(rows, message, id);
      assert next.value !in PartsLeft(rows, message, next.value.id);
      [next.value] + PartsFrom(rows, message, next.value.id)
  }

  ghost predicate MessagesRise(ms: seq<Message>) {
    forall i, j :: 0 <= i < j < |ms| ==> After(ms[j], ms[i].time, ms[i].id)
  }

  ghost predicate PartsRise(ps: seq<Part>) {
    forall i, j :: 0 <= i < j < |ps| ==> ps[i].id < ps[j].id
  }

  lemma {:induction false} MessagesListed(rows: seq<Message>, session: nat, time: int, id: nat)
    requires forall a, b :: a in rows && b in rows && a.id == b.id ==> a == b
    ensures MessagesRise(MessagesFrom(rows, session, time, id))
    ensures forall m :: m in MessagesFrom(rows, session, time, id) <==> m in rows && Follows(m, session, time, id)
    decreases MessagesLeft(rows, session, time, id)
  {
    var next := LeastMessage(rows, session, time, id);
    if next.Some? {
      assert next.value in MessagesLeft(rows, session, time, id);
      assert next.value !in MessagesLeft(rows, session, next.value.time, next.value.id);
      MessagesListed(rows, session, next.value.time, next.value.id);
      var rest := MessagesFrom(rows, session, next.value.time, next.value.id);
      forall j | 0 <= j < |rest|
        ensures After(rest[j], next.value.time, next.value.id)
      {
        assert rest[j] in rest;
      }
    }
  }

  lemma {:induction false} PartsListed(rows: seq<Part>, message: nat, id: nat)
    requires forall a, b :: a in rows && b in rows && a.id == b.id ==> a == b
    ensures PartsRise(PartsFrom(rows, message, id))
    ensures forall p :: p in PartsFrom(rows, message, id) <==> p in rows && PartFollows(p, message, id)
    decreases PartsLeft(rows, message, id)
  {
    var next := LeastPart(rows, message, id);
    if next.Some? {
      assert next.value in PartsLeft(rows, message, id);
      assert next.value !in PartsLeft(rows, message, next.value.id);
      PartsListed(rows, message, next.value.id);
      var rest := PartsFrom(rows, message, next.value.id);
      forall j | 0 <= j < |rest|
        ensures rest[j].id > next.value.id
      {
        assert rest[j] in rest;
      }
    }
  }

  // ---------------------------------------------------------------- the whole listing

  function PartRows(ps: seq<Part>, under: nat): (r: seq<Record>)
    ensures |r| == |ps|
    ensures forall k :: 0 <= k < |ps| ==> r[k] == PartRow(ps[k], under)
  {
    seq(|ps|, k requires 0 <= k < |ps| => PartRow(ps[k], under))
  }

  function MessageRows(db: Db, ms: seq<Message>): seq<Record> {
    if ms == [] then []
    else [MessageRow(ms[0])] + PartRows(PartsFrom(db.parts, ms[0].id, 0), ms[0].session) + MessageRows(db, ms[1..])
  }

  function SessionRows(db: Db, s: Session): seq<Record> {
    [SessionRow(s)] + MessageRows(db, MessagesFrom(db.messages, s.id, -1, 0))
  }

  function FamilyRows(db: Db, family: seq<Session>, n: nat): seq<Record>
    decreases |family| - n
  {
    if n >= |family| then [] else SessionRows(db, family[n]) + FamilyRows(db, family, n + 1)
  }

  /** The rows still to come. */
  function Ahead(db: Db, family: seq<Session>, at: At): seq<Record> {
    if at.thread >= |family| then []
    else
      var id, later := family[at.thread].id, FamilyRows(db, family, at.thread + 1);
      match at.phase
      case AtSession => SessionRows(db, family[at.thread]) + later
      case AtMessage => MessageRows(db, MessagesFrom(db.messages, id, at.time, at.message)) + later
      case AtPart =>
        PartRows(PartsFrom(db.parts, at.message, at.part), id)
        + MessageRows(db, MessagesFrom(db.messages, id, at.time, at.message)) + later
  }

  // ---------------------------------------------------------------- one step

  /** The row passes the checks that the walk makes on it. */
  predicate Good(r: Record) {
    match r
    case SessionRow(s) => s.sound
    case MessageRow(m) => m.id > 0 && m.time >= 0 && m.sound
    case PartRow(p, under) => p.sound && p.session == under
  }

  function Rank(phase: Phase): nat {
    match phase case AtSession => 2 case AtPart => 1 case AtMessage => 0
  }

  /** `next`: the next row and the variables behind it. */
  function Next(db: Db, family: seq<Session>, at: At): Result<(Option<Record>, At)>
    decreases |family| - at.thread, Rank(at.phase)
  {
    if at.thread >= |family| then Ok((None, at))
    else
      var s := family[at.thread];
      match at.phase
      case AtSession => if s.sound then Ok((Some(SessionRow(s)), at.(phase := AtMessage))) else Err(Format)
      case AtPart =>
        var p := LeastPart(db.parts, at.message, at.part);
        if p.None? then Next(db, family, at.(phase := AtMessage))
        else if Good(PartRow(p.value, s.id)) then Ok((Some(PartRow(p.value, s.id)), at.(part := p.value.id)))
        else Err(Format)
      case AtMessage =>
        var m := LeastMessage(db.messages, s.id, at.time, at.message);
        if m.None? then Next(db, family, At(at.thread + 1, AtSession, 0, -1, at.part))
        else if Good(MessageRow(m.value)) then
          Ok((Some(MessageRow(m.value)), At(at.thread, AtPart, m.value.id, m.value.time, 0)))
        else Err(Format)
  }

  /** At a session row the message keyset is at its start. */
  predicate Aligned(at: At) {
    at.phase.AtSession? ==> at.message == 0 && at.time == -1
  }

  /** Main result of a step. The next row is the head of the listing, and the step fails exactly
    * when that row does not pass its checks. */
  lemma {:induction false} NextIsHead(db: Db, family: seq<Session>, at: At)
    requires Aligned(at)
    ensures Next(db, family, at).Ok? ==> Aligned(Next(db, family, at).value.1)
    ensures var ahead, next := Ahead(db, family, at), Next(db, family, at);
            if next.Err? then ahead != [] && !Good(ahead[0])
            else if next.value.0.None? then ahead == [] && next.value.1.thread >= |family|
            else Good(next.value.0.value) && ahead == [next.value.0.value] + Ahead(db, family, next.value.1)
    decreases |family| - at.thread, Rank(at.phase)
  {
    hide Ahead, LeastMessage, LeastPart;
    if at.thread >= |family| {
      NothingAhead(db, family, at);
    } else {
      var s, later := family[at.thread], FamilyRows(db, family, at.thread + 1);
      match at.phase
      case AtSession =>
        SessionHead(db, family, at);
      case AtPart =>
        var p := LeastPart(db.parts, at.message, at.part);
        if p.None? {
          NoMoreParts(db, family, at);
          NextIsHead(db, family, at.(phase := AtMessage));
        } else {
          PartHead(db, family, at, p.value);
        }
      case AtMessage =>
        var m := LeastMessage(db.messages, s.id, at.time, at.message);
        if m.None? {
          NoMoreMessages(db, family, at);
          NextIsHead(db, family, At(at.thread + 1, AtSession, 0, -1, at.part));
        } else {
          MessageHead(db, family, at, m.value);
        }
    }
  }

  lemma NothingAhead(db: Db, family: seq<Session>, at: At)
    requires at.thread >= |family|
    ensures Ahead(db, family, at) == []
  {
  }

  lemma NoMoreParts(db: Db, family: seq<Session>, at: At)
    requires at.thread < |family| && at.phase == AtPart && LeastPart(db.parts, at.message, at.part).None?
    ensures Ahead(db, family, at) == Ahead(db, family, at.(phase := AtMessage))
  {
    var rest := MessageRows(db, MessagesFrom(db.messages, family[at.thread].id, at.time, at.message));
    assert PartRows([], family[at.thread].id) + rest == rest;
  }

  lemma NoMoreMessages(db: Db, family: seq<Session>, at: At)
    requires at.thread < |family| && at.phase == AtMessage
    requires LeastMessage(db.messages, family[at.thread].id, at.time, at.message).None?
    ensures Ahead(db, family, at) == Ahead(db, family, At(at.thread + 1, AtSession, 0, -1, at.part))
  {
    assert [] + FamilyRows(db, family, at.thread + 1) == FamilyRows(db, family, at.thread + 1);
  }

  lemma SessionHead(db: Db, family: seq<Session>, at: At)
    requires at.thread < |family| && at.phase == AtSession && at.time == -1 && at.message == 0
    ensures Ahead(db, family, at) == [SessionRow(family[at.thread])] + Ahead(db, family, at.(phase := AtMessage))
  {
    hide MessageRows, FamilyRows, MessagesFrom;
    Assoc([SessionRow(family[at.thread])], MessageRows(db, MessagesFrom(db.messages, family[at.thread].id, -1, 0)),
          FamilyRows(db, family, at.thread + 1));
  }

  lemma PartHead(db: Db, family: seq<Session>, at: At, p: Part)
    requires at.thread < |family| && at.phase == AtPart && LeastPart(db.parts, at.message, at.part) == Some(p)
    ensures Ahead(db, family, at) == [PartRow(p, family[at.thread].id)] + Ahead(db, family, at.(part := p.id))
  {
    hide MessageRows, FamilyRows, MessagesFrom, LeastPart, PartsFrom;
    var id := family[at.thread].id;
    PartsStep(db.parts, at.message, at.part);
    var rest := PartsFrom(db.parts, at.message, p.id);
    assert PartRows([p] + rest, id) == [PartRow(p, id)] + PartRows(rest, id);
    Assoc([PartRow(p, id)], PartRows(rest, id), MessageRows(db, MessagesFrom(db.messages, id, at.time, at.message)));
    Assoc([PartRow(p, id)], PartRows(rest, id) + MessageRows(db, MessagesFrom(db.messages, id, at.time, at.message)),
          FamilyRows(db, family, at.thread + 1));
  }

  lemma PartsStep(rows: seq<Part>, message: nat, id: nat)
    requires LeastPart(rows, message, id).Some?
    ensures var p := LeastPart(rows, message, id).value;
            PartsFrom(rows, message, id) == [p] + PartsFrom(rows, message, p.id)
  {
  }

  lemma MessageHead(db: Db, family: seq<Session>, at: At, m: Message)
    requires at.thread < |family| && at.phase == AtMessage
    requires LeastMessage(db.messages, family[at.thread].id, at.time, at.message) == Some(m)
    ensures Ahead(db, family, at) == [MessageRow(m)] + Ahead(db, family, At(at.thread, AtPart, m.id, m.time, 0))
  {
    hide MessageRows, FamilyRows, PartRows, PartsFrom, MessagesFrom, LeastMessage;
    var id := family[at.thread].id;
    MessagesStep(db.messages, id, at.time, at.message);
    var rest, parts := MessagesFrom(db.messages, id, m.time, m.id), PartRows(PartsFrom(db.parts, m.id, 0), id);
    OneMessageRow(db, m, rest);
    Assoc([MessageRow(m)], parts + MessageRows(db, rest), FamilyRows(db, family, at.thread + 1));
  }

  lemma MessagesStep(rows: seq<Message>, session: nat, time: int, id: nat)
    requires LeastMessage(rows, session, time, id).Some?
    ensures var m := LeastMessage(rows, session, time, id).value;
            m.session == session
            && MessagesFrom(rows, session, time, id) == [m] + MessagesFrom(rows, session, m.time, m.id)
  {
  }

  lemma OneMessageRow(db: Db, m: Message, rest: seq<Message>)
    ensures MessageRows(db, [m] + rest)
            == [MessageRow(m)] + (PartRows(PartsFrom(db.parts, m.id, 0), m.session) + MessageRows(db, rest))
  {
    assert ([m] + rest)[1..] == rest;
    Assoc([MessageRow(m)], PartRows(PartsFrom(db.parts, m.id, 0), m.session), MessageRows(db, rest));
  }

  // ---------------------------------------------------------------- the whole walk

  lemma StartAhead(db: Db, family: seq<Session>)
    ensures Ahead(db, family, Start) == FamilyRows(db, family, 0)
  {
  }

  predicate AllGood(rows: seq<Record>) {
    forall k :: 0 <= k < |rows| ==> Good(rows[k])
  }

  lemma AheadShrinks(db: Db, family: seq<Session>, at: At)
    requires Aligned(at) && Next(db, family, at).Ok? && Next(db, family, at).value.0.Some?
    ensures |Ahead(db, family, Next(db, family, at).value.1)| < |Ahead(db, family, at)|
    ensures Aligned(Next(db, family, at).value.1)
  {
    NextIsHead(db, family, at);
  }

  /** All rows from a place on, until the walk ends or fails. */
  function Walk(db: Db, family: seq<Session>, at: At): Result<seq<Record>>
    requires Aligned(at)
    decreases |Ahead(db, family, at)|
  {
    var next :- Next(db, family, at);
    if next.0.None? then Ok([])
    else
      AheadShrinks(db, family, at);
      var rest :- Walk(db, family, next.1);
      Ok([next.0.value] + rest)
  }

  /** Main result. The walk emits exactly the listing, and fails exactly when a listed row does not
    * pass its checks. */
  lemma {:induction false} WalkIsListing(db: Db, family: seq<Session>, at: At)
    requires Aligned(at)
    ensures Walk(db, family, at).Ok? <==> AllGood(Ahead(db, family, at))
    ensures Walk(db, family, at).Ok? ==> Walk(db, family, at).value == Ahead(db, family, at)
    decreases |Ahead(db, family, at)|
  {
    hide Ahead, Next, Good;
    NextIsHead(db, family, at);
    var ahead, next := Ahead(db, family, at), Next(db, family, at);
    if next.Ok? && next.value.0.Some? {
      var rest := Ahead(db, family, next.value.1);
      WalkIsListing(db, family, next.value.1);
      assert forall k :: 0 <= k < |rest| ==> rest[k] == ahead[k + 1];
    }
  }
}
