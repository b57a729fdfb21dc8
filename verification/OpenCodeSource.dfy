/** The OpenCode database as one read snapshot, and the family of sessions that a capture admits. */
module OpenCodeSource {
  import opened Base

  /** Ids are numbers in the order SQLite compares them; 0 stands for the empty, invalid id. `sound`
    * says that the row passes the checks made on it alone. */
  datatype Revert = Revert(message: nat, part: Option<nat>)

  datatype Session = Session(id: nat, parent: Option<nat>, sound: bool, v2: bool, revert: Option<Revert>)

  datatype Message = Message(id: nat, session: nat, time: int, sound: bool)

  datatype Part = Part(id: nat, message: nat, session: nat, sound: bool)

  datatype Db = Db(sessions: seq<Session>, messages: seq<Message>, parts: seq<Part>)

  datatype Limits = Limits(threads: nat, records: nat)

  /** Ids are primary keys. */
  ghost predicate Keyed(db: Db) {
    && (forall i, j :: 0 <= i < j < |db.sessions| ==> db.sessions[i].id != db.sessions[j].id)
    && (forall i, j :: 0 <= i < j < |db.messages| ==> db.messages[i].id != db.messages[j].id)
    && forall i, j :: 0 <= i < j < |db.parts| ==> db.parts[i].id != db.parts[j].id
  }

  function FindSession(rows: seq<Session>, id: nat): (r: Option<Session>)
    ensures r.Some? ==> r.value in rows && r.value.id == id
    ensures r.None? ==> forall k :: 0 <= k < |rows| ==> rows[k].id != id
  {
    if rows == [] then None else if rows[0].id == id then Some(rows[0]) else FindSession(rows[1..], id)
  }

  /** `session(db, id)`: one sound row with a valid id. */
  function Load(db: Db, id: nat): Result<Session> {
    var s := FindSession(db.sessions, id);
    if id == 0 || s.None? || !s.value.sound then Err(Format) else Ok(s.value)
  }

  function ChildIds(rows: seq<Session>, parent: nat): (r: seq<nat>)
    ensures forall id :: id in r <==> exists k :: 0 <= k < |rows| && rows[k].id == id && rows[k].parent == Some(parent)
  {
    if rows == [] then []
    else (if rows[0].parent == Some(parent) then [rows[0].id] else []) + ChildIds(rows[1..], parent)
  }

  function Insert(sorted: seq<nat>, id: nat): (r: seq<nat>)
    ensures multiset(r) == multiset(sorted) + multiset{id}
  {
    if sorted == [] then [id]
    else if id <= sorted[0] then [id] + sorted
    else
      assert sorted == [sorted[0]] + sorted[1..];
      [sorted[0]] + Insert(sorted[1..], id)
  }

  function Sort(ids: seq<nat>): (r: seq<nat>)
    ensures multiset(r) == multiset(ids)
  {
    if ids == [] then []
    else
      assert ids == [ids[0]] + ids[1..];
      Insert(Sort(ids[1..]), ids[0])
  }

  lemma SortKeeps(ids: seq<nat>)
    ensures |Sort(ids)| == |ids| && forall id :: id in Sort(ids) <==> id in ids
  {
    var sorted := Sort(ids);
    assert |multiset(sorted)| == |multiset(ids)|;
    forall id
      ensures id in sorted <==> id in ids
    {
      assert id in sorted <==> id in multiset(sorted);
      assert id in ids <==> id in multiset(ids);
    }
  }

  // ---------------------------------------------------------------- from a session up to its root

  /** `chain` leads from `from` upwards, one parent at a time. */
  ghost predicate Chain(db: Db, chain: seq<Session>, from: nat) {
    && chain != [] && chain[0].id == from
    && (forall k :: 0 <= k < |chain| ==> Load(db, chain[k].id) == Ok(chain[k]))
    && forall k :: 0 < k < |chain| ==> chain[k - 1].parent == Some(chain[k].id)
  }

  ghost predicate IdsOf(ids: set<nat>, chain: seq<Session>) {
    |ids| == |chain| && forall a :: a in ids <==> HasId(chain, a)
  }

  ghost predicate HasId(chain: seq<Session>, id: nat) {
    exists k :: 0 <= k < |chain| && chain[k].id == id
  }

  lemma ClimbOn(db: Db, chain: seq<Session>, from: nat, s: Session, ids: set<nat>)
    requires Chain(db, chain, from) && IdsOf(ids, chain) && s.id !in ids
    requires Load(db, s.id) == Ok(s) && chain[|chain| - 1].parent == Some(s.id)
    ensures Chain(db, chain + [s], from) && IdsOf(ids + {s.id}, chain + [s])
  {
    hide Load;
    var longer := chain + [s];
    forall a
      ensures a in ids + {s.id} <==> HasId(longer, a)
    {
      if HasId(chain, a) {
        var k :| 0 <= k < |chain| && chain[k].id == a;
        assert longer[k].id == a;
      }
      assert longer[|chain|].id == s.id;
    }
  }

  lemma ClimbStart(db: Db, s: Session)
    requires Load(db, s.id) == Ok(s)
    ensures Chain(db, [s], s.id) && IdsOf({s.id}, [s])
  {
    assert [s][0].id == s.id;
  }

  /** The chain is closed or has reached the bound, so the walk does not go on. */
  ghost predicate Exhausted(chain: seq<Session>, up: nat, limits: Limits) {
    |chain| >= limits.threads || HasId(chain, up)
  }

  /** How the walk over `chain` ends. */
  ghost predicate Climbed(db: Db, id: nat, limits: Limits, chain: seq<Session>, r: Result<Session>) {
    if chain == [] then r == Err(Format) && Load(db, id).Err?
    else
      var last := chain[|chain| - 1];
      && Chain(db, chain, id) && (|chain| == 1 || |chain| <= limits.threads)
      && match last.parent
         case None => r == Ok(last)
         case Some(up) =>
           && (Exhausted(chain, up, limits) ==> r == Err(Attribution))
           && (!Exhausted(chain, up, limits) ==> r == Err(Format) && Load(db, up).Err?)
  }

  /** The ancestor walk: it ends at the session without a parent, or reports a cycle or a chain that
    * is too long, or a session that cannot be loaded; nothing else can happen. */
  method ClimbToRoot(db: Db, id: nat, limits: Limits) returns (r: Result<Session>, ghost chain: seq<Session>)
    ensures Climbed(db, id, limits, chain, r)
  {
    hide Load, IdsOf, Chain;
    chain := [];
    var loaded := Load(db, id);
    LoadResult(db, id);
    if loaded.Err? {
      return loaded, [];
    }
    var root := loaded.value;
    var ancestors := {root.id};
    ClimbStart(db, root);
    chain := [root];
    while root.parent.Some?
      invariant Chain(db, chain, id) && IdsOf(ancestors, chain) && chain != [] && chain[|chain| - 1] == root
      invariant |chain| == 1 || |chain| <= limits.threads
      decreases limits.threads - |chain|
    {
      var up := root.parent.value;
      IdsKnown(ancestors, chain, up);
      if up in ancestors || |ancestors| >= limits.threads {
        return Err(Attribution), chain;
      }
      loaded := Load(db, up);
      LoadResult(db, up);
      if loaded.Err? {
        return loaded, chain;
      }
      ClimbOn(db, chain, id, loaded.value, ancestors);
      root := loaded.value;
      ancestors := ancestors + {up};
      chain := chain + [root];
    }
    r := Ok(root);
  }

  lemma LoadResult(db: Db, id: nat)
    ensures Load(db, id).Ok? ==> Load(db, id).value.id == id
    ensures Load(db, id).Err? ==> Load(db, id).reason == Format
  {
  }

  lemma IdsKnown(ids: set<nat>, chain: seq<Session>, id: nat)
    requires IdsOf(ids, chain)
    ensures |ids| == |chain| && (id in ids <==> HasId(chain, id))
  {
  }

  // ---------------------------------------------------------------- the family below a root

  function CountMessages(rows: seq<Message>, session: nat): nat {
    if rows == [] then 0 else (if rows[0].session == session then 1 else 0) + CountMessages(rows[1..], session)
  }

  function CountParts(rows: seq<Part>, session: nat): nat {
    if rows == [] then 0 else (if rows[0].session == session then 1 else 0) + CountParts(rows[1..], session)
  }

  predicate HasMessage(rows: seq<Message>, id: nat, session: nat) {
    exists k :: 0 <= k < |rows| && rows[k].id == id && rows[k].session == session
  }

  predicate HasPart(rows: seq<Part>, id: nat, message: nat, session: nat) {
    exists k :: 0 <= k < |rows| && rows[k].id == id && rows[k].message == message && rows[k].session == session
  }

  /** Every part of the session belongs to a message of the session. */
  predicate PartsRelated(db: Db, session: nat) {
    forall k :: 0 <= k < |db.parts| && db.parts[k].session == session ==>
      HasMessage(db.messages, db.parts[k].message, session)
  }

  predicate RevertResolved(db: Db, s: Session) {
    s.revert.Some? ==>
      HasMessage(db.messages, s.revert.value.message, s.id)
      && (s.revert.value.part.Some? ==> HasPart(db.parts, s.revert.value.part.value, s.revert.value.message, s.id))
  }

  /** The rows one session contributes. */
  function RowsOf(db: Db, s: Session): nat {
    1 + CountMessages(db.messages, s.id) + CountParts(db.parts, s.id)
  }

  function Admitted(db: Db, family: seq<Session>): nat {
    if family == [] then 0 else Admitted(db, family[..|family| - 1]) + RowsOf(db, family[|family| - 1])
  }

  lemma AdmittedSnoc(db: Db, family: seq<Session>, s: Session)
    ensures Admitted(db, family + [s]) == Admitted(db, family) + RowsOf(db, s)
  {
    assert (family + [s])[..|family|] == family;
  }

  /** The checks made on one family member. */
  predicate Supported(db: Db, s: Session) {
    !s.v2 && PartsRelated(db, s.id) && RevertResolved(db, s)
  }

  predicate IsMember(family: seq<Session>, id: nat) {
    exists k :: 0 <= k < |family| && family[k].id == id
  }

  predicate ChildKnown(db: Db, family: seq<Session>, k: nat, i: nat)
    requires k < |family| && i < |db.sessions|
  {
    db.sessions[i].parent == Some(family[k].id) ==> IsMember(family, db.sessions[i].id)
  }

  /** The children of the first `n` members are in the family. */
  ghost predicate ClosedUpTo(db: Db, family: seq<Session>, n: nat)
    requires n <= |family|
  {
    forall k, i {:trigger ChildKnown(db, family, k, i)} :: 0 <= k < n && 0 <= i < |db.sessions| ==>
      ChildKnown(db, family, k, i)
  }

  /** Every member but the root comes behind its parent. */
  ghost predicate Descends(family: seq<Session>, k: nat)
    requires k < |family|
  {
    exists p :: 0 <= p < k && family[k].parent == Some(family[p].id)
  }

  /** The family of a root: loaded rows, no session twice, parents first, closed under children. */
  ghost predicate IsFamily(db: Db, root: Session, family: seq<Session>) {
    && family != [] && family[0] == root
    && (forall i, j :: 0 <= i < j < |family| ==> family[i].id != family[j].id)
    && (forall k :: 0 <= k < |family| ==> Load(db, family[k].id) == Ok(family[k]))
    && (forall k {:trigger Descends(family, k)} :: 0 < k < |family| ==> Descends(family, k))
  }

  lemma {:induction false} ChildCount(rows: seq<Session>, parent: nat, id: nat)
    requires forall i, j :: 0 <= i < j < |rows| ==> rows[i].id != rows[j].id
    ensures multiset(ChildIds(rows, parent))[id] <= 1
    ensures (forall k :: 0 <= k < |rows| ==> rows[k].id != id) ==> multiset(ChildIds(rows, parent))[id] == 0
  {
    if rows != [] {
      ChildCount(rows[1..], parent, id);
      var first := if rows[0].parent == Some(parent) then [rows[0].id] else [];
      assert multiset(first + ChildIds(rows[1..], parent)) == multiset(first) + multiset(ChildIds(rows[1..], parent));
    }
  }

  lemma CountTwice(s: seq<nat>, i: nat, j: nat)
    requires i < j < |s| && s[i] == s[j]
    ensures multiset(s)[s[i]] >= 2
  {
    assert s == s[..j] + [s[j]] + s[j + 1..];
    assert s[..j][i] == s[i];
    assert s[i] in multiset(s[..j]);
  }

  /** The children of a member, in the order in which they join the family. */
  function Children(db: Db, parent: nat): seq<nat> {
    Sort(ChildIds(db.sessions, parent))
  }

  lemma ChildrenOnce(db: Db, parent: nat)
    requires Keyed(db)
    ensures Distinct(Children(db, parent))
    ensures forall id :: id in Children(db, parent) <==>
              exists k :: 0 <= k < |db.sessions| && db.sessions[k].id == id && db.sessions[k].parent == Some(parent)
  {
    SortKeeps(ChildIds(db.sessions, parent));
    var ids := Children(db, parent);
    forall i, j | 0 <= i < j < |ids|
      ensures ids[i] != ids[j]
    {
      ChildCount(db.sessions, parent, ids[i]);
      if ids[i] == ids[j] {
        CountTwice(ids, i, j);
      }
    }
  }

  /** Every member but the root is a child of one of the first `n` members, or one of the first
    * `j` children of member `n`. */
  ghost predicate Reached(db: Db, family: seq<Session>, n: nat, j: nat)
    requires n < |family| && j <= |Children(db, family[n].id)|
  {
    forall k :: 0 < k < |family| ==> ReachedAt(db, family, n, j, k)
  }

  ghost predicate ReachedAt(db: Db, family: seq<Session>, n: nat, j: nat, k: nat)
    requires n < |family| && j <= |Children(db, family[n].id)| && k < |family|
  {
    (exists p :: 0 <= p < n && family[k].parent == Some(family[p].id))
    || family[k].id in Children(db, family[n].id)[..j]
  }

  lemma MemberIsChild(db: Db, root: Session, family: seq<Session>, n: nat, j: nat, k: nat)
    requires Keyed(db) && IsFamily(db, root, family) && root.parent.None? && n < |family| && k < |family|
    requires j < |Children(db, family[n].id)| && family[k].id == Children(db, family[n].id)[j]
    ensures k > 0 && family[k].parent == Some(family[n].id) && family[k].id !in Children(db, family[n].id)[..j]
  {
    ChildrenOnce(db, family[n].id);
    var ids := Children(db, family[n].id);
    assert Load(db, family[k].id) == Ok(family[k]);
    assert ids[j] in ids;
    var i :| 0 <= i < |db.sessions| && db.sessions[i].id == ids[j] && db.sessions[i].parent == Some(family[n].id);
    var l :| 0 <= l < |db.sessions| && db.sessions[l] == family[k];
    assert i == l;
  }

  /** The next child of a member is not in the family yet: "repeated Session identity" cannot be
    * reported, because a session has one parent and the root has none. */
  lemma ChildIsNew(db: Db, root: Session, family: seq<Session>, n: nat, j: nat)
    requires Keyed(db) && IsFamily(db, root, family) && root.parent.None? && n < |family|
    requires j < |Children(db, family[n].id)| && Reached(db, family, n, j)
    ensures !IsMember(family, Children(db, family[n].id)[j])
  {
    hide Children;
    forall k | 0 <= k < |family|
      ensures family[k].id != Children(db, family[n].id)[j]
    {
      assert k > 0 ==> ReachedAt(db, family, n, j, k);
      if family[k].id == Children(db, family[n].id)[j] {
        MemberIsChild(db, root, family, n, j, k);
      }
    }
  }

  // ---------------------------------------------------------------- the search

  ghost predicate Visits(visited: set<nat>, family: seq<Session>) {
    forall id :: id in visited <==> IsMember(family, id)
  }

  /** What the search keeps while it looks at child `j` of member `n`. */
  ghost predicate Searching(db: Db, root: Session, family: seq<Session>, visited: set<nat>, n: nat, j: nat) {
    && IsFamily(db, root, family) && Visits(visited, family) && n < |family| && ClosedUpTo(db, family, n)
    && j <= |Children(db, family[n].id)| && Reached(db, family, n, j)
    && forall i :: 0 <= i < j ==> IsMember(family, Children(db, family[n].id)[i])
  }

  lemma MemberStays(family: seq<Session>, s: Session, id: nat)
    ensures IsMember(family + [s], id) <==> IsMember(family, id) || id == s.id
  {
    if IsMember(family, id) {
      var k :| 0 <= k < |family| && family[k].id == id;
      assert (family + [s])[k].id == id;
    }
    assert (family + [s])[|family|].id == s.id;
  }

  lemma FamilyGrows(db: Db, root: Session, family: seq<Session>, n: nat, s: Session)
    requires IsFamily(db, root, family) && n < |family| && s.parent == Some(family[n].id)
    requires Load(db, s.id) == Ok(s) && !IsMember(family, s.id)
    ensures IsFamily(db, root, family + [s])
  {
    hide Load;
    var longer := family + [s];
    forall k | 0 < k < |longer|
      ensures Descends(longer, k)
    {
      if k < |family| {
        assert Descends(family, k);
        var p :| 0 <= p < k && family[k].parent == Some(family[p].id);
        assert longer[p] == family[p];
      } else {
        assert longer[n] == family[n];
      }
    }
  }

  lemma SearchOn(db: Db, root: Session, family: seq<Session>, visited: set<nat>, n: nat, j: nat, s: Session)
    requires Keyed(db) && Searching(db, root, family, visited, n, j) && root.parent.None?
    requires j < |Children(db, family[n].id)| && s.id == Children(db, family[n].id)[j] && Load(db, s.id) == Ok(s)
    ensures s.parent == Some(family[n].id)
    ensures Searching(db, root, family + [s], visited + {s.id}, n, j + 1)
  {
    hide Load, Children, IsFamily, IsMember;
    var longer, ids := family + [s], Children(db, family[n].id);
    assert longer[n] == family[n];
    ChildRow(db, family[n].id, s, j);
    ChildIsNew(db, root, family, n, j);
    FamilyGrows(db, root, family, n, s);
    forall id
      ensures IsMember(longer, id) <==> IsMember(family, id) || id == s.id
    {
      MemberStays(family, s, id);
    }
    var next := j + 1;
    forall k | 0 < k < |longer|
      ensures ReachedAt(db, longer, n, next, k)
    {
      ReachedStays(db, family, s, n, j, k);
    }
    ClosedStays(db, family, s, n);
  }

  lemma ChildRow(db: Db, parent: nat, s: Session, j: nat)
    requires Keyed(db) && j < |Children(db, parent)| && s.id == Children(db, parent)[j] && Load(db, s.id) == Ok(s)
    ensures s.parent == Some(parent)
  {
    ChildrenOnce(db, parent);
    assert s.id in Children(db, parent);
    var i :| 0 <= i < |db.sessions| && db.sessions[i].id == s.id && db.sessions[i].parent == Some(parent);
    var l :| 0 <= l < |db.sessions| && db.sessions[l] == s;
    assert i == l;
  }

  lemma ReachedStays(db: Db, family: seq<Session>, s: Session, n: nat, j: nat, k: nat)
    requires n < |family| && j < |Children(db, family[n].id)| && s.id == Children(db, family[n].id)[j]
    requires 0 < k <= |family| && Reached(db, family, n, j)
    ensures ReachedAt(db, family + [s], n, j + 1, k)
  {
    hide Children;
    var longer, ids := family + [s], Children(db, family[n].id);
    assert ids[..j + 1] == ids[..j] + [s.id];
    if k < |family| {
      assert ReachedAt(db, family, n, j, k);
      if exists p :: 0 <= p < n && family[k].parent == Some(family[p].id) {
        var p :| 0 <= p < n && family[k].parent == Some(family[p].id);
        assert longer[p] == family[p];
      }
    }
  }

  lemma ClosedStays(db: Db, family: seq<Session>, s: Session, n: nat)
    requires n < |family| && ClosedUpTo(db, family, n)
    ensures ClosedUpTo(db, family + [s], n)
  {
    var longer := family + [s];
    forall k, i | 0 <= k < n && 0 <= i < |db.sessions|
      ensures ChildKnown(db, longer, k, i)
    {
      assert ChildKnown(db, family, k, i);
      MemberStays(family, s, db.sessions[i].id);
    }
  }

  /** All children of member `n` are in the family: go on with the next member. */
  lemma NextMember(db: Db, root: Session, family: seq<Session>, visited: set<nat>, n: nat)
    requires Keyed(db) && n < |family| && Searching(db, root, family, visited, n, |Children(db, family[n].id)|)
    ensures ClosedUpTo(db, family, n + 1)
    ensures n + 1 < |family| ==> Searching(db, root, family, visited, n + 1, 0)
  {
    hide Children, IsFamily, IsMember;
    var ids := Children(db, family[n].id);
    ChildrenOnce(db, family[n].id);
    forall k, i | 0 <= k < n + 1 && 0 <= i < |db.sessions|
      ensures ChildKnown(db, family, k, i)
    {
      if k < n {
        assert ChildKnown(db, family, k, i);
      } else if db.sessions[i].parent == Some(family[n].id) {
        assert db.sessions[i].id in ids;
        var j :| 0 <= j < |ids| && ids[j] == db.sessions[i].id;
        assert IsMember(family, ids[j]);
      }
    }
    assert ids[..|ids|] == ids;
    if n + 1 < |family| {
      var next := n + 1;
      forall k | 0 < k < |family|
        ensures ReachedAt(db, family, next, 0, k)
      {
        ReachedNext(db, root, family, n, k);
      }
    }
  }

  lemma ReachedNext(db: Db, root: Session, family: seq<Session>, n: nat, k: nat)
    requires Keyed(db) && IsFamily(db, root, family) && n + 1 < |family| && 0 < k < |family|
    requires Reached(db, family, n, |Children(db, family[n].id)|)
    ensures ReachedAt(db, family, n + 1, 0, k)
  {
    hide Children;
    var ids := Children(db, family[n].id);
    assert ReachedAt(db, family, n, |ids|, k);
    assert ids[..|ids|] == ids;
    if family[k].id in ids {
      var j :| 0 <= j < |ids| && ids[j] == family[k].id;
      assert Load(db, family[k].id) == Ok(family[k]);
      ChildRow(db, family[n].id, family[k], j);
    }
  }

  lemma SearchStart(db: Db, root: Session)
    requires Load(db, root.id) == Ok(root)
    ensures Searching(db, root, [root], {root.id}, 0, 0)
  {
    assert [root][0].id == root.id;
    forall id
      ensures id in {root.id} <==> IsMember([root], id)
    {
    }
  }

  lemma MembersCounted(db: Db, root: Session, family: seq<Session>, visited: set<nat>, n: nat, j: nat, id: nat)
    requires Searching(db, root, family, visited, n, j)
    ensures id in visited <==> IsMember(family, id)
  {
  }

  /** The breadth-first search for the family below a root, with its admission counts. It succeeds
    * with exactly the root and everything below it, and never reports a repeated session. */
  method SearchFamily(db: Db, root: Session, limits: Limits) returns (r: Result<seq<Session>>, admitted: nat)
    requires Keyed(db) && Load(db, root.id) == Ok(root) && root.parent.None? && limits.threads >= 1
    ensures r.Ok? ==>
              && IsFamily(db, root, r.value) && ClosedUpTo(db, r.value, |r.value|) && |r.value| <= limits.threads
              && (forall k :: 0 <= k < |r.value| ==> Supported(db, r.value[k]))
              && admitted == Admitted(db, r.value) <= limits.records
    ensures r != Err(Attribution)
  {
    hide IsFamily, Searching, ClosedUpTo, Children, Load, Supported, IsMember;
    var family, visited, n := [root], {root.id}, 0;
    admitted := 0;
    SearchStart(db, root);
    ClosedNowhere(db, family);
    while n < |family|
      invariant 0 <= n <= |family| <= limits.threads
      invariant IsFamily(db, root, family) && ClosedUpTo(db, family, n)
      invariant n < |family| ==> Searching(db, root, family, visited, n, 0)
      invariant forall k :: 0 <= k < n ==> Supported(db, family[k])
      invariant admitted == Admitted(db, family[..n]) <= limits.records
      decreases limits.threads - n
    {
      var current := family[n];
      assert family[..n + 1] == family[..n] + [current];
      AdmittedSnoc(db, family[..n], current);
      admitted := admitted + RowsOf(db, current);
      if admitted > limits.records {
        return Err(Limit), admitted;
      }
      if current.v2 {
        return Err(Unsupported), admitted;
      }
      if !PartsRelated(db, current.id) || !RevertResolved(db, current) {
        return Err(Format), admitted;
      }
      assert Supported(db, current) by { IsSupported(db, current); }
      var ids := Children(db, current.id);
      if |ids| > limits.threads - |family| {
        return Err(Limit), admitted;
      }
      ghost var before := family;
      var j := 0;
      while j < |ids|
        invariant 0 <= j <= |ids| && n < |family| && family[n] == current && |family| == |before| + j
        invariant family[..n + 1] == before[..n + 1]
        invariant Searching(db, root, family, visited, n, j)
      {
        MembersCounted(db, root, family, visited, n, j, ids[j]);
        SearchedFamily(db, root, family, visited, n, j);
        ChildIsNew(db, root, family, n, j);
        assert ids[j] !in visited;
        var child := Load(db, ids[j]);
        LoadResult(db, ids[j]);
        if child.Err? {
          return Err(Format), admitted;
        }
        SearchOn(db, root, family, visited, n, j, child.value);
        visited := visited + {ids[j]};
        family := family + [child.value];
        j := j + 1;
      }
      SearchedFamily(db, root, family, visited, n, |ids|);
      NextMember(db, root, family, visited, n);
      n := n + 1;
      assert family[..n] == before[..n];
      forall k | 0 <= k < n
        ensures Supported(db, family[k])
      {
        assert family[..n][k] == before[..n][k];
      }
    }
    assert family[..n] == family;
    r := Ok(family);
  }

  lemma IsSupported(db: Db, s: Session)
    requires !s.v2 && PartsRelated(db, s.id) && RevertResolved(db, s)
    ensures Supported(db, s)
  {
  }

  lemma ClosedNowhere(db: Db, family: seq<Session>)
    ensures ClosedUpTo(db, family, 0)
  {
  }

  lemma SearchedFamily(db: Db, root: Session, family: seq<Session>, visited: set<nat>, n: nat, j: nat)
    requires Searching(db, root, family, visited, n, j)
    ensures IsFamily(db, root, family) && ClosedUpTo(db, family, n) && Reached(db, family, n, j)
  {
  }
}
