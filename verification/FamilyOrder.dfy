/** Interleaving of delegated turns at their parents' calls, shared by the Kimi and the
  * CodeBuddy adapters.
  *
  * `Drain` is what the explicit stack computes, `Splice` the recursive pre-order it stands
  * for. Main results: the two agree on every input (`DrainIsSplice`), and in a family whose
  * calls and turns match in number the traversal succeeds, consumes every turn and shows
  * every frame of every thread exactly once and in its own order (`FamilyComplete`).
  */
module FamilyOrder {
  import opened Base

  /** `line` and `part` identify the source content; `child` is the thread a call delegates to. */
  datatype Event = Event(line: nat, part: nat, index: nat, child: Option<string>)

  /** One frame of a thread; `slot` is its place among the thread's own frames. */
  datatype Frame = Frame(owner: string, slot: nat, events: seq<Event>)

  /** The first event that names a child thread. */
  function FirstLink(events: seq<Event>): Option<string> {
    if events == [] then None
    else if events[0].child.Some? then events[0].child
    else FirstLink(events[1..])
  }

  function Link(f: Frame): Option<string> {
    FirstLink(f.events)
  }

  /** The root's frames and, for each child thread, its turns. */
  datatype Family = Family(rootId: string, root: seq<Frame>, turns: map<string, seq<seq<Frame>>>)

  type Cursors = map<string, nat>

  function Cursor(cursors: Cursors, c: string): nat {
    if c in cursors then cursors[c] else 0
  }

  ghost function Unused(fam: Family, cursors: Cursors): set<(string, nat)> {
    set c, t | c in fam.turns && Cursor(cursors, c) <= t < |fam.turns[c]| :: (c, t)
  }

  lemma UnusedShrinks(fam: Family, cursors: Cursors, c: string)
    requires c in fam.turns && Cursor(cursors, c) < |fam.turns[c]|
    ensures Unused(fam, cursors[c := Cursor(cursors, c) + 1]) < Unused(fam, cursors)
  {
    assert (c, Cursor(cursors, c)) in Unused(fam, cursors);
    assert (c, Cursor(cursors, c)) !in Unused(fam, cursors[c := Cursor(cursors, c) + 1]);
  }

  predicate HasTurn(fam: Family, cursors: Cursors, c: string) {
    c in fam.turns && Cursor(cursors, c) < |fam.turns[c]|
  }

  /** The stack machine; `pending` lists the stack from its top. */
  function Drain(fam: Family, pending: seq<Frame>, cursors: Cursors): Result<(seq<Frame>, Cursors)>
    decreases Unused(fam, cursors), |pending|
  {
    if pending == [] then Ok(([], cursors))
    else
      var f := pending[0];
      match Link(f)
      case None =>
        var rest :- Drain(fam, pending[1..], cursors);
        Ok(([f] + rest.0, rest.1))
      case Some(c) =>
        if !HasTurn(fam, cursors, c) then Err(Format)
        else
          UnusedShrinks(fam, cursors, c);
          var at := Cursor(cursors, c);
          var rest :- Drain(fam, fam.turns[c][at] + pending[1..], cursors[c := at + 1]);
          Ok(([f] + rest.0, rest.1))
  }

  /** Cursors never move backwards. */
  ghost predicate Later(fam: Family, before: Cursors, after: Cursors) {
    Unused(fam, after) <= Unused(fam, before)
  }

  /** The recursive pre-order: a call is followed by the whole turn it started. */
  function Splice(fam: Family, frames: seq<Frame>, cursors: Cursors): (r: Result<(seq<Frame>, Cursors)>)
    ensures r.Ok? ==> Later(fam, cursors, r.value.1)
    decreases Unused(fam, cursors), |frames|
  {
    if frames == [] then Ok(([], cursors))
    else
      var f := frames[0];
      match Link(f)
      case None =>
        var rest :- Splice(fam, frames[1..], cursors);
        Ok(([f] + rest.0, rest.1))
      case Some(c) =>
        if !HasTurn(fam, cursors, c) then Err(Format)
        else
          UnusedShrinks(fam, cursors, c);
          var at := Cursor(cursors, c);
          var turn :- Splice(fam, fam.turns[c][at], cursors[c := at + 1]);
          var rest :- Splice(fam, frames[1..], turn.1);
          Ok(([f] + turn.0 + rest.0, rest.1))
  }

  /** Draining `frames` above the rest of the stack is splicing them first. */
  lemma {:induction false} DrainSplices(fam: Family, frames: seq<Frame>, rest: seq<Frame>, cursors: Cursors)
    ensures var spliced := Splice(fam, frames, cursors);
            Drain(fam, frames + rest, cursors)
            == if spliced.Err? then Err(spliced.reason)
               else var below := Drain(fam, rest, spliced.value.1);
                    if below.Err? then below else Ok((spliced.value.0 + below.value.0, below.value.1))
    decreases Unused(fam, cursors), |frames|
  {
    hide Unused;
    if frames == [] {
      assert frames + rest == rest;
      var below := Drain(fam, rest, cursors);
      if below.Ok? {
        assert [] + below.value.0 == below.value.0;
      }
    } else {
      var f := frames[0];
      assert (frames + rest)[1..] == frames[1..] + rest;
      match Link(f)
      case None =>
        DrainSplices(fam, frames[1..], rest, cursors);
        var later := Splice(fam, frames[1..], cursors);
        if later.Ok? {
          var below := Drain(fam, rest, later.value.1);
          if below.Ok? {
            Assoc([f], later.value.0, below.value.0);
          }
        }
      case Some(c) =>
        if HasTurn(fam, cursors, c) {
          DrainTurn(fam, frames, rest, cursors, c);
        }
    }
  }

  lemma {:induction false} DrainTurn(fam: Family, frames: seq<Frame>, rest: seq<Frame>, cursors: Cursors, c: string)
    requires frames != [] && Link(frames[0]) == Some(c) && HasTurn(fam, cursors, c)
    ensures var spliced := Splice(fam, frames, cursors);
            Drain(fam, frames + rest, cursors)
            == if spliced.Err? then Err(spliced.reason)
               else var below := Drain(fam, rest, spliced.value.1);
                    if below.Err? then below else Ok((spliced.value.0 + below.value.0, below.value.1))
    decreases Unused(fam, cursors), |frames|, 0
  {
    var f, at := frames[0], Cursor(cursors, c);
    var turn, moved := fam.turns[c][at], cursors[c := at + 1];
    UnusedShrinks(fam, cursors, c);
    hide Unused;
    assert (frames + rest)[1..] == frames[1..] + rest;
    DrainSplices(fam, turn, frames[1..] + rest, moved);
    var inner := Splice(fam, turn, moved);
    if inner.Ok? {
      DrainSplices(fam, frames[1..], rest, inner.value.1);
      var later := Splice(fam, frames[1..], inner.value.1);
      if later.Ok? {
        var below := Drain(fam, rest, later.value.1);
        if below.Ok? {
          Regroup(f, inner.value.0, later.value.0, below.value.0);
        }
      }
    }
  }

  lemma Regroup(f: Frame, a: seq<Frame>, b: seq<Frame>, c: seq<Frame>)
    ensures [f] + (a + (b + c)) == ([f] + a + b) + c
  {
  }

  /** The explicit stack computes the recursive pre-order, errors included. */
  lemma DrainIsSplice(fam: Family, frames: seq<Frame>, cursors: Cursors)
    ensures Drain(fam, frames, cursors) == Splice(fam, frames, cursors)
  {
    DrainSplices(fam, frames, [], cursors);
    assert frames + [] == frames;
    var spliced := Splice(fam, frames, cursors);
    if spliced.Ok? {
      assert spliced.value.0 + [] == spliced.value.0;
    }
  }

  // ---------------------------------------------------------------- families as trees

  /** Which thread delegates to which: `depth` grows by one from caller to child. */
  datatype Lineage = Lineage(parent: map<string, string>, depth: map<string, nat>)

  ghost predicate ChildPlaced(fam: Family, line: Lineage, c: string) {
    && c in line.parent && c in line.depth && line.parent[c] in line.depth
    && (line.parent[c] == fam.rootId || line.parent[c] in fam.turns)
    && line.depth[c] == line.depth[line.parent[c]] + 1
  }

  /** A frame delegates only to a child of its own thread. */
  predicate Proper(fam: Family, line: Lineage, f: Frame) {
    match Link(f)
    case None => true
    case Some(c) => c in fam.turns && c in line.parent && line.parent[c] == f.owner
  }

  ghost predicate OwnedBy(fam: Family, line: Lineage, frames: seq<Frame>, p: string) {
    forall i :: 0 <= i < |frames| ==> frames[i].owner == p && Proper(fam, line, frames[i])
  }

  ghost predicate TurnOwned(fam: Family, line: Lineage, c: string, t: nat)
    requires c in fam.turns && t < |fam.turns[c]|
  {
    OwnedBy(fam, line, fam.turns[c][t], c)
  }

  ghost predicate Tree(fam: Family, line: Lineage) {
    && fam.rootId !in fam.turns && fam.rootId in line.depth
    && (forall c {:trigger ChildPlaced(fam, line, c)} :: c in fam.turns ==> ChildPlaced(fam, line, c))
    && (forall c, t {:trigger TurnOwned(fam, line, c, t)} :: c in fam.turns && 0 <= t < |fam.turns[c]| ==>
          TurnOwned(fam, line, c, t))
    && OwnedBy(fam, line, fam.root, fam.rootId)
  }

  ghost predicate Member(fam: Family, c: string) {
    c == fam.rootId || c in fam.turns
  }

  /** Not below `p`: the traversal of `p`'s frames never touches it. */
  ghost predicate NotBelow(fam: Family, line: Lineage, p: string, c: string)
    requires p in line.depth
  {
    c !in fam.turns || (c in line.depth && line.depth[c] <= line.depth[p])
  }

  lemma ChildStep(fam: Family, line: Lineage, p: string, f: Frame, c: string)
    requires Tree(fam, line) && Member(fam, p) && f.owner == p && Proper(fam, line, f) && Link(f) == Some(c)
    ensures Member(fam, c) && ChildPlaced(fam, line, c) && line.parent[c] == p && p in line.depth
    ensures c in line.depth && line.depth[c] == line.depth[p] + 1 && c != p
  {
    assert ChildPlaced(fam, line, c);
  }

  // ---------------------------------------------------------------- what one thread sees

  function OwnFrames(frames: seq<Frame>, id: string): seq<Frame> {
    if frames == [] then []
    else (if frames[0].owner == id then [frames[0]] else []) + OwnFrames(frames[1..], id)
  }

  lemma {:induction false} OwnAppend(a: seq<Frame>, b: seq<Frame>, id: string)
    ensures OwnFrames(a + b, id) == OwnFrames(a, id) + OwnFrames(b, id)
  {
    if a == [] {
      assert a + b == b;
    } else {
      OwnAppend(a[1..], b, id);
      Assoc(if a[0].owner == id then [a[0]] else [], OwnFrames(a[1..], id), OwnFrames(b, id));
      assert (a + b)[1..] == a[1..] + b;
    }
  }

  /** The turns of a thread between two cursor positions. */
  function Turns(fam: Family, c: string, from: nat, to: nat): seq<Frame> {
    if c in fam.turns && from <= to <= |fam.turns[c]| then Flatten(fam.turns[c][from..to]) else []
  }

  lemma TurnsJoin(fam: Family, c: string, i: nat, j: nat, k: nat)
    requires i <= j <= k && (c in fam.turns ==> k <= |fam.turns[c]|)
    ensures Turns(fam, c, i, j) + Turns(fam, c, j, k) == Turns(fam, c, i, k)
  {
    if c in fam.turns {
      var all := fam.turns[c];
      FlattenAppend(all[i..j], all[j..k]);
      assert all[i..j] + all[j..k] == all[i..k];
    }
  }

  lemma OneTurn(fam: Family, c: string, i: nat)
    requires c in fam.turns && i < |fam.turns[c]|
    ensures Turns(fam, c, i, i + 1) == fam.turns[c][i]
  {
    assert fam.turns[c][i..i + 1] == [fam.turns[c][i]];
    assert Flatten([fam.turns[c][i]]) == fam.turns[c][i];
  }

  lemma NoTurns(fam: Family, c: string, i: nat)
    ensures Turns(fam, c, i, i) == []
  {
    if c in fam.turns && i <= |fam.turns[c]| {
      assert fam.turns[c][i..i] == [];
    }
  }

  predicate InRange(fam: Family, cursors: Cursors, c: string) {
    c in fam.turns ==> Cursor(cursors, c) <= |fam.turns[c]|
  }

  /** What splicing `p`'s frames does to one thread `c`. */
  ghost predicate Share(fam: Family, line: Lineage, p: string, frames: seq<Frame>, before: Cursors, out: seq<Frame>,
                        after: Cursors, c: string)
    requires p in line.depth
  {
    && InRange(fam, after, c) && Cursor(before, c) <= Cursor(after, c)
    && (NotBelow(fam, line, p, c) ==> Cursor(after, c) == Cursor(before, c))
    && OwnFrames(out, c) == (if c == p then frames else Turns(fam, c, Cursor(before, c), Cursor(after, c)))
  }

  /** Every thread sees exactly the turns its cursor passed, in order. */
  lemma {:induction false} SpliceShares(fam: Family, line: Lineage, p: string, frames: seq<Frame>, cursors: Cursors,
                                        c: string)
    requires Tree(fam, line) && Member(fam, p) && p in line.depth && OwnedBy(fam, line, frames, p)
    requires InRange(fam, cursors, c) && Splice(fam, frames, cursors).Ok?
    ensures var out := Splice(fam, frames, cursors).value; Share(fam, line, p, frames, cursors, out.0, out.1, c)
    decreases Unused(fam, cursors), |frames|
  {
    if frames == [] {
      NoTurns(fam, c, Cursor(cursors, c));
    } else {
      hide Turns, Share, Tree, Unused;
      var f := frames[0];
      assert f.owner == p && Proper(fam, line, f);
      match Link(f)
      case None =>
        SpliceShares(fam, line, p, frames[1..], cursors, c);
        var rest := Splice(fam, frames[1..], cursors).value;
        ShareAfter(fam, line, p, f, frames[1..], cursors, rest.0, rest.1, c);
        assert [f] + frames[1..] == frames;
      case Some(d) =>
        ShareOfCall(fam, line, p, frames, cursors, c, d);
    }
  }

  lemma OwnOne(f: Frame, c: string)
    ensures OwnFrames([f], c) == if f.owner == c then [f] else []
  {
    assert [f][1..] == [];
  }

  lemma ShareAfter(fam: Family, line: Lineage, p: string, f: Frame, tail: seq<Frame>, cursors: Cursors,
                   rest: seq<Frame>, after: Cursors, c: string)
    requires p in line.depth && f.owner == p && Share(fam, line, p, tail, cursors, rest, after, c)
    ensures Share(fam, line, p, [f] + tail, cursors, [f] + rest, after, c)
  {
    OwnAppend([f], rest, c);
    OwnOne(f, c);
    hide OwnFrames, Turns;
  }

  lemma SpliceCall(fam: Family, frames: seq<Frame>, cursors: Cursors, d: string)
    requires frames != [] && Link(frames[0]) == Some(d) && Splice(fam, frames, cursors).Ok?
    ensures HasTurn(fam, cursors, d)
    ensures var at := Cursor(cursors, d);
            var inner := Splice(fam, fam.turns[d][at], cursors[d := at + 1]);
            inner.Ok?
            && var rest := Splice(fam, frames[1..], inner.value.1);
               rest.Ok? && Splice(fam, frames, cursors)
               == Ok(([frames[0]] + inner.value.0 + rest.value.0, rest.value.1))
  {
  }

  lemma {:induction false} ShareOfCall(fam: Family, line: Lineage, p: string, frames: seq<Frame>, cursors: Cursors,
                                       c: string, d: string)
    requires Tree(fam, line) && Member(fam, p) && p in line.depth && OwnedBy(fam, line, frames, p)
    requires InRange(fam, cursors, c) && Splice(fam, frames, cursors).Ok?
    requires frames != [] && Link(frames[0]) == Some(d)
    ensures var out := Splice(fam, frames, cursors).value; Share(fam, line, p, frames, cursors, out.0, out.1, c)
    decreases Unused(fam, cursors), |frames|, 0
  {
    hide Splice, Share, NotBelow, Turns, Unused, Tree, TurnOwned, OwnFrames;
    SpliceCall(fam, frames, cursors, d);
    var f, at := frames[0], Cursor(cursors, d);
    ChildStep(fam, line, p, f, d);
    var turn, moved := fam.turns[d][at], cursors[d := at + 1];
    UnusedShrinks(fam, cursors, d);
    TreeTurn(fam, line, d, at);
    TreeChild(fam, line, c);
    SpliceShares(fam, line, d, turn, moved, c);
    var inner := Splice(fam, turn, moved).value;
    ShareInRange(fam, line, d, turn, moved, inner.0, inner.1, c);
    SpliceShares(fam, line, p, frames[1..], inner.1, c);
    var rest := Splice(fam, frames[1..], inner.1).value;
    ShareJoins(fam, line, p, d, f, frames[1..], cursors, inner.0, inner.1, rest.0, rest.1, c);
    assert [f] + frames[1..] == frames;
  }

  lemma TreeTurn(fam: Family, line: Lineage, c: string, t: nat)
    requires Tree(fam, line) && c in fam.turns && t < |fam.turns[c]|
    ensures OwnedBy(fam, line, fam.turns[c][t], c)
  {
    assert TurnOwned(fam, line, c, t);
  }

  lemma TreeChild(fam: Family, line: Lineage, c: string)
    requires Tree(fam, line)
    ensures c in fam.turns ==> ChildPlaced(fam, line, c)
    ensures fam.rootId !in fam.turns
  {
  }

  lemma ShareInRange(fam: Family, line: Lineage, p: string, frames: seq<Frame>, before: Cursors, out: seq<Frame>,
                     after: Cursors, c: string)
    requires p in line.depth && Share(fam, line, p, frames, before, out, after, c)
    ensures InRange(fam, after, c)
  {
  }

  lemma ShareJoins(fam: Family, line: Lineage, p: string, d: string, f: Frame, tail: seq<Frame>, cursors: Cursors,
                   inner: seq<Frame>, mid: Cursors, rest: seq<Frame>, after: Cursors, c: string)
    requires p in line.depth && d in line.depth && line.depth[d] == line.depth[p] + 1 && p != d && f.owner == p
    requires HasTurn(fam, cursors, d) && Member(fam, p) && fam.rootId !in fam.turns
    requires c in fam.turns && c != p ==> c in line.depth
    requires var at := Cursor(cursors, d);
             Share(fam, line, d, fam.turns[d][at], cursors[d := at + 1], inner, mid, c)
    requires Share(fam, line, p, tail, mid, rest, after, c)
    ensures Share(fam, line, p, [f] + tail, cursors, [f] + inner + rest, after, c)
  {
    var at := Cursor(cursors, d);
    OwnAppend([f] + inner, rest, c);
    OwnAppend([f], inner, c);
    OwnOne(f, c);
    hide OwnFrames;
    NoTurns(fam, c, Cursor(mid, c));
    if c == d {
      OneTurn(fam, d, at);
      TurnsJoin(fam, d, at, at + 1, Cursor(after, d));
    } else if c != p {
      TurnsJoin(fam, c, Cursor(cursors, c), Cursor(mid, c), Cursor(after, c));
    }
    hide Turns;
  }

  // ---------------------------------------------------------------- calls against turns

  predicate Calls(f: Frame, c: string) {
    Link(f) == Some(c)
  }

  function CallCount(frames: seq<Frame>, c: string): nat {
    if frames == [] then 0 else (if Calls(frames[0], c) then 1 else 0) + CallCount(frames[1..], c)
  }

  lemma {:induction false} CallAppend(a: seq<Frame>, b: seq<Frame>, c: string)
    ensures CallCount(a + b, c) == CallCount(a, c) + CallCount(b, c)
  {
    if a == [] {
      assert a + b == b;
    } else {
      CallAppend(a[1..], b, c);
      assert (a + b)[1..] == a[1..] + b;
    }
  }

  lemma CallCons(f: Frame, rest: seq<Frame>, c: string)
    ensures CallCount([f] + rest, c) == (if Calls(f, c) then 1 else 0) + CallCount(rest, c)
  {
    assert ([f] + rest)[1..] == rest;
  }

  /** A cursor moves once per emitted call. */
  lemma {:induction false} CursorCounts(fam: Family, frames: seq<Frame>, cursors: Cursors, c: string)
    requires Splice(fam, frames, cursors).Ok?
    ensures var out := Splice(fam, frames, cursors).value;
            Cursor(out.1, c) == Cursor(cursors, c) + CallCount(out.0, c)
    decreases Unused(fam, cursors), |frames|
  {
    if frames != [] {
      match Link(frames[0])
      case None =>
        CursorCounts(fam, frames[1..], cursors, c);
        CallCons(frames[0], Splice(fam, frames[1..], cursors).value.0, c);
      case Some(d) =>
        CursorCountsCall(fam, frames, cursors, c, d);
    }
  }

  lemma {:induction false} CursorCountsCall(fam: Family, frames: seq<Frame>, cursors: Cursors, c: string, d: string)
    requires Splice(fam, frames, cursors).Ok? && frames != [] && Link(frames[0]) == Some(d)
    ensures var out := Splice(fam, frames, cursors).value;
            Cursor(out.1, c) == Cursor(cursors, c) + CallCount(out.0, c)
    decreases Unused(fam, cursors), |frames|, 0
  {
    hide Splice, Unused, CallCount;
    SpliceCall(fam, frames, cursors, d);
    UnusedShrinks(fam, cursors, d);
    var at := Cursor(cursors, d);
    CursorCounts(fam, fam.turns[d][at], cursors[d := at + 1], c);
    var inner := Splice(fam, fam.turns[d][at], cursors[d := at + 1]).value;
    CursorCounts(fam, frames[1..], inner.1, c);
    var rest := Splice(fam, frames[1..], inner.1).value;
    CallAppend([frames[0]] + inner.0, rest.0, c);
    CallCons(frames[0], inner.0, c);
  }

  ghost predicate AllProper(fam: Family, line: Lineage, frames: seq<Frame>) {
    forall i :: 0 <= i < |frames| ==> Proper(fam, line, frames[i]) && Member(fam, frames[i].owner)
  }

  lemma {:induction false} SpliceProper(fam: Family, line: Lineage, p: string, frames: seq<Frame>, cursors: Cursors)
    requires Tree(fam, line) && Member(fam, p) && OwnedBy(fam, line, frames, p) && Splice(fam, frames, cursors).Ok?
    ensures AllProper(fam, line, Splice(fam, frames, cursors).value.0)
    decreases Unused(fam, cursors), |frames|
  {
    if frames != [] {
      assert frames[0].owner == p && Proper(fam, line, frames[0]);
      match Link(frames[0])
      case None =>
        SpliceProper(fam, line, p, frames[1..], cursors);
      case Some(d) =>
        SpliceCall(fam, frames, cursors, d);
        hide Splice;
        UnusedShrinks(fam, cursors, d);
        var at := Cursor(cursors, d);
        assert TurnOwned(fam, line, d, at);
        hide Unused, Tree, Proper;
        SpliceProper(fam, line, d, fam.turns[d][at], cursors[d := at + 1]);
        SpliceProper(fam, line, p, frames[1..], Splice(fam, fam.turns[d][at], cursors[d := at + 1]).value.1);
    }
  }

  /** Calls to a child are made by its parent's frames only. */
  lemma {:induction false} CallsAreOwn(fam: Family, line: Lineage, frames: seq<Frame>, c: string)
    requires AllProper(fam, line, frames) && c in line.parent
    ensures CallCount(frames, c) == CallCount(OwnFrames(frames, line.parent[c]), c)
  {
    if frames != [] {
      CallsAreOwn(fam, line, frames[1..], c);
      assert Proper(fam, line, frames[0]);
      var own := OwnFrames(frames[1..], line.parent[c]);
      if frames[0].owner == line.parent[c] {
        CallCons(frames[0], own, c);
      } else {
        assert [] + own == own;
      }
    }
  }

  lemma {:induction false} NoForeignCalls(fam: Family, line: Lineage, frames: seq<Frame>, p: string, c: string)
    requires OwnedBy(fam, line, frames, p) && c in line.parent && line.parent[c] != p
    ensures CallCount(frames, c) == 0
  {
    if frames != [] {
      assert Proper(fam, line, frames[0]) && frames[0].owner == p;
      NoForeignCalls(fam, line, frames[1..], p, c);
    }
  }

  /** Calls still to come: in the frames at hand and in the turns the parent has left. */
  ghost function Outstanding(fam: Family, line: Lineage, frames: seq<Frame>, cursors: Cursors, c: string): nat
    requires c in line.parent
  {
    var q := line.parent[c];
    CallCount(frames, c)
    + (if q in fam.turns then CallCount(Turns(fam, q, Cursor(cursors, q), |fam.turns[q]|), c) else 0)
  }

  /** The calls made and outstanding never exceed the turns of the child. */
  ghost predicate Budget(fam: Family, line: Lineage, frames: seq<Frame>, cursors: Cursors, c: string)
    requires c in line.parent && c in fam.turns
  {
    Cursor(cursors, c) + Outstanding(fam, line, frames, cursors, c) <= |fam.turns[c]|
  }

  ghost predicate BudgetHolds(fam: Family, line: Lineage, frames: seq<Frame>, cursors: Cursors, c: string)
    requires c in fam.turns
  {
    ChildPlaced(fam, line, c) && InRange(fam, cursors, c) && Budget(fam, line, frames, cursors, c)
  }

  ghost predicate Budgets(fam: Family, line: Lineage, frames: seq<Frame>, cursors: Cursors) {
    forall c {:trigger BudgetHolds(fam, line, frames, cursors, c)} :: c in fam.turns ==>
      BudgetHolds(fam, line, frames, cursors, c)
  }

  /** Entering a call spends one turn of the child and makes its calls available. */
  lemma BudgetEnters(fam: Family, line: Lineage, p: string, frames: seq<Frame>, cursors: Cursors, d: string, c: string)
    requires Tree(fam, line) && Member(fam, p) && OwnedBy(fam, line, frames, p) && frames != []
             && Link(frames[0]) == Some(d)
    requires HasTurn(fam, cursors, d) && c in fam.turns && ChildPlaced(fam, line, c)
    requires InRange(fam, cursors, c) && Budget(fam, line, frames, cursors, c)
    requires line.parent[c] in fam.turns ==> InRange(fam, cursors, line.parent[c])
    ensures var at := Cursor(cursors, d); var moved := cursors[d := at + 1];
            InRange(fam, moved, c) && Budget(fam, line, fam.turns[d][at], moved, c)
  {
    var at, q := Cursor(cursors, d), line.parent[c];
    var turn, moved := fam.turns[d][at], cursors[d := at + 1];
    assert frames[0].owner == p && Proper(fam, line, frames[0]);
    assert TurnOwned(fam, line, d, at);
    CallCons(frames[0], frames[1..], c);
    assert [frames[0]] + frames[1..] == frames;
    hide Tree, Turns, CallCount;
    if q == d {
      TurnsJoin(fam, d, at, at + 1, |fam.turns[d]|);
      OneTurn(fam, d, at);
      CallAppend(turn, Turns(fam, d, at + 1, |fam.turns[d]|), c);
    } else {
      NoForeignCalls(fam, line, turn, d, c);
    }
  }

  lemma BudgetAdds(fam: Family, line: Lineage, p: string, f: Frame, tail: seq<Frame>, cursors: Cursors, d: string,
                   inner: seq<Frame>, after: Cursors, c: string)
    requires p in line.depth && d in line.depth && p != d && HasTurn(fam, cursors, d) && Link(f) == Some(d)
    requires c in fam.turns && ChildPlaced(fam, line, c)
    requires Budget(fam, line, [f] + tail, cursors, c)
    requires CallCount([f] + tail, c) == (if c == d then 1 else 0) + CallCount(tail, c)
    requires var at, q := Cursor(cursors, d), line.parent[c];
             var moved := cursors[d := at + 1];
             && Budget(fam, line, fam.turns[d][at], moved, c)
             && Share(fam, line, d, fam.turns[d][at], moved, inner, after, c)
             && Share(fam, line, d, fam.turns[d][at], moved, inner, after, q)
             && Cursor(after, c) == Cursor(moved, c) + CallCount(OwnFrames(inner, q), c)
             && (q != p ==> CallCount(tail, c) == 0)
    ensures InRange(fam, after, c) && Budget(fam, line, tail, after, c)
  {
    hide CallCount, OwnFrames, Turns;
    var q := line.parent[c];
    if q != d && q in fam.turns {
      TurnsJoin(fam, q, Cursor(cursors, q), Cursor(after, q), |fam.turns[q]|);
      CallAppend(Turns(fam, q, Cursor(cursors, q), Cursor(after, q)),
                 Turns(fam, q, Cursor(after, q), |fam.turns[q]|), c);
    } else if q != d {
      RootHasNoTurns(fam, q, Cursor(cursors, q), Cursor(after, q), c);
    }
  }

  lemma RootHasNoTurns(fam: Family, q: string, i: nat, j: nat, c: string)
    requires q !in fam.turns
    ensures CallCount(Turns(fam, q, i, j), c) == 0
  {
  }

  /** After a call returns, the rest of the caller's frames still has its budget. */
  lemma BudgetReturns(fam: Family, line: Lineage, p: string, frames: seq<Frame>, cursors: Cursors, d: string, c: string)
    requires Tree(fam, line) && Member(fam, p) && p in line.depth && OwnedBy(fam, line, frames, p)
    requires frames != [] && Link(frames[0]) == Some(d) && HasTurn(fam, cursors, d) && c in fam.turns
             && ChildPlaced(fam, line, c)
    requires InRange(fam, cursors, c) && Budget(fam, line, frames, cursors, c)
    requires line.parent[c] in fam.turns ==> InRange(fam, cursors, line.parent[c])
    requires var at := Cursor(cursors, d); Splice(fam, fam.turns[d][at], cursors[d := at + 1]).Ok?
    ensures var at := Cursor(cursors, d);
            var after := Splice(fam, fam.turns[d][at], cursors[d := at + 1]).value.1;
            InRange(fam, after, c) && Budget(fam, line, frames[1..], after, c)
  {
    var at, q := Cursor(cursors, d), line.parent[c];
    var turn, moved := fam.turns[d][at], cursors[d := at + 1];
    var inner := Splice(fam, turn, moved).value;
    ChildStep(fam, line, p, frames[0], d);
    assert TurnOwned(fam, line, d, at);
    BudgetEnters(fam, line, p, frames, cursors, d, c);
    SpliceShares(fam, line, d, turn, moved, c);
    SpliceShares(fam, line, d, turn, moved, q);
    SpliceProper(fam, line, d, turn, moved);
    CursorCounts(fam, turn, moved, c);
    CallsAreOwn(fam, line, inner.0, c);
    assert [frames[0]] + frames[1..] == frames;
    CallCons(frames[0], frames[1..], c);
    assert OwnedBy(fam, line, frames[1..], p);
    if q != p {
      NoForeignCalls(fam, line, frames[1..], p, c);
    }
    assert p != d;
    hide Splice, Tree, Turns, CallCount, OwnedBy, AllProper;
    BudgetAdds(fam, line, p, frames[0], frames[1..], cursors, d, inner.0, inner.1, c);
  }

  lemma BudgetHasTurn(fam: Family, line: Lineage, frames: seq<Frame>, cursors: Cursors, d: string)
    requires Budgets(fam, line, frames, cursors) && frames != [] && Link(frames[0]) == Some(d) && d in fam.turns
    ensures HasTurn(fam, cursors, d)
  {
    assert BudgetHolds(fam, line, frames, cursors, d);
    CallCons(frames[0], frames[1..], d);
    assert [frames[0]] + frames[1..] == frames;
  }

  /** Within budget the traversal never meets a call without a turn. */
  lemma {:induction false} SpliceSucceeds(fam: Family, line: Lineage, p: string, frames: seq<Frame>, cursors: Cursors)
    requires Tree(fam, line) && Member(fam, p) && p in line.depth && OwnedBy(fam, line, frames, p)
    requires Budgets(fam, line, frames, cursors)
    ensures Splice(fam, frames, cursors).Ok?
    decreases Unused(fam, cursors), |frames|
  {
    if frames != [] {
      var f := frames[0];
      assert f.owner == p && Proper(fam, line, f);
      match Link(f)
      case None =>
        BudgetsSkip(fam, line, frames, cursors);
        SpliceSucceeds(fam, line, p, frames[1..], cursors);
      case Some(d) =>
        CallSucceeds(fam, line, p, frames, cursors, d);
    }
  }

  lemma BudgetsSkip(fam: Family, line: Lineage, frames: seq<Frame>, cursors: Cursors)
    requires Budgets(fam, line, frames, cursors) && frames != [] && Link(frames[0]).None?
    ensures Budgets(fam, line, frames[1..], cursors)
  {
    forall c | c in fam.turns
      ensures BudgetHolds(fam, line, frames[1..], cursors, c)
    {
      assert BudgetHolds(fam, line, frames, cursors, c);
      CallCons(frames[0], frames[1..], c);
      assert [frames[0]] + frames[1..] == frames;
    }
  }

  lemma BudgetsMove(fam: Family, line: Lineage, p: string, frames: seq<Frame>, cursors: Cursors, d: string)
    requires Tree(fam, line) && Member(fam, p) && p in line.depth && OwnedBy(fam, line, frames, p)
    requires Budgets(fam, line, frames, cursors) && frames != [] && Link(frames[0]) == Some(d)
             && HasTurn(fam, cursors, d)
    ensures var at := Cursor(cursors, d); var moved := cursors[d := at + 1];
            && Budgets(fam, line, fam.turns[d][at], moved)
            && (Splice(fam, fam.turns[d][at], moved).Ok? ==>
                  Budgets(fam, line, frames[1..], Splice(fam, fam.turns[d][at], moved).value.1))
  {
    var at := Cursor(cursors, d);
    var moved := cursors[d := at + 1];
    var inner := Splice(fam, fam.turns[d][at], moved);
    forall c | c in fam.turns
      ensures BudgetHolds(fam, line, fam.turns[d][at], moved, c)
      ensures inner.Ok? ==> BudgetHolds(fam, line, frames[1..], inner.value.1, c)
    {
      assert BudgetHolds(fam, line, frames, cursors, c);
      if line.parent[c] in fam.turns {
        assert BudgetHolds(fam, line, frames, cursors, line.parent[c]);
      }
      hide Splice, Budget, Tree, OwnedBy;
      BudgetEnters(fam, line, p, frames, cursors, d, c);
      if inner.Ok? {
        BudgetReturns(fam, line, p, frames, cursors, d, c);
      }
    }
    hide Splice, BudgetHolds;
  }

  lemma {:induction false} CallSucceeds(fam: Family, line: Lineage, p: string, frames: seq<Frame>, cursors: Cursors,
                                        d: string)
    requires Tree(fam, line) && Member(fam, p) && p in line.depth && OwnedBy(fam, line, frames, p)
    requires Budgets(fam, line, frames, cursors) && frames != [] && Link(frames[0]) == Some(d)
    ensures Splice(fam, frames, cursors).Ok?
    decreases Unused(fam, cursors), |frames|, 0
  {
    ChildStep(fam, line, p, frames[0], d);
    assert d in fam.turns;
    BudgetHasTurn(fam, line, frames, cursors, d);
    var at := Cursor(cursors, d);
    assert TurnOwned(fam, line, d, at);
    UnusedShrinks(fam, cursors, d);
    BudgetsMove(fam, line, p, frames, cursors, d);
    hide Tree, Budgets, Unused;
    SpliceSucceeds(fam, line, d, fam.turns[d][at], cursors[d := at + 1]);
    var inner := Splice(fam, fam.turns[d][at], cursors[d := at + 1]).value;
    assert OwnedBy(fam, line, frames[1..], p);
    SpliceSucceeds(fam, line, p, frames[1..], inner.1);
  }

  // ---------------------------------------------------------------- the whole family

  function AllTurns(fam: Family, c: string): seq<Frame> {
    if c == fam.rootId then fam.root else if c in fam.turns then Flatten(fam.turns[c]) else []
  }

  /** Every child is called exactly as often as it has turns. */
  ghost predicate Balanced(fam: Family, line: Lineage) {
    forall c {:trigger ChildPlaced(fam, line, c)} :: c in fam.turns ==>
      ChildPlaced(fam, line, c) && CallCount(AllTurns(fam, line.parent[c]), c) == |fam.turns[c]|
  }

  lemma WholeTurns(fam: Family, c: string)
    requires c in fam.turns && c != fam.rootId
    ensures Turns(fam, c, 0, |fam.turns[c]|) == AllTurns(fam, c)
  {
    assert fam.turns[c][0..|fam.turns[c]|] == fam.turns[c];
  }

  lemma StartBudgets(fam: Family, line: Lineage)
    requires Tree(fam, line) && Balanced(fam, line)
    ensures Budgets(fam, line, fam.root, map[])
  {
    forall c | c in fam.turns
      ensures BudgetHolds(fam, line, fam.root, map[], c)
    {
      assert ChildPlaced(fam, line, c);
      hide CallCount, Turns;
      if line.parent[c] != fam.rootId {
        WholeTurns(fam, line.parent[c]);
        NoForeignCalls(fam, line, fam.root, fam.rootId, c);
      }
    }
  }

  /** Once its parent is fully shown, so is the child. */
  lemma {:induction false} ChildConsumed(fam: Family, line: Lineage, c: string)
    requires Tree(fam, line) && Balanced(fam, line) && c in fam.turns && Splice(fam, fam.root, map[]).Ok?
    requires c in line.depth
    ensures var out := Splice(fam, fam.root, map[]).value;
            Cursor(out.1, c) == |fam.turns[c]| && OwnFrames(out.0, c) == AllTurns(fam, c)
    decreases line.depth[c]
  {
    assert ChildPlaced(fam, line, c);
    var q := line.parent[c];
    var out := Splice(fam, fam.root, map[]).value;
    SpliceShares(fam, line, fam.rootId, fam.root, map[], c);
    SpliceShares(fam, line, fam.rootId, fam.root, map[], q);
    CursorCounts(fam, fam.root, map[], c);
    SpliceProper(fam, line, fam.rootId, fam.root, map[]);
    CallsAreOwn(fam, line, out.0, c);
    if q != fam.rootId {
      ChildConsumed(fam, line, q);
    }
    hide Splice, CallCount, OwnFrames, Turns, OwnedBy, Proper;
    WholeTurns(fam, c);
  }

  /** Main result. In a tree-shaped family whose calls and turns match in number, the
    * explicit stack succeeds, equals the recursive pre-order, consumes every turn, and
    * shows every frame of every thread exactly once, in the thread's own order. */
  lemma FamilyComplete(fam: Family, line: Lineage)
    requires Tree(fam, line) && Balanced(fam, line)
    ensures Drain(fam, fam.root, map[]).Ok?
    ensures Drain(fam, fam.root, map[]) == Splice(fam, fam.root, map[])
    ensures var out := Drain(fam, fam.root, map[]).value;
            && OwnFrames(out.0, fam.rootId) == fam.root
            && (forall c :: c in fam.turns ==>
                  Cursor(out.1, c) == |fam.turns[c]| && OwnFrames(out.0, c) == Flatten(fam.turns[c]))
            && (forall i :: 0 <= i < |out.0| ==> out.0[i].owner == fam.rootId || out.0[i].owner in fam.turns)
  {
    StartBudgets(fam, line);
    SpliceSucceeds(fam, line, fam.rootId, fam.root, map[]);
    DrainIsSplice(fam, fam.root, map[]);
    SpliceShares(fam, line, fam.rootId, fam.root, map[], fam.rootId);
    SpliceProper(fam, line, fam.rootId, fam.root, map[]);
    var out := Drain(fam, fam.root, map[]).value;
    forall c | c in fam.turns
      ensures Cursor(out.1, c) == |fam.turns[c]| && OwnFrames(out.0, c) == Flatten(fam.turns[c])
    {
      assert ChildPlaced(fam, line, c);
      ChildConsumed(fam, line, c);
    }
    hide Drain, Splice, Budgets, Balanced;
  }

  /** The turn that a call to `c` at place `i` starts, and where it shows. */
  ghost predicate Follows(fam: Family, cursors: Cursors, out: seq<Frame>, i: nat, c: string)
    requires i < |out|
  {
    var at := Cursor(cursors, c) + CallCount(out[..i], c);
    && c in fam.turns && at < |fam.turns[c]|
    && (fam.turns[c][at] != [] ==> i + 1 < |out| && out[i + 1] == fam.turns[c][at][0])
  }

  lemma FollowsLater(fam: Family, f: Frame, cursors: Cursors, moved: Cursors, rest: seq<Frame>, i: nat, c: string)
    requires i < |rest| && Follows(fam, moved, rest, i, c)
    requires Cursor(moved, c) == Cursor(cursors, c) + if Link(f) == Some(c) then 1 else 0
    ensures Follows(fam, cursors, [f] + rest, i + 1, c)
  {
    hide Link;
    assert ([f] + rest)[..i + 1] == [f] + rest[..i];
    CallCons(f, rest[..i], c);
  }

  lemma DrainStarts(fam: Family, turn: seq<Frame>, below: seq<Frame>, cursors: Cursors)
    requires Drain(fam, turn + below, cursors).Ok? && turn != []
    ensures var out := Drain(fam, turn + below, cursors).value.0; out != [] && out[0] == turn[0]
  {
    hide Unused;
  }

  lemma DrainCons(fam: Family, pending: seq<Frame>, cursors: Cursors) returns (moved: Cursors, later: seq<Frame>)
    requires Drain(fam, pending, cursors).Ok? && pending != []
    ensures Drain(fam, later, moved).Ok?
    ensures Drain(fam, pending, cursors).value.0 == [pending[0]] + Drain(fam, later, moved).value.0
    ensures match Link(pending[0])
            case None => moved == cursors && later == pending[1..]
            case Some(d) =>
              && HasTurn(fam, cursors, d) && moved == cursors[d := Cursor(cursors, d) + 1]
              && later == fam.turns[d][Cursor(cursors, d)] + pending[1..]
  {
    match Link(pending[0])
    case None =>
      moved, later := cursors, pending[1..];
    case Some(d) =>
      UnusedShrinks(fam, cursors, d);
      hide Unused;
      moved, later := cursors[d := Cursor(cursors, d) + 1], fam.turns[d][Cursor(cursors, d)] + pending[1..];
  }

  /** Each call is followed at once by the start of the child's next turn: the one whose number
    * is the count of calls to the child shown before. */
  lemma {:induction false} TurnFollowsCall(fam: Family, pending: seq<Frame>, cursors: Cursors, i: nat, c: string)
    requires Drain(fam, pending, cursors).Ok? && i < |Drain(fam, pending, cursors).value.0|
    requires Link(Drain(fam, pending, cursors).value.0[i]) == Some(c)
    ensures Follows(fam, cursors, Drain(fam, pending, cursors).value.0, i, c)
    decreases i
  {
    if pending == [] {
      return;
    }
    hide Drain, Unused, Link, Follows;
    var out := Drain(fam, pending, cursors).value.0;
    var moved, later := DrainCons(fam, pending, cursors);
    var rest := Drain(fam, later, moved).value.0;
    if i == 0 {
      CallFirst(fam, pending, cursors, moved, later, rest, c);
    } else {
      TurnFollowsCall(fam, later, moved, i - 1, c);
      FollowsLater(fam, pending[0], cursors, moved, rest, i - 1, c);
    }
  }

  lemma CallFirst(fam: Family, pending: seq<Frame>, cursors: Cursors, moved: Cursors, later: seq<Frame>,
                  rest: seq<Frame>, c: string)
    requires pending != [] && Link(pending[0]) == Some(c) && HasTurn(fam, cursors, c)
    requires later == fam.turns[c][Cursor(cursors, c)] + pending[1..] && Drain(fam, later, moved).Ok?
    requires rest == Drain(fam, later, moved).value.0
    ensures Follows(fam, cursors, [pending[0]] + rest, 0, c)
  {
    hide Drain;
    assert CallCount(([pending[0]] + rest)[..0], c) == 0;
    var turn := fam.turns[c][Cursor(cursors, c)];
    if turn != [] {
      DrainStarts(fam, turn, pending[1..], moved);
    }
  }

  /** What a thread shows before one of its frames. */
  lemma OwnBefore(out: seq<Frame>, i: nat) returns (a: nat)
    requires i < |out|
    ensures var own := OwnFrames(out, out[i].owner);
            a < |own| && own[a] == out[i] && OwnFrames(out[..i], out[i].owner) == own[..a]
  {
    var id := out[i].owner;
    OwnAppend(out[..i], out[i..], id);
    TakeDrop(out, i);
    a := |OwnFrames(out[..i], id)|;
    assert OwnFrames(out[i..], id) == [out[i]] + OwnFrames(out[i..][1..], id);
  }

  /** The place of a call among all calls to its child is its place among its thread's frames. */
  lemma CountsOwn(fam: Family, line: Lineage, out: seq<Frame>, i: nat, c: string) returns (p: nat)
    requires i < |out| && AllProper(fam, line, out) && c in line.parent && line.parent[c] == out[i].owner
    ensures var own := OwnFrames(out, out[i].owner);
            p < |own| && own[p] == out[i] && CallCount(out[..i], c) == CallCount(own[..p], c)
  {
    hide OwnFrames, CallCount, Proper;
    p := OwnBefore(out, i);
    CallsAreOwn(fam, line, out[..i], c);
  }

  lemma OutIsProper(fam: Family, line: Lineage)
    requires Tree(fam, line) && Drain(fam, fam.root, map[]).Ok?
    ensures AllProper(fam, line, Drain(fam, fam.root, map[]).value.0)
  {
    hide Drain, Splice;
    DrainIsSplice(fam, fam.root, map[]);
    SpliceProper(fam, line, fam.rootId, fam.root, map[]);
  }

  lemma ParentIsCaller(fam: Family, line: Lineage, out: seq<Frame>, i: nat, c: string)
    requires AllProper(fam, line, out) && i < |out| && Link(out[i]) == Some(c)
    ensures c in fam.turns && c in line.parent && line.parent[c] == out[i].owner
  {
    hide FirstLink;
    assert Proper(fam, line, out[i]);
  }

  /** A frame of a thread has its place in the session. */
  lemma {:induction false} OwnIsShown(out: seq<Frame>, id: string, p: nat) returns (i: nat)
    requires p < |OwnFrames(out, id)|
    ensures i < |out| && out[i] == OwnFrames(out, id)[p]
  {
    if out[0].owner == id && p == 0 {
      i := 0;
    } else {
      i := OwnIsShown(out[1..], id, if out[0].owner == id then p - 1 else p);
      i := i + 1;
    }
  }

  lemma CallCountSnoc(frames: seq<Frame>, f: Frame, c: string)
    ensures CallCount(frames + [f], c)
            == CallCount(frames, c) + if Link(f) == Some(c) then 1 else 0
  {
    CallAppend(frames, [f], c);
    assert [f][1..] == [];
  }

  lemma {:induction false} NoLinks(events: seq<Event>)
    requires forall k :: 0 <= k < |events| ==> events[k].child.None?
    ensures FirstLink(events) == None
  {
    if events != [] {
      NoLinks(events[1..]);
    }
  }

  // ---------------------------------------------------------------- event numbers

  function NumberFrom(events: seq<Event>, from: nat): (r: seq<Event>)
    ensures |r| == |events|
    ensures forall i :: 0 <= i < |events| ==> r[i] == events[i].(index := from + i)
  {
    seq(|events|, i requires 0 <= i < |events| => events[i].(index := from + i))
  }

  function EventTotal(frames: seq<Frame>): nat {
    if frames == [] then 0 else |frames[0].events| + EventTotal(frames[1..])
  }

  /** The emitted frames with their final event numbers. */
  function Ordered(frames: seq<Frame>, from: nat): seq<Frame> {
    if frames == [] then []
    else [frames[0].(events := NumberFrom(frames[0].events, from))] + Ordered(frames[1..], from + |frames[0].events|)
  }

  function Indices(frames: seq<Frame>): seq<nat> {
    if frames == [] then []
    else seq(|frames[0].events|, i requires 0 <= i < |frames[0].events| => frames[0].events[i].index)
         + Indices(frames[1..])
  }

  /** Final numbers run 0, 1, 2, ... over the whole family. */
  lemma {:induction false} OrderedCounts(frames: seq<Frame>, from: nat)
    ensures |Indices(Ordered(frames, from))| == EventTotal(frames) && CountsFrom(from, Indices(Ordered(frames, from)))
  {
    if frames != [] {
      OrderedCounts(frames[1..], from + |frames[0].events|);
      var rest := Ordered(frames[1..], from + |frames[0].events|);
      assert Ordered(frames, from)[1..] == rest;
    }
  }

  lemma {:induction false} TotalAppend(a: seq<Frame>, b: seq<Frame>)
    ensures EventTotal(a + b) == EventTotal(a) + EventTotal(b)
  {
    if a == [] {
      assert a + b == b;
    } else {
      TotalAppend(a[1..], b);
      assert (a + b)[1..] == a[1..] + b;
    }
  }

  lemma OrderedCons(f: Frame, rest: seq<Frame>, from: nat)
    ensures Ordered([f] + rest, from)
            == [f.(events := NumberFrom(f.events, from))] + Ordered(rest, from + |f.events|)
    ensures EventTotal([f] + rest) == |f.events| + EventTotal(rest)
  {
    assert ([f] + rest)[1..] == rest;
  }

  lemma OrderedNone(from: nat)
    ensures Ordered([], from) == [] && EventTotal([]) == 0
  {
  }

  lemma {:induction false} OrderedAppend(a: seq<Frame>, b: seq<Frame>, from: nat)
    ensures Ordered(a + b, from) == Ordered(a, from) + Ordered(b, from + EventTotal(a))
  {
    hide Ordered, EventTotal, NumberFrom;
    if a == [] {
      OrderedNone(from);
      assert a + b == b;
    } else {
      var f, rest, mid := a[0], a[1..], from + |a[0].events|;
      OrderedAppend(rest, b, mid);
      assert [f] + rest == a && [f] + (rest + b) == a + b;
      OrderedCons(f, rest, from);
      OrderedCons(f, rest + b, from);
      Assoc([f.(events := NumberFrom(f.events, from))], Ordered(rest, mid), Ordered(b, mid + EventTotal(rest)));
    }
  }

  /** What the threads report, added up. */
  function Reported(frames: seq<Frame>, ids: seq<string>): nat {
    if ids == [] then 0 else EventTotal(OwnFrames(frames, ids[0])) + Reported(frames, ids[1..])
  }

  lemma {:induction false} ReportedCons(f: Frame, rest: seq<Frame>, ids: seq<string>)
    requires Distinct(ids)
    ensures Reported([f] + rest, ids) == Reported(rest, ids) + if f.owner in ids then |f.events| else 0
  {
    if ids != [] {
      assert ids[0] !in ids[1..];
      assert Distinct(ids[1..]);
      ReportedCons(f, rest, ids[1..]);
      assert ([f] + rest)[1..] == rest;
      TotalAppend([f], OwnFrames(rest, ids[0]));
      assert [] + OwnFrames(rest, ids[0]) == OwnFrames(rest, ids[0]);
    }
  }

  lemma {:induction false} ReportedNone(ids: seq<string>)
    ensures Reported([], ids) == 0
  {
    if ids != [] {
      ReportedNone(ids[1..]);
    }
  }

  lemma {:induction false} TotalIsReported(frames: seq<Frame>, ids: seq<string>)
    requires Distinct(ids) && forall i :: 0 <= i < |frames| ==> frames[i].owner in ids
    ensures EventTotal(frames) == Reported(frames, ids)
  {
    if frames == [] {
      ReportedNone(ids);
    } else {
      assert frames[0].owner in ids;
      TotalIsReported(frames[1..], ids);
      ReportedCons(frames[0], frames[1..], ids);
      assert [frames[0]] + frames[1..] == frames;
    }
  }

  /** The target's event count: root plus children. */
  function Target(fam: Family, ids: seq<string>): nat {
    if ids == [] then 0 else EventTotal(AllTurns(fam, ids[0])) + Target(fam, ids[1..])
  }

  lemma {:induction false} ReportedIsTarget(fam: Family, frames: seq<Frame>, ids: seq<string>)
    requires forall i :: 0 <= i < |ids| ==> OwnFrames(frames, ids[i]) == AllTurns(fam, ids[i])
    ensures Reported(frames, ids) == Target(fam, ids)
  {
    if ids != [] {
      assert OwnFrames(frames, ids[0]) == AllTurns(fam, ids[0]);
      forall i | 0 <= i < |ids[1..]|
        ensures OwnFrames(frames, ids[1..][i]) == AllTurns(fam, ids[1..][i])
      {
        assert ids[1..][i] == ids[i + 1];
      }
      ReportedIsTarget(fam, frames, ids[1..]);
    }
  }

  /** Main result. The final numbers are exactly 0 .. target.events - 1. */
  lemma NumbersMeetTarget(fam: Family, line: Lineage, ids: seq<string>)
    requires Tree(fam, line) && Balanced(fam, line)
    requires Distinct(ids) && forall c :: c in ids <==> c == fam.rootId || c in fam.turns
    ensures Drain(fam, fam.root, map[]).Ok?
    ensures var out := Ordered(Drain(fam, fam.root, map[]).value.0, 0);
            |Indices(out)| == Target(fam, ids) && CountsFrom(0, Indices(out))
  {
    FamilyComplete(fam, line);
    var out := Drain(fam, fam.root, map[]).value.0;
    hide Drain, Splice, Tree, Balanced;
    forall i | 0 <= i < |out|
      ensures out[i].owner in ids
    {
    }
    forall i | 0 <= i < |ids|
      ensures OwnFrames(out, ids[i]) == AllTurns(fam, ids[i])
    {
      assert ids[i] in ids;
    }
    OrderedCounts(out, 0);
    TotalIsReported(out, ids);
    ReportedIsTarget(fam, out, ids);
  }

  // ---------------------------------------------------------------- the loop of the source

  lemma {:induction false} ReversedAppend<T>(a: seq<T>, b: seq<T>)
    ensures Reversed(a + b) == Reversed(b) + Reversed(a)
  {
    if a == [] {
      assert a + b == b;
      assert Reversed(b) + [] == Reversed(b);
    } else {
      ReversedAppend(a[1..], b);
      Assoc(Reversed(b), Reversed(a[1..]), [a[0]]);
      assert (a + b)[1..] == a[1..] + b;
    }
  }

  lemma ReversedTwice<T>(a: seq<T>)
    ensures Reversed(Reversed(a)) == a
  {
    var r := Reversed(Reversed(a));
    assert |r| == |a|;
    forall k | 0 <= k < |a|
      ensures r[k] == a[k]
    {
    }
  }

  /** Pushes a turn so that its first frame is on top. */
  method PushTurn(pending: seq<Frame>, turn: seq<Frame>) returns (stack: seq<Frame>)
    ensures Reversed(stack) == turn + Reversed(pending)
  {
    stack := pending;
    var index := |turn|;
    while index > 0
      invariant 0 <= index <= |turn|
      invariant Reversed(stack) == turn[index..] + Reversed(pending)
    {
      index := index - 1;
      ReversedAppend(stack, [turn[index]]);
      assert Reversed([turn[index]]) == [turn[index]];
      Assoc([turn[index]], turn[index + 1..], Reversed(pending));
      assert [turn[index]] + turn[index + 1..] == turn[index..];
      stack := stack + [turn[index]];
    }
    assert turn[0..] == turn;
  }

  /** What is left to do after `done` frames were emitted. */
  ghost predicate Continues(fam: Family, done: seq<Frame>, stack: seq<Frame>, cursors: Cursors) {
    var whole, rest := Drain(fam, fam.root, map[]), Drain(fam, Reversed(stack), cursors);
    if rest.Err? then whole == Err(rest.reason)
    else whole == Ok((done + rest.value.0, rest.value.1))
  }

  lemma PopTop(below: seq<Frame>, f: Frame)
    ensures Reversed(below + [f]) == [f] + Reversed(below)
    ensures ([f] + Reversed(below))[1..] == Reversed(below)
  {
    ReversedAppend(below, [f]);
    assert Reversed([f]) == [f];
  }

  /** A frame that calls nobody leaves the rest of the stack to do. */
  lemma PlainStep(fam: Family, done: seq<Frame>, below: seq<Frame>, f: Frame, cursors: Cursors)
    requires Continues(fam, done, below + [f], cursors) && Link(f).None?
    ensures Continues(fam, done + [f], below, cursors)
  {
    hide Reversed, Unused;
    PopTop(below, f);
    var rest := Drain(fam, Reversed(below), cursors);
    if rest.Ok? {
      Assoc(done, [f], rest.value.0);
    }
  }

  /** A call leaves the child's turn above the rest, or ends the traversal. */
  lemma CallStep(fam: Family, done: seq<Frame>, below: seq<Frame>, f: Frame, cursors: Cursors, c: string,
                 pushed: seq<Frame>)
    requires Continues(fam, done, below + [f], cursors) && Link(f) == Some(c)
    ensures !HasTurn(fam, cursors, c) ==> Drain(fam, fam.root, map[]) == Err(Format)
    ensures HasTurn(fam, cursors, c) && Reversed(pushed) == fam.turns[c][Cursor(cursors, c)] + Reversed(below) ==>
              Continues(fam, done + [f], pushed, cursors[c := Cursor(cursors, c) + 1])
  {
    hide Reversed, Unused;
    PopTop(below, f);
    if HasTurn(fam, cursors, c) {
      var at := Cursor(cursors, c);
      var rest := Drain(fam, fam.turns[c][at] + Reversed(below), cursors[c := at + 1]);
      if rest.Ok? {
        Assoc(done, [f], rest.value.0);
      }
    }
  }

  lemma NumberStep(done: seq<Frame>, f: Frame)
    ensures Ordered(done + [f], 0) == Ordered(done, 0) + [f.(events := NumberFrom(f.events, EventTotal(done)))]
    ensures EventTotal(done + [f]) == EventTotal(done) + |f.events|
  {
    OrderedAppend(done, [f], 0);
    TotalAppend(done, [f]);
    assert Ordered([f], EventTotal(done)) == [f.(events := NumberFrom(f.events, EventTotal(done)))];
  }

  lemma StartStack(fam: Family)
    ensures Continues(fam, [], Reversed(fam.root), map[])
  {
    ReversedTwice(fam.root);
    var whole := Drain(fam, fam.root, map[]);
    if whole.Ok? {
      assert [] + whole.value.0 == whole.value.0;
    }
  }

  lemma EmptyStack(fam: Family, done: seq<Frame>, cursors: Cursors)
    requires Continues(fam, done, [], cursors)
    ensures Drain(fam, fam.root, map[]) == Ok((done, cursors))
  {
    assert Reversed<Frame>([]) == [];
    assert done + [] == done;
  }

  /** `project`: pop a frame, number its events, and push the turn its call started. */
  method Interleave(fam: Family) returns (r: Result<seq<Frame>>)
    ensures r == var out := Drain(fam, fam.root, map[]);
                 if out.Err? then Err(out.reason) else Ok(Ordered(out.value.0, 0))
  {
    hide Drain, Continues, Unused;
    var pending, frames, cursors: Cursors, order := Reversed(fam.root), [], map[], 0;
    ghost var done: seq<Frame> := [];
    StartStack(fam);
    while pending != []
      invariant Continues(fam, done, pending, cursors)
      invariant frames == Ordered(done, 0) && order == EventTotal(done)
      decreases Unused(fam, cursors), |pending|
    {
      var f, below := pending[|pending| - 1], pending[..|pending| - 1];
      assert pending == below + [f];
      NumberStep(done, f);
      frames := frames + [f.(events := NumberFrom(f.events, order))];
      order := order + |f.events|;
      var child := Link(f);
      if child.Some? {
        var c := child.value;
        if !HasTurn(fam, cursors, c) {
          CallStep(fam, done, below, f, cursors, c, []);
          return Err(Format);
        }
        UnusedShrinks(fam, cursors, c);
        var at := Cursor(cursors, c);
        pending := PushTurn(below, fam.turns[c][at]);
        CallStep(fam, done, below, f, cursors, c, pending);
        cursors := cursors[c := at + 1];
      } else {
        PlainStep(fam, done, below, f, cursors);
        pending := below;
      }
      done := done + [f];
    }
    EmptyStack(fam, done, cursors);
    r := Ok(frames);
  }
}
