/** The OpenCode capture: a counting pass and a delivering pass over one source view. */
module OpenCodeCapture {
  import opened Base
  import opened OpenCodeSource
  import opened OpenCodeWalk
  import opened OpenCodeCoverage
  import opened OpenCodeRevert
  import OpenCodeView

  /** What a part yields under its message; None when its data is invalid. */
  datatype Draft = Draft(events: nat, usage: nat)

  datatype Rules = Rules(draft: (Message, Part) -> Option<Draft>, roleOk: Message -> bool, events: nat, usage: nat)

  /** `first` is the event index of the frame's first event. */
  datatype Frame = Frame(record: Record, first: nat, events: nat, usage: nat)

  datatype Cut = Cut(mode: Mode, events: nat, usage: nat)

  /** `reset`. */
  function Reset(root: Session): Cut {
    Cut(Mode(root, None, false, true, None), 0, 0)
  }

  /** `project`. */
  function Project(c: Cut, r: Record, rules: Rules): Result<(Frame, Cut)> {
    var mode := Seen(c.mode, r);
    var quiet := Ok((Frame(r, c.events, 0, 0), c.(mode := mode)));
    match r
    case SessionRow(_) => quiet
    case MessageRow(m) => if mode.active && !rules.roleOk(m) then Err(Unsupported) else quiet
    case PartRow(p, _) =>
      if c.mode.message.None? || p.message != c.mode.message.value.id || p.session != c.mode.session.id then Err(Format)
      else if !mode.active then quiet
      else
        var draft := rules.draft(c.mode.message.value, p);
        if draft.None? then Err(Format)
        else if c.events + draft.value.events > rules.events || c.usage + draft.value.usage > rules.usage then
          Err(Limit)
        else
          Ok((Frame(r, c.events, draft.value.events, draft.value.usage),
              Cut(mode, c.events + draft.value.events, c.usage + draft.value.usage)))
  }

  function ProjectAll(c: Cut, rows: seq<Record>, rules: Rules): Result<(seq<Frame>, Cut)>
    decreases |rows|
  {
    if rows == [] then Ok(([], c))
    else
      var one :- Project(c, rows[0], rules);
      var rest :- ProjectAll(one.1, rows[1..], rules);
      Ok(([one.0] + rest.0, rest.1))
  }

  lemma {:induction false} ProjectJoin(c: Cut, a: seq<Record>, b: seq<Record>, rules: Rules)
    ensures var first := ProjectAll(c, a, rules);
            ProjectAll(c, a + b, rules)
            == if first.Err? then Err(first.reason)
               else var second := ProjectAll(first.value.1, b, rules);
                    if second.Err? then Err(second.reason) else Ok((first.value.0 + second.value.0, second.value.1))
    decreases |a|
  {
    hide Project;
    if a == [] {
      assert a + b == b;
      var second := ProjectAll(c, b, rules);
      assert second.Ok? ==> [] + second.value.0 == second.value.0;
    } else {
      assert (a + b)[1..] == a[1..] + b;
      var one := Project(c, a[0], rules);
      if one.Ok? {
        ProjectJoin(one.value.1, a[1..], b, rules);
        var rest := ProjectAll(one.value.1, a[1..], rules);
        if rest.Ok? {
          var second := ProjectAll(rest.value.1, b, rules);
          if second.Ok? {
            Assoc([one.value.0], rest.value.0, second.value.0);
          }
        }
      }
    }
  }

  // ---------------------------------------------------------------- what the frames hold

  function EventSum(frames: seq<Frame>): nat {
    if frames == [] then 0 else frames[0].events + EventSum(frames[1..])
  }

  function UsageSum(frames: seq<Frame>): nat {
    if frames == [] then 0 else frames[0].usage + UsageSum(frames[1..])
  }

  /** Frames are numbered through: each starts where the one before it ended. */
  predicate NumberedFrom(frames: seq<Frame>, from: nat)
    decreases |frames|
  {
    frames == [] || (frames[0].first == from && NumberedFrom(frames[1..], from + frames[0].events))
  }

  /** A frame belongs to its row, and only a part that is showing has events or usage. */
  predicate FrameOf(f: Frame, r: Record, showing: bool) {
    f.record == r && (!r.PartRow? || !showing ==> f.events == 0 && f.usage == 0)
  }

  /** The frames of a projection: one per row, numbered through, silent where the flags say so. */
  lemma {:induction false} FramesFollowRows(c: Cut, rows: seq<Record>, rules: Rules)
    requires ProjectAll(c, rows, rules).Ok?
    ensures var r := ProjectAll(c, rows, rules).value;
            && |r.0| == |rows| && r.1.mode == End(c.mode, rows)
            && r.1.events == c.events + EventSum(r.0) && r.1.usage == c.usage + UsageSum(r.0)
               && NumberedFrom(r.0, c.events)
            && forall k :: 0 <= k < |rows| ==> FrameOf(r.0[k], rows[k], Flags(c.mode, rows)[k])
    decreases |rows|
  {
    if rows != [] {
      OneFrame(c, rows[0], rules);
      hide Project, FrameOf, Seen;
      var one := Project(c, rows[0], rules).value;
      FramesFollowRows(one.1, rows[1..], rules);
    }
  }

  lemma OneFrame(c: Cut, r: Record, rules: Rules)
    requires Project(c, r, rules).Ok?
    ensures var one := Project(c, r, rules).value;
            && one.1.mode == Seen(c.mode, r) && FrameOf(one.0, r, Seen(c.mode, r).active) && one.0.first == c.events
            && one.1.events == c.events + one.0.events && one.1.usage == c.usage + one.0.usage
  {
  }

  /** Main result. In a capture of a sound family a part row has events or usage only if the part
    * precedes the revert boundary of its session. */
  lemma RevertedPartsAreSilent(db: Db, family: seq<Session>, root: Session, rules: Rules, k: nat, s: Session,
                               m: Message)
    requires RowsById(db) && SessionsDiffer(family) && Sound(db, family)
             && forall i :: 0 <= i < |family| ==> Supported(db, family[i])
    requires ProjectAll(Reset(root), FamilyRows(db, family, 0), rules).Ok?
    requires k < |FamilyRows(db, family, 0)| && s in family && SessionOf(FamilyRows(db, family, 0)[k]) == s.id
    requires FamilyRows(db, family, 0)[k].PartRow? && m in db.messages && m.session == s.id
             && m.id == FamilyRows(db, family, 0)[k].p.message
    ensures |ProjectAll(Reset(root), FamilyRows(db, family, 0), rules).value.0| == |FamilyRows(db, family, 0)|
    ensures var f := ProjectAll(Reset(root), FamilyRows(db, family, 0), rules).value.0[k];
            !Precedes(db, s, m, FamilyRows(db, family, 0)[k].p) ==> f.events == 0 && f.usage == 0
  {
    hide ProjectAll, FamilyRows, Sound, RowsById, Supported, SessionsDiffer, Flags, Precedes;
    var rows := FamilyRows(db, family, 0);
    FramesFollowRows(Reset(root), rows, rules);
    RevertCutsPrefix(db, family, 0, Reset(root).mode);
    assert FlaggedIn(db, family, rows[k], Flags(Reset(root).mode, rows)[k]);
    var i :| 0 <= i < |family| && family[i] == s;
    assert Flagged(db, family[i], rows[k], Flags(Reset(root).mode, rows)[k]);
    assert FrameOf(ProjectAll(Reset(root), rows, rules).value.0[k], rows[k], Flags(Reset(root).mode, rows)[k]);
  }

  // ---------------------------------------------------------------- the capture

  datatype Limits = Limits(pageItems: nat, pageBytes: nat)

  datatype FramePage = FramePage(frames: seq<Frame>, done: bool)

  predicate AllFit(frames: seq<Frame>, size: Frame -> nat, bytes: nat) {
    forall k :: 0 <= k < |frames| ==> size(frames[k]) + Envelope <= bytes
  }

  /** Bytes of an empty page. */
  const Envelope := 26

  function PageBytes(frames: seq<Frame>, size: Frame -> nat): nat {
    if frames == [] then Envelope
    else PageBytes(frames[..|frames| - 1], size) + size(frames[|frames| - 1]) + if |frames| == 1 then 0 else 1
  }

  lemma PageGrows(frames: seq<Frame>, f: Frame, size: Frame -> nat)
    ensures PageBytes(frames + [f], size) == PageBytes(frames, size) + size(f) + if frames == [] then 0 else 1
  {
    assert (frames + [f])[..|frames|] == frames;
  }

  class Capture {
    const view: OpenCodeView.SourceView
    const rules: Rules
    const size: Frame -> nat
    const limits: Limits
    const root: Session
    var cut: Cut
    var targetEvents: nat
    var targetUsage: nat
    var buffered: seq<Record>
    var cursor: nat
    var sourceDone: bool
    var pending: Option<Frame>
    var failed: bool

    constructor (view: OpenCodeView.SourceView, root: Session, rules: Rules, size: Frame -> nat, limits: Limits)
      ensures this.view == view && this.root == root && this.rules == rules && this.size == size
              && this.limits == limits
      ensures cut == Reset(root) && buffered == [] && cursor == 0 && !sourceDone && pending.None? && !failed
    {
      this.view, this.root, this.rules, this.size, this.limits := view, root, rules, size, limits;
      cut, targetEvents, targetUsage := Reset(root), 0, 0;
      buffered, cursor, sourceDone, pending, failed := [], 0, false, None, false;
    }

    /** The rows that are still to be projected. */
    ghost function Rest(): seq<Record>
      reads this, view
      requires cursor <= |buffered|
    {
      buffered[cursor..] + view.Left()
    }

    /** The frames that are still to be delivered. */
    ghost function Expected(): seq<Frame>
      reads this, view
      requires cursor <= |buffered| && ProjectAll(cut, Rest(), rules).Ok?
    {
      (if pending.Some? then [pending.value] else []) + ProjectAll(cut, Rest(), rules).value.0
    }

    ghost predicate Valid()
      reads this, view
    {
      && view.Valid() && view.rewound && (view.failed ==> failed)
      && cursor <= |buffered| && (sourceDone ==> view.Left() == [])
      && ProjectAll(cut, Rest(), rules).Ok?
      && AllFit(Expected(), size, limits.pageBytes)
      && ProjectAll(cut, Rest(), rules).value.1.events == targetEvents
      && ProjectAll(cut, Rest(), rules).value.1.usage == targetUsage
    }

    /** Projects one page of the counting pass. */
    method CountPage(records: seq<Record>) returns (r: Result<seq<Frame>>)
      modifies this`cut
      ensures r.Ok? ==>
                ProjectAll(old(cut), records, rules) == Ok((r.value, cut)) && AllFit(r.value, size, limits.pageBytes)
    {
      hide Project;
      var frames, k := [], 0;
      ghost var start := cut;
      NothingProjected(start, rules);
      while k < |records|
        invariant 0 <= k <= |records|
        invariant ProjectAll(start, records[..k], rules) == Ok((frames, cut)) && AllFit(frames, size, limits.pageBytes)
      {
        var one := Project(cut, records[k], rules);
        if one.Err? {
          return Err(one.reason);
        }
        if size(one.value.0) + Envelope > limits.pageBytes {
          return Err(Limit);
        }
        ProjectSnoc(start, records, k, rules);
        frames, cut, k := frames + [one.value.0], one.value.1, k + 1;
      }
      assert records[..k] == records;
      r := Ok(frames);
    }

    /** The first pass: every row is projected and counted; then the view is rewound. */
    method Plan() returns (r: Result<()>)
      requires view.Valid() && !view.done && !view.failed && !view.rewound && view.limits.rows > 0
      requires view.Left() == FamilyRows(view.db, view.family, 0) && cut == Reset(root)
      requires buffered == [] && cursor == 0 && !sourceDone && pending.None? && !failed
      modifies this, view
      ensures r.Ok? ==> Valid() && !failed && |view.Left()| == |FamilyRows(view.db, view.family, 0)| == view.admitted
      ensures r.Ok? ==>
                var all := ProjectAll(Reset(root), FamilyRows(view.db, view.family, 0), rules);
                all.Ok? && Expected() == all.value.0 && targetEvents == all.value.1.events
                && targetUsage == all.value.1.usage
    {
      hide ProjectAll, FamilyRows, AllFit, Counted, Ahead, Admitted;
      ghost var rows := FamilyRows(view.db, view.family, 0);
      ghost var frames: seq<Frame>, seen: seq<Record> := [], [];
      CountNothing(root, rules, size, limits.pageBytes);
      assert [] + rows == rows;
      var done := false;
      while !done
        invariant view.Valid() && !view.failed && !view.rewound && view.done == done && rows == seen + view.Left()
        invariant Counted(root, seen, frames, cut, rules, size, limits.pageBytes)
        invariant done ==> view.consumed == view.admitted
        invariant buffered == [] && cursor == 0 && !sourceDone && pending.None? && !failed
        decreases |view.Left()|, if done then 0 else 1
      {
        var page := view.Read();
        if page.Err? {
          return Err(page.reason);
        }
        ghost var before := cut;
        var counted := CountPage(page.value.records);
        if counted.Err? {
          return Err(counted.reason);
        }
        CountOn(root, seen, frames, before, page.value.records, counted.value, cut, rules, size, limits.pageBytes);
        Assoc(seen, page.value.records, view.Left());
        seen, frames := seen + page.value.records, frames + counted.value;
        done := page.value.done;
      }
      assert seen + [] == seen;
      CountedAll(root, seen, frames, cut, rules, size, limits.pageBytes);
      targetEvents, targetUsage := cut.events, cut.usage;
      var rewound := view.Rewind();
      if !rewound {
        return Err(Changed);
      }
      cut := Reset(root);
      assert buffered[cursor..] + view.Left() == rows;
      assert [] + frames == frames;
      r := Ok(());
    }

    /** Reads the next page of rows when the buffer is used up. */
    method Refill() returns (r: Result<()>)
      requires Valid() && cursor == |buffered| && !sourceDone && pending.None?
      modifies this, view
      ensures old(!failed) ==> r.Ok?
      ensures r.Ok? && view.limits.rows > 0 && buffered == [] ==> sourceDone
      ensures r.Ok? ==>
                cursor == 0 && Valid() && Expected() == old(Expected()) && pending.None? && failed == old(failed)
      ensures r.Ok? ==> targetEvents == old(targetEvents) && targetUsage == old(targetUsage)
    {
      hide ProjectAll, AllFit, Ahead, FamilyRows;
      assert buffered[cursor..] + view.Left() == view.Left();
      var page := view.Read();
      if page.Err? {
        return Err(page.reason);
      }
      buffered, cursor, sourceDone := page.value.records, 0, page.value.done;
      assert buffered[cursor..] == page.value.records;
      r := Ok(());
    }

    /** Projects the next buffered row. */
    method TakeRow()
      requires Valid() && cursor < |buffered| && pending.None?
      modifies this
      ensures Valid() && Expected() == old(Expected()) && pending.Some? && failed == old(failed)
      ensures targetEvents == old(targetEvents) && targetUsage == old(targetUsage)
    {
      hide AllFit, Ahead, FamilyRows, Project;
      var record := buffered[cursor];
      ghost var rest := Rest();
      assert rest[0] == record && rest[1..] == buffered[cursor + 1..] + view.Left();
      var one := Project(cut, record, rules).value;
      FitHead(one.0, ProjectAll(one.1, rest[1..], rules).value.0, size, limits.pageBytes);
      assert [] + ProjectAll(cut, rest, rules).value.0 == [one.0] + ProjectAll(one.1, rest[1..], rules).value.0;
      cursor, cut, pending := cursor + 1, one.1, Some(one.0);
    }

    /** Delivers the pending frame. */
    method Deliver()
      requires Valid() && pending.Some?
      modifies this
      ensures Valid() && pending.None? && old(Expected()) == [old(pending).value] + Expected() && failed == old(failed)
      ensures targetEvents == old(targetEvents) && targetUsage == old(targetUsage)
    {
      hide ProjectAll, Ahead, FamilyRows, AllFit;
      FitTail(pending.value, ProjectAll(cut, Rest(), rules).value.0, size, limits.pageBytes);
      pending := None;
      assert [] + ProjectAll(cut, Rest(), rules).value.0 == ProjectAll(cut, Rest(), rules).value.0;
    }

    /** `read`. The pages deliver exactly the frames that the counting pass saw, in order, and when
      * the last one is done the counters meet the targets: the passes never disagree. After the
      * counting pass over the same snapshot no page can fail, and pages go on until done. */
    method Read() returns (r: Result<FramePage>, disagreed: bool)
      requires Valid()
      modifies this, view
      ensures !disagreed && (old(!failed) ==> r.Ok? && !failed)
      ensures r.Ok? && view.limits.rows > 0 && limits.pageItems > 0 && r.value.frames == [] ==> r.value.done
      ensures r.Ok? ==>
                Valid() && old(Expected()) == r.value.frames + Expected() && |r.value.frames| <= limits.pageItems
      ensures r.Ok? && r.value.frames != [] ==> PageBytes(r.value.frames, size) <= limits.pageBytes
      ensures r.Ok? && r.value.done ==> Expected() == [] && cut.events == targetEvents && cut.usage == targetUsage
    {
      hide ProjectAll, AllFit, Ahead, FamilyRows, PageBytes;
      disagreed := false;
      if failed {
        return Err(Changed), false;
      }
      var frames: seq<Frame>, bytes := [], Envelope;
      NoFrames(size);
      ghost var all := Expected();
      assert [] + all == all;
      while |frames| < limits.pageItems
        invariant Valid() && !failed && all == frames + Expected() && |frames| <= limits.pageItems
        invariant bytes == PageBytes(frames, size) && (frames != [] ==> bytes <= limits.pageBytes)
        decreases limits.pageItems - |frames|
      {
        if pending.None? {
          if cursor == |buffered| && !sourceDone {
            var refilled := Refill();
            // A failed read would end the capture; behind a complete counting pass there is none.
            if refilled.Err? {
              assert false;
            }
          }
          if cursor == |buffered| {
            break;
          }
          TakeRow();
        }
        var f := pending.value;
        FrameFits(f, ProjectAll(cut, Rest(), rules).value.0, size, limits.pageBytes);
        var more := size(f) + if |frames| == 0 then 0 else 1;
        if more > limits.pageBytes - bytes {
          break;
        }
        PageGrows(frames, f, size);
        Deliver();
        Assoc(frames, [f], Expected());
        frames := frames + [f];
        bytes := bytes + more;
      }
      var done := sourceDone && cursor == |buffered| && pending.None?;
      if done {
        assert Rest() == [];
        NothingProjected(cut, rules);
        disagreed := cut.events != targetEvents || cut.usage != targetUsage;
      }
      failed := disagreed;
      r := if disagreed then Err(Format) else Ok(FramePage(frames, done));
    }
  }

  lemma NoFrames(size: Frame -> nat)
    ensures PageBytes([], size) == Envelope
  {
  }

  lemma FrameFits(f: Frame, rest: seq<Frame>, size: Frame -> nat, bytes: nat)
    requires AllFit([f] + rest, size, bytes)
    ensures size(f) + Envelope <= bytes
  {
    assert ([f] + rest)[0] == f;
  }

  lemma FitHead(f: Frame, rest: seq<Frame>, size: Frame -> nat, bytes: nat)
    ensures AllFit([] + ([f] + rest), size, bytes) ==> AllFit([f] + rest, size, bytes)
  {
    assert [] + ([f] + rest) == [f] + rest;
  }

  lemma FitTail(f: Frame, rest: seq<Frame>, size: Frame -> nat, bytes: nat)
    requires AllFit([f] + rest, size, bytes)
    ensures AllFit(rest, size, bytes) && AllFit([] + rest, size, bytes)
  {
    assert forall k :: 0 <= k < |rest| ==> rest[k] == ([f] + rest)[k + 1];
    assert [] + rest == rest;
  }

  /** The rows `seen` were projected to `frames`, all of which fit. */
  ghost predicate Counted(root: Session, seen: seq<Record>, frames: seq<Frame>, cut: Cut, rules: Rules,
                          size: Frame -> nat, bytes: nat) {
    ProjectAll(Reset(root), seen, rules) == Ok((frames, cut)) && AllFit(frames, size, bytes)
  }

  lemma CountNothing(root: Session, rules: Rules, size: Frame -> nat, bytes: nat)
    ensures Counted(root, [], [], Reset(root), rules, size, bytes)
  {
  }

  lemma CountedAll(root: Session, seen: seq<Record>, frames: seq<Frame>, cut: Cut, rules: Rules, size: Frame -> nat,
                   bytes: nat)
    requires Counted(root, seen, frames, cut, rules, size, bytes)
    ensures ProjectAll(Reset(root), seen, rules) == Ok((frames, cut)) && AllFit(frames, size, bytes)
  {
  }

  lemma CountOn(root: Session, seen: seq<Record>, frames: seq<Frame>, cut: Cut, records: seq<Record>, more: seq<Frame>,
                after: Cut, rules: Rules, size: Frame -> nat, bytes: nat)
    requires Counted(root, seen, frames, cut, rules, size, bytes)
    requires ProjectAll(cut, records, rules) == Ok((more, after)) && AllFit(more, size, bytes)
    ensures Counted(root, seen + records, frames + more, after, rules, size, bytes)
  {
    ProjectJoin(Reset(root), seen, records, rules);
  }

  lemma NothingProjected(c: Cut, rules: Rules)
    ensures ProjectAll(c, [], rules) == Ok(([], c))
  {
  }

  lemma ProjectSnoc(c: Cut, records: seq<Record>, k: nat, rules: Rules)
    requires k < |records| && ProjectAll(c, records[..k], rules).Ok?
    requires Project(ProjectAll(c, records[..k], rules).value.1, records[k], rules).Ok?
    ensures var before := ProjectAll(c, records[..k], rules).value;
            var one := Project(before.1, records[k], rules).value;
            ProjectAll(c, records[..k + 1], rules) == Ok((before.0 + [one.0], one.1))
  {
    hide Project;
    assert records[..k + 1] == records[..k] + [records[k]];
    ProjectJoin(c, records[..k], [records[k]], rules);
    var before := ProjectAll(c, records[..k], rules).value;
    var one := Project(before.1, records[k], rules).value;
    assert [records[k]][1..] == [];
    NothingProjected(one.1, rules);
    assert [one.0] + [] == [one.0];
  }
}
