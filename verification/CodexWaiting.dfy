/** How long a Codex session can wait for Raw service when the Raw work of the others is known: a Raw
  * turn of a session that is not blocked is paid for with some of that session's work. */
module CodexWaiting {
  import opened Base
  import opened CodexSchedule
  import Sending = CodexRaw

  // ---------------------------------------------------------------- who needs Raw work

  /** `sessionNeedsRaw` for one file; `size` counts its complete lines. */
  predicate NeedsFile(f: Sending.File, acks: map<string, Sending.Saved>) {
    || f.objectId !in acks || acks[f.objectId].generation != f.generation
    || (f.archived && !acks[f.objectId].finalized) || acks[f.objectId].offset < f.size
  }

  predicate NeedsRaw(files: seq<Sending.File>, acks: map<string, Sending.Saved>) {
    exists k :: 0 <= k < |files| && files[k].live && NeedsFile(files[k], acks)
  }

  /** Where the files of a session stand. */
  function At(files: seq<Sending.File>, acks: map<string, Sending.Saved>): (r: seq<Sending.Position>)
    ensures |r| == |files| && forall k :: 0 <= k < |r| ==> r[k] == Sending.StartAt(files[k], acks)
  {
    seq(|files|, k requires 0 <= k < |files| => Sending.StartAt(files[k], acks))
  }

  /** A file that is written to and has no complete line yet, and of whose generation nothing is
    * acknowledged. */
  predicate Lineless(f: Sending.File, acks: map<string, Sending.Saved>) {
    f.live && !f.archived && f.size == 0 && (f.objectId !in acks || acks[f.objectId].generation != f.generation)
  }

  predicate SomeLineless(files: seq<Sending.File>, acks: map<string, Sending.Saved>) {
    exists k :: 0 <= k < |files| && Lineless(files[k], acks)
  }

  /** A session needs Raw work exactly if a page that sends nothing would not complete it, or if one of its
    * files has no complete line yet and no acknowledgment. */
  lemma NeedsExactly(files: seq<Sending.File>, acks: map<string, Sending.Saved>)
    ensures NeedsRaw(files, acks) <==> !Sending.Complete(files, At(files, acks)) || SomeLineless(files, acks)
  {
    forall k | 0 <= k < |files|
      ensures files[k].live && NeedsFile(files[k], acks) <==>
                !Sending.Covered(files[k], At(files, acks)[k]) || Lineless(files[k], acks)
    {
    }
  }

  // ---------------------------------------------------------------- work left

  /** Bytes to send, and one for the final mark of an archived file. */
  function Left(f: Sending.File, at: Sending.Position): nat {
    if !f.live then 0
    else (if at.offset < f.size then f.size - at.offset else 0) + if f.archived && !at.finalized then 1 else 0
  }

  function WorkLeft(files: seq<Sending.File>, at: seq<Sending.Position>, n: nat): nat
    requires n <= |files| == |at|
  {
    if n == 0 then 0 else WorkLeft(files, at, n - 1) + Left(files[n - 1], at[n - 1])
  }

  /** Every segment is paid for. */
  lemma {:induction false} TiledPays(f: Sending.File, segments: seq<Sending.Segment>, from: Sending.Position,
                                     last: Sending.Position)
    requires f.live && Sending.Tiled(f, segments, from, last)
    ensures Left(f, last) + |segments| <= Left(f, from)
    decreases |segments|
  {
    if segments != [] {
      TiledPays(f, segments[1..], Sending.After(segments[0]), last);
    }
  }

  /** Every segment of a page is paid for. */
  lemma {:induction false} PagePays(files: seq<Sending.File>, at: seq<Sending.Position>, n: nat, lim: Sending.Limits)
    requires n <= |files| == |at| && Sending.Collect(files, at, n, lim).Ok?
    ensures var p := Sending.Collect(files, at, n, lim).value;
            WorkLeft(files[..n], p.positions, n) + |Flatten(p.parts)| <= WorkLeft(files, at, n)
  {
    hide Sending.Visit, Sending.Bytes, Left;
    if n > 0 {
      PagePays(files, at, n - 1, lim);
      var before, p := Sending.Collect(files, at, n - 1, lim).value, Sending.Collect(files, at, n, lim).value;
      var sent := Flatten(before.parts);
      var more := Sending.Visit(files[n - 1], at[n - 1], |sent|, Sending.Bytes(sent), lim).value;
      VisitPays(files[n - 1], at[n - 1], |sent|, Sending.Bytes(sent), lim);
      FlattenSnoc(before.parts, more.0);
      SameWork(files[..n], p.positions, files[..n - 1], before.positions, n - 1);
    }
  }

  lemma VisitPays(f: Sending.File, at: Sending.Position, count: nat, used: nat, lim: Sending.Limits)
    requires Sending.Visit(f, at, count, used, lim).Ok?
    ensures var r := Sending.Visit(f, at, count, used, lim).value; Left(f, r.1) + |r.0| <= Left(f, at)
  {
    if f.live {
      Sending.VisitTiles(f, at, count, used, lim);
      TiledPays(f, Sending.Visit(f, at, count, used, lim).value.0, at, Sending.Visit(f, at, count, used, lim).value.1);
    }
  }

  lemma {:induction false} SameWork(files: seq<Sending.File>, at: seq<Sending.Position>, others: seq<Sending.File>,
                                    places: seq<Sending.Position>, n: nat)
    requires n <= |files| == |at| && n <= |others| == |places|
    requires forall k :: 0 <= k < n ==> files[k] == others[k] && at[k] == places[k]
    ensures WorkLeft(files, at, n) == WorkLeft(others, places, n)
  {
    hide Left;
    if n > 0 {
      SameWork(files, at, others, places, n - 1);
    }
  }

  // ---------------------------------------------------------------- pages that send nothing

  /** The file has nothing to send: it is covered, or cut short. */
  predicate Idle(f: Sending.File, at: Sending.Position) {
    Sending.Covered(f, at) || Sending.Stalled(f, at)
  }

  predicate AllIdle(files: seq<Sending.File>, at: seq<Sending.Position>)
    requires |files| == |at|
  {
    forall k :: 0 <= k < |files| ==> Idle(files[k], at[k])
  }

  predicate SomeStalled(files: seq<Sending.File>, at: seq<Sending.Position>)
    requires |files| == |at|
  {
    exists k :: 0 <= k < |files| && Sending.Stalled(files[k], at[k])
  }

  lemma IdleVisit(f: Sending.File, at: Sending.Position, count: nat, used: nat, lim: Sending.Limits)
    requires Idle(f, at)
    ensures Sending.Visit(f, at, count, used, lim) == Ok(([], at))
  {
    if Sending.Stalled(f, at) {
      Sending.StalledVisit(f, at, count, used, lim);
    }
  }

  /** Nothing was sent of any file. */
  predicate AllEmpty(parts: seq<seq<Sending.Segment>>) {
    forall k :: 0 <= k < |parts| ==> parts[k] == []
  }

  lemma {:induction false} IdlePage(files: seq<Sending.File>, at: seq<Sending.Position>, n: nat, lim: Sending.Limits)
    requires n <= |files| == |at| && AllIdle(files, at)
    ensures var p := Sending.Collect(files, at, n, lim);
            p.Ok? && AllEmpty(p.value.parts) && p.value.positions == at[..n]
  {
    hide Idle, Sending.Visit, Sending.Bytes, Flatten;
    if n > 0 {
      IdlePage(files, at, n - 1, lim);
      var sent := Flatten(Sending.Collect(files, at, n - 1, lim).value.parts);
      IdleVisit(files[n - 1], at[n - 1], |sent|, Sending.Bytes(sent), lim);
      assert at[..n - 1] + [at[n - 1]] == at[..n];
    }
  }

  lemma {:induction false} IdleRun(files: seq<Sending.File>, at: seq<Sending.Position>, lims: seq<Sending.Limits>,
                                   n: nat)
    requires |files| == |at| && n <= |lims| && AllIdle(files, at)
    ensures var r := Sending.Run(files, at, lims, n); r.Ok? && AllEmpty(r.value.all) && r.value.positions == at
  {
    hide Idle, Sending.Collect;
    if n > 0 {
      IdleRun(files, at, lims, n - 1);
      IdlePage(files, at, |files|, lims[n - 1]);
      assert at[..|files|] == at;
      assert forall x: seq<Sending.Segment> :: x == [] ==> x + [] == [];
    }
  }

  /** A page of a session in which some file is not idle sends something. */
  lemma BusyPageSends(files: seq<Sending.File>, at: seq<Sending.Position>, lim: Sending.Limits)
    requires |files| == |at| && Sending.Collect(files, at, |files|, lim).Ok? && !AllIdle(files, at)
    requires lim.segments > 0 && lim.segmentBytes > 0 && lim.totalBytes > 0
    ensures Flatten(Sending.Collect(files, at, |files|, lim).value.parts) != []
  {
    hide Sending.Collect, Sending.Stalled, Sending.Covered, Flatten;
    if Flatten(Sending.Collect(files, at, |files|, lim).value.parts) == [] {
      Sending.EmptyPageIsDone(files, at, |files|, lim);
    }
  }

  predicate Positive(lims: seq<Sending.Limits>) {
    lims != [] && forall k :: 0 <= k < |lims| ==>
                    lims[k].segments > 0 && lims[k].segmentBytes > 0 && lims[k].totalBytes > 0
  }

  /** A Raw turn never leaves more work, and if some file was not idle it leaves less, whatever the limits
    * of its pages. */
  lemma {:induction false} RawTurnPays(files: seq<Sending.File>, at: seq<Sending.Position>,
                                       lims: seq<Sending.Limits>, n: nat)
    requires |files| == |at| && 0 < n <= |lims| && Positive(lims) && Sending.Run(files, at, lims, n).Ok?
    ensures var after := WorkLeft(files, Sending.Run(files, at, lims, n).value.positions, |files|);
            && after <= WorkLeft(files, at, |files|)
            && (!AllIdle(files, at) ==> after < WorkLeft(files, at, |files|))
  {
    hide Sending.Collect, AllIdle, Flatten, WorkLeft;
    assert files[..|files|] == files;
    if n > 1 {
      RawTurnPays(files, at, lims, n - 1);
    } else if !AllIdle(files, at) {
      BusyPageSends(files, at, lims[0]);
    }
    PagePays(files, Sending.Run(files, at, lims, n - 1).value.positions, |files|, lims[n - 1]);
  }

  // ---------------------------------------------------------------- acknowledgments

  /** The receiver acknowledges what it was sent; files of which nothing came stay as they were. */
  function Acknowledge(files: seq<Sending.File>, sent: Sending.Sent, acks: map<string, Sending.Saved>, n: nat)
    : map<string, Sending.Saved>
    requires n <= |files| == |sent.all| == |sent.positions|
  {
    if n == 0 then acks
    else
      var before := Acknowledge(files, sent, acks, n - 1);
      if sent.all[n - 1] == [] then before
      else before[files[n - 1].objectId := SavedAt(files[n - 1], sent.positions[n - 1])]
  }

  function SavedAt(f: Sending.File, at: Sending.Position): Sending.Saved {
    Sending.Saved(f.generation, at.offset, at.finalized)
  }

  predicate ObjectsDistinct(files: seq<Sending.File>) {
    forall i, j :: 0 <= i < j < |files| ==> files[i].objectId != files[j].objectId
  }

  lemma {:induction false} AcknowledgedOf(files: seq<Sending.File>, sent: Sending.Sent,
                                          acks: map<string, Sending.Saved>, n: nat, k: nat)
    requires k < n <= |files| == |sent.all| == |sent.positions| && ObjectsDistinct(files)
    ensures var id, all := files[k].objectId, Acknowledge(files, sent, acks, n);
            if sent.all[k] != [] then id in all && all[id] == SavedAt(files[k], sent.positions[k])
            else (id in all <==> id in acks) && (id in acks ==> all[id] == acks[id])
  {
    if k < n - 1 {
      AcknowledgedOf(files, sent, acks, n - 1, k);
    } else {
      NotAcknowledged(files, sent, acks, n - 1, files[k].objectId);
    }
  }

  lemma {:induction false} NotAcknowledged(files: seq<Sending.File>, sent: Sending.Sent,
                                           acks: map<string, Sending.Saved>, n: nat, id: string)
    requires n <= |files| == |sent.all| == |sent.positions|
    requires forall k :: 0 <= k < n ==> files[k].objectId != id
    ensures var all := Acknowledge(files, sent, acks, n);
            (id in all <==> id in acks) && (id in acks ==> all[id] == acks[id])
  {
    if n > 0 {
      NotAcknowledged(files, sent, acks, n - 1, id);
    }
  }

  lemma {:induction false} NothingAcknowledged(files: seq<Sending.File>, sent: Sending.Sent,
                                               acks: map<string, Sending.Saved>, n: nat)
    requires n <= |files| == |sent.all| == |sent.positions| && AllEmpty(sent.all)
    ensures Acknowledge(files, sent, acks, n) == acks
  {
    if n > 0 {
      NothingAcknowledged(files, sent, acks, n - 1);
    }
  }

  /** After a turn the files stand where its last page left them. */
  lemma AcknowledgedIsAt(files: seq<Sending.File>, acks: map<string, Sending.Saved>, lims: seq<Sending.Limits>)
    requires ObjectsDistinct(files) && Sending.Run(files, At(files, acks), lims, |lims|).Ok?
    ensures var run := Sending.Run(files, At(files, acks), lims, |lims|).value;
            At(files, Acknowledge(files, run, acks, |files|)) == run.positions
  {
    hide Sending.Run, Acknowledge, ObjectsDistinct;
    var run := Sending.Run(files, At(files, acks), lims, |lims|).value;
    forall k | 0 <= k < |files|
      ensures Sending.StartAt(files[k], Acknowledge(files, run, acks, |files|)) == run.positions[k]
    {
      AcknowledgedOf(files, run, acks, |files|, k);
      Sending.RunTiles(files, At(files, acks), lims, |lims|, k);
    }
  }

  /** A file of an older generation sends nothing. */
  lemma {:induction false} DeadPage(files: seq<Sending.File>, at: seq<Sending.Position>, n: nat, lim: Sending.Limits,
                                    k: nat)
    requires k < n <= |files| == |at| && Sending.Collect(files, at, n, lim).Ok? && !files[k].live
    ensures Sending.Collect(files, at, n, lim).value.parts[k] == []
  {
    if k < n - 1 {
      DeadPage(files, at, n - 1, lim, k);
    }
  }

  lemma {:induction false} DeadRun(files: seq<Sending.File>, at: seq<Sending.Position>, lims: seq<Sending.Limits>,
                                   n: nat, k: nat)
    requires k < |files| == |at| && n <= |lims| && Sending.Run(files, at, lims, n).Ok? && !files[k].live
    ensures Sending.Run(files, at, lims, n).value.all[k] == []
  {
    hide Sending.Collect;
    if n > 0 {
      DeadRun(files, at, lims, n - 1, k);
      DeadPage(files, Sending.Run(files, at, lims, n - 1).value.positions, |files|, lims[n - 1], k);
    }
  }

  /** A snapshot file is live only while its generation is that of the current file. */
  ghost predicate Current(snapshot: seq<Sending.File>, f: Sending.File) {
    forall k :: 0 <= k < |snapshot| && snapshot[k].live && snapshot[k].objectId == f.objectId ==>
                  snapshot[k].generation == f.generation
  }

  /** What is acknowledged of a snapshot leaves no more work on the current file. */
  lemma AcknowledgedHelps(files: seq<Sending.File>, acks: map<string, Sending.Saved>, lims: seq<Sending.Limits>,
                          f: Sending.File)
    requires ObjectsDistinct(files) && Current(files, f) && Sending.Run(files, At(files, acks), lims, |lims|).Ok?
    ensures var run := Sending.Run(files, At(files, acks), lims, |lims|).value;
            Left(f, Sending.StartAt(f, Acknowledge(files, run, acks, |files|))) <= Left(f, Sending.StartAt(f, acks))
  {
    hide Sending.Run, Acknowledge, ObjectsDistinct, Sending.Tiled, Left;
    var at := At(files, acks);
    var run := Sending.Run(files, at, lims, |lims|).value;
    if k: nat :| k < |files| && files[k].objectId == f.objectId {
      AcknowledgedOf(files, run, acks, |files|, k);
      if run.all[k] != [] {
        if !files[k].live {
          DeadRun(files, at, lims, |lims|, k);
        }
        Sending.RunTiles(files, at, lims, |lims|, k);
        TiledRises(files[k], run.all[k], at[k], run.positions[k]);
        LeftFalls(f, at[k], run.positions[k]);
      }
    } else {
      NotAcknowledged(files, run, acks, |files|, f.objectId);
    }
  }

  lemma LeftFalls(f: Sending.File, from: Sending.Position, last: Sending.Position)
    requires from.offset <= last.offset && !from.finalized
    ensures Left(f, last) <= Left(f, from)
  {
  }

  lemma {:induction false} TiledRises(f: Sending.File, segments: seq<Sending.Segment>, from: Sending.Position,
                                      last: Sending.Position)
    requires Sending.Tiled(f, segments, from, last)
    ensures from.offset <= last.offset && (segments != [] ==> !from.finalized)
    decreases |segments|
  {
    if segments != [] {
      TiledRises(f, segments[1..], Sending.After(segments[0]), last);
    }
  }

  // ---------------------------------------------------------------- the Raw state of all sessions

  /** The current files of every session; for every session with a paused Raw turn, the snapshot that its next
    * one works on; and what the receiver has acknowledged. */
  datatype Raws = Raws(store: map<string, seq<Sending.File>>, held: map<string, seq<Sending.File>>,
                       acks: map<string, map<string, Sending.Saved>>)

  function FilesOf(s: Raws, x: string): seq<Sending.File> {
    if x in s.store then s.store[x] else []
  }

  function AcksOf(s: Raws, x: string): map<string, Sending.Saved> {
    if x in s.acks then s.acks[x] else map[]
  }

  /** What a Raw turn of the session works on: its paused snapshot, or a new one. */
  function SnapshotOf(s: Raws, x: string): seq<Sending.File> {
    if x in s.held then s.held[x] else FilesOf(s, x)
  }

  function PlacesOf(s: Raws, x: string): (r: seq<Sending.Position>)
    ensures |r| == |SnapshotOf(s, x)|
  {
    At(SnapshotOf(s, x), AcksOf(s, x))
  }

  ghost predicate Sound(s: Raws, x: string) {
    ObjectsDistinct(SnapshotOf(s, x))
    && forall k :: 0 <= k < |FilesOf(s, x)| ==> Current(SnapshotOf(s, x), FilesOf(s, x)[k])
  }

  predicate NeedsTurn(s: Raws, x: string) {
    x in s.held || NeedsRaw(FilesOf(s, x), AcksOf(s, x))
  }

  /** A Raw turn of the session: it pauses with its snapshot unless the last page completes it. */
  function AfterRaw(s: Raws, x: string, lims: seq<Sending.Limits>): Raws {
    var files := SnapshotOf(s, x);
    var run := Sending.Run(files, PlacesOf(s, x), lims, |lims|);
    if run.Err? then s
    else Raws(s.store, if Sending.Complete(files, run.value.positions) then s.held - {x} else s.held[x := files],
              s.acks[x := Acknowledge(files, run.value, AcksOf(s, x), |files|)])
  }

  predicate PagesOk(s: Raws, x: string, lims: seq<Sending.Limits>) {
    Positive(lims) && Sending.Run(SnapshotOf(s, x), PlacesOf(s, x), lims, |lims|).Ok?
  }

  /** A session that a Raw turn does not help: there is nothing to send, and yet it will ask again. */
  predicate Blocked(s: Raws, x: string) {
    && AllIdle(SnapshotOf(s, x), PlacesOf(s, x))
    && if x in s.held then !Sending.Complete(s.held[x], PlacesOf(s, x)) else NeedsRaw(FilesOf(s, x), AcksOf(s, x))
  }

  lemma IdleStalled(files: seq<Sending.File>, at: seq<Sending.Position>)
    requires |files| == |at| && AllIdle(files, at)
    ensures Sending.Complete(files, at) <==> !SomeStalled(files, at)
  {
    forall k | 0 <= k < |files|
      ensures Sending.Covered(files[k], at[k]) <==> !Sending.Stalled(files[k], at[k])
    {
      assert Idle(files[k], at[k]);
    }
  }

  /** A session is blocked exactly if it has nothing to send and a file that was cut short, or without a
    * paused snapshot one that has no complete line yet and no acknowledgment. */
  lemma BlockedExactly(s: Raws, x: string)
    ensures Blocked(s, x) <==>
              && AllIdle(SnapshotOf(s, x), PlacesOf(s, x))
              && (SomeStalled(SnapshotOf(s, x), PlacesOf(s, x))
                  || (x !in s.held && SomeLineless(FilesOf(s, x), AcksOf(s, x))))
  {
    hide AllIdle, SomeStalled, SomeLineless, Sending.Complete, NeedsRaw;
    if AllIdle(SnapshotOf(s, x), PlacesOf(s, x)) {
      IdleStalled(SnapshotOf(s, x), PlacesOf(s, x));
      NeedsExactly(FilesOf(s, x), AcksOf(s, x));
    }
  }

  // ---------------------------------------------------------------- what a Raw turn costs

  function WorkOf(files: seq<Sending.File>, acks: map<string, Sending.Saved>): nat {
    WorkLeft(files, At(files, acks), |files|)
  }

  /** A bound on the Raw turns of a session: its work counts twice, once for sending and once for a turn
    * that pauses; a paused snapshot counts once, and its own work if the files have changed since. */
  function Debt(s: Raws, x: string): nat {
    2 * WorkOf(FilesOf(s, x), AcksOf(s, x))
    + if x !in s.held then 0 else 1 + if s.held[x] == FilesOf(s, x) then 0 else WorkOf(s.held[x], AcksOf(s, x))
  }

  lemma {:induction false} WorkHelped(files: seq<Sending.File>, acks: map<string, Sending.Saved>,
                                      more: map<string, Sending.Saved>, n: nat)
    requires n <= |files|
    requires forall k :: 0 <= k < n ==> Left(files[k], Sending.StartAt(files[k], more))
                                        <= Left(files[k], Sending.StartAt(files[k], acks))
    ensures WorkLeft(files, At(files, more), n) <= WorkLeft(files, At(files, acks), n)
  {
    hide Left, Sending.StartAt;
    if n > 0 {
      WorkHelped(files, acks, more, n - 1);
    }
  }

  /** What a Raw turn leaves to do: on the current files no more than before, on its snapshot less if some
    * file was not idle. */
  lemma RawTurnWorks(s: Raws, x: string, lims: seq<Sending.Limits>)
    requires Sound(s, x) && PagesOk(s, x, lims)
    ensures var after, files := AfterRaw(s, x, lims), SnapshotOf(s, x);
            && WorkOf(FilesOf(s, x), AcksOf(after, x)) <= WorkOf(FilesOf(s, x), AcksOf(s, x))
            && WorkOf(files, AcksOf(after, x)) <= WorkOf(files, AcksOf(s, x))
            && (!AllIdle(files, PlacesOf(s, x)) ==> WorkOf(files, AcksOf(after, x)) < WorkOf(files, AcksOf(s, x)))
  {
    hide Sending.Run, Acknowledge, WorkLeft, AllIdle, ObjectsDistinct, Current, Positive, Sending.Complete,
         Sending.StartAt, Left;
    var files, acks, current := SnapshotOf(s, x), AcksOf(s, x), FilesOf(s, x);
    var run := Sending.Run(files, At(files, acks), lims, |lims|).value;
    var more := Acknowledge(files, run, acks, |files|);
    NotEmpty(lims);
    RawTurnPays(files, At(files, acks), lims, |lims|);
    AcknowledgedIsAt(files, acks, lims);
    forall k | 0 <= k < |current|
      ensures Left(current[k], Sending.StartAt(current[k], more)) <= Left(current[k], Sending.StartAt(current[k], acks))
    {
      AcknowledgedHelps(files, acks, lims, current[k]);
    }
    WorkHelped(current, acks, more, |current|);
  }

  lemma NotEmpty(lims: seq<Sending.Limits>)
    requires Positive(lims)
    ensures |lims| > 0
  {
  }

  /** A Raw turn of a blocked session changes nothing about it, and it stays blocked. */
  lemma BlockedStays(s: Raws, x: string, lims: seq<Sending.Limits>)
    requires Blocked(s, x)
    ensures var after := AfterRaw(s, x, lims);
            && AcksOf(after, x) == AcksOf(s, x) && after.store == s.store && Blocked(after, x)
            && SnapshotOf(after, x) == SnapshotOf(s, x)
  {
    hide Sending.Run, Acknowledge, AllIdle, AllEmpty, NeedsRaw, Sending.Complete;
    var files, acks := SnapshotOf(s, x), AcksOf(s, x);
    IdleRun(files, PlacesOf(s, x), lims, |lims|);
    NothingAcknowledged(files, Sending.Run(files, PlacesOf(s, x), lims, |lims|).value, acks, |files|);
  }

  /** Main result of a turn. A Raw turn of a session that asks for one leaves it less debt exactly if the
    * session is not blocked, whatever the limits of its pages. */
  lemma TurnPaysExactly(s: Raws, x: string, lims: seq<Sending.Limits>)
    requires Sound(s, x) && NeedsTurn(s, x) && PagesOk(s, x, lims)
    ensures Debt(AfterRaw(s, x, lims), x) < Debt(s, x) <==> !Blocked(s, x)
  {
    hide Sending.Run, Acknowledge, AllIdle, AllEmpty, NeedsRaw, Sending.Complete, WorkOf, Sound, Positive;
    if AllIdle(SnapshotOf(s, x), PlacesOf(s, x)) {
      IdleRun(SnapshotOf(s, x), PlacesOf(s, x), lims, |lims|);
    }
    if Blocked(s, x) {
      BlockedStays(s, x, lims);
    } else {
      RawTurnWorks(s, x, lims);
    }
  }

  /** A turn that is dropped after some pages keeps its snapshot; that costs one turn at most. */
  lemma DroppedTurnCosts(s: Raws, x: string, lims: seq<Sending.Limits>)
    requires Sound(s, x) && PagesOk(s, x, lims)
    ensures var dropped := Raws(s.store, s.held[x := SnapshotOf(s, x)], AfterRaw(s, x, lims).acks);
            Debt(dropped, x) <= Debt(s, x) + 1
  {
    hide Sending.Run, Acknowledge, AllIdle, NeedsRaw, Sending.Complete, WorkOf, Sound, Positive;
    RawTurnWorks(s, x, lims);
  }

  // ---------------------------------------------------------------- debts of all sessions

  /** The debts of the sessions `ids` other than `id`. */
  function Debts(ids: seq<string>, s: Raws, id: string): nat {
    if ids == [] then 0 else (if ids[0] == id then 0 else Debt(s, ids[0])) + Debts(ids[1..], s, id)
  }

  lemma OthersKeep(s: Raws, x: string, lims: seq<Sending.Limits>, y: string)
    requires y != x
    ensures Debt(AfterRaw(s, x, lims), y) == Debt(s, y)
  {
    hide Sending.Run, Acknowledge, WorkOf, Sending.Complete;
  }

  lemma {:induction false} DebtsFall(ids: seq<string>, s: Raws, x: string, lims: seq<Sending.Limits>, id: string)
    requires x != id ==> Debt(AfterRaw(s, x, lims), x) < Debt(s, x)
    ensures Debts(ids, AfterRaw(s, x, lims), id) <= Debts(ids, s, id)
    ensures x in ids && x != id ==> Debts(ids, AfterRaw(s, x, lims), id) < Debts(ids, s, id)
  {
    hide Debt, AfterRaw;
    if ids != [] {
      DebtsFall(ids[1..], s, x, lims, id);
      if ids[0] != x {
        OthersKeep(s, x, lims, ids[0]);
      }
    }
  }

  // ---------------------------------------------------------------- turns

  predicate RawTurn(t: Turn) {
    t.served && Select(t.view, t.cursor).Some? && Select(t.view, t.cursor).value.phase.Raw?
  }

  /** Whose turn it is. */
  function TakerOf(t: Turn): string {
    if Select(t.view, t.cursor).Some? then Select(t.view, t.cursor).value.session.id else ""
  }

  /** A slot that Git recovery takes. */
  predicate Recovery(t: Turn) {
    t.served && RawSlot(t.view, t.cursor) && Select(t.view, t.cursor).Some?
    && Select(t.view, t.cursor).value.phase.Canonical?
  }

  function RecoveryCount(turns: seq<Turn>, from: nat): nat
    decreases |turns| - from
  {
    if from >= |turns| then 0 else (if Recovery(turns[from]) then 1 else 0) + RecoveryCount(turns, from + 1)
  }

  /** What a turn finds: the Raw state, and the limits of its pages if it is a Raw turn. */
  datatype Found = Found(raws: Raws, lims: seq<Sending.Limits>)

  /** What a turn leaves, apart from what happens to the files meanwhile. */
  function Leaves(t: Turn, f: Found): Raws {
    if RawTurn(t) then AfterRaw(f.raws, TakerOf(t), f.lims) else f.raws
  }

  /** The schedule sees what the code computes: who needs Raw work, and whose snapshot is paused. */
  ghost predicate Agrees(ids: seq<string>, t: Turn, s: Raws) {
    forall x :: x in ids ==>
      (x in t.view.needsRaw <==> NeedsRaw(FilesOf(s, x), AcksOf(s, x)))
      && (HasPending(t.cursor, x, Raw) <==> x in s.held)
  }

  /** No rival is blocked, and `ids` names every rival that gets a Raw turn. */
  ghost predicate Unblocked(ids: seq<string>, t: Turn, f: Found, id: string) {
    && (forall x :: x in ids && x != id ==> Sound(f.raws, x) && !Blocked(f.raws, x))
    && (RawTurn(t) && TakerOf(t) != id ==> TakerOf(t) in ids && PagesOk(f.raws, TakerOf(t), f.lims))
  }

  ghost predicate Watched(turns: seq<Turn>, found: seq<Found>, ids: seq<string>, id: string) {
    |found| == |turns| && AllWait(turns, id)
    && forall k :: 0 <= k < |turns| ==> Agrees(ids, turns[k], found[k].raws) && Unblocked(ids, turns[k], found[k], id)
  }

  /** By how much the debts of the others rise between turns, because files are written or replaced or a
    * turn is dropped. */
  function Growth(turns: seq<Turn>, found: seq<Found>, ids: seq<string>, id: string, from: nat): nat
    requires |found| == |turns|
    decreases |turns| - from
  {
    if from + 1 >= |turns| then 0
    else
      var left, next := Debts(ids, Leaves(turns[from], found[from]), id), Debts(ids, found[from + 1].raws, id);
      (if next > left then next - left else 0) + Growth(turns, found, ids, id, from + 1)
  }

  /** A slot that is lost goes to Git recovery, or to another session that asks for a turn. */
  lemma SlotIsLost(ids: seq<string>, t: Turn, s: Raws, id: string)
    requires Overtaken(t, id) && RawWaits(t, id)
    ensures Recovery(t) || RawTurn(t)
    ensures RawTurn(t) ==> TakerOf(t) != id
    ensures RawTurn(t) && TakerOf(t) in ids && Agrees(ids, t, s) ==> NeedsTurn(s, TakerOf(t))
  {
    hide Select, RawSlot, Rotated, NeedsRaw, RawWaits;
    TurnApproachesRaw(t, id);
    if RawTurn(t) {
      var taker := Select(t.view, t.cursor).value.session;
      RawServedExactly(t.view, t.cursor, taker);
      assert WantsRaw(taker, t.view, t.cursor);
    }
  }

  /** Only Raw slots give Raw turns. */
  lemma RawTurnTakesSlot(t: Turn, id: string)
    requires RawTurn(t) && TakerOf(t) != id
    ensures Overtaken(t, id)
  {
    hide Select, RawSlot, Rotated;
    RawServedExactly(t.view, t.cursor, Select(t.view, t.cursor).value.session);
  }

  /** A turn leaves the others no more debt, and less if it took a slot for Raw work. */
  lemma SlotIsPaid(ids: seq<string>, t: Turn, f: Found, id: string)
    requires RawWaits(t, id) && Agrees(ids, t, f.raws) && Unblocked(ids, t, f, id)
    ensures Debts(ids, Leaves(t, f), id) + (if Overtaken(t, id) then 1 else 0)
            <= Debts(ids, f.raws, id) + if Recovery(t) then 1 else 0
  {
    hide Select, Overtaken, Recovery, RawWaits, Debt, AfterRaw, Sound, Blocked, PagesOk, Agrees, NeedsTurn;
    if Overtaken(t, id) {
      SlotIsLost(ids, t, f.raws, id);
    }
    if RawTurn(t) {
      var x := TakerOf(t);
      if x != id {
        RawTurnTakesSlot(t, id);
        TurnPaysExactly(f.raws, x, f.lims);
      }
      DebtsFall(ids, f.raws, x, f.lims, id);
    }
  }

  /** Every Raw slot that the session loses is one of Git recovery or is paid for by the session that takes
    * it. */
  lemma {:induction false} SlotsArePaid(turns: seq<Turn>, found: seq<Found>, ids: seq<string>, id: string, from: nat)
    requires Watched(turns, found, ids, id) && from < |turns|
    ensures OvertakenCount(turns, from, id)
            <= Debts(ids, found[from].raws, id) + RecoveryCount(turns, from) + Growth(turns, found, ids, id, from)
    decreases |turns| - from
  {
    hide Overtaken, Recovery, RawWaits, Unblocked, Agrees, Leaves, Debts;
    assert RawWaits(turns[from], id);
    SlotIsPaid(ids, turns[from], found[from], id);
    if from + 1 < |turns| {
      SlotsArePaid(turns, found, ids, id, from + 1);
    }
  }

  /** Main result. While no rival is blocked, an eligible session gets a Raw turn within five served turns
    * for every unit of debt that the others have or come by and for every slot of Git recovery, and five
    * more: it cannot wait forever. */
  lemma ServedUnlessBlocked(turns: seq<Turn>, found: seq<Found>, ids: seq<string>, id: string)
    requires IsRun(turns) && turns != [] && Watched(turns, found, ids, id)
    requires Served(turns, 0) >= 5 * (Debts(ids, found[0].raws, id) + RecoveryCount(turns, 0)
                                      + Growth(turns, found, ids, id, 0) + 1)
    ensures exists k :: 0 <= k < |turns| && RawServedAt(turns[k], id)
  {
    hide IsRun, RawWaits, Agrees, Unblocked, RawServedAt, Debts, Growth, RecoveryCount, Served;
    SlotsArePaid(turns, found, ids, id, 0);
    SessionServedInTime(turns, id);
  }
}
