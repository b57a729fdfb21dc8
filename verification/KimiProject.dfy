/** The loops of the Kimi adapter: undo on the visible-frame list, one thread, delegation, and
  * the whole session. */
module KimiProject {
  import opened Base
  import opened KimiRows
  import opened KimiThread
  import opened KimiTurns
  import KimiFamily
  import D = KimiDelegation
  import FamilyOrder

  // ---------------------------------------------------------------- undo

  /** Behind the last visible frame nothing shows. */
  lemma {:induction false} LastVisible(frames: seq<Frame>)
    ensures VisibleOf(frames) == [] ==> forall k :: 0 <= k < |frames| ==> frames[k].events == []
    ensures VisibleOf(frames) != [] ==>
              var last := VisibleOf(frames)[|VisibleOf(frames)| - 1];
              last < |frames| && forall k :: last < k < |frames| ==> frames[k].events == []
  {
    if frames != [] {
      LastVisible(frames[..|frames| - 1]);
    }
  }

  /** Popping the last visible frame extends the cleared part down to it. */
  lemma PopClears(frames: seq<Frame>, mark: nat)
    requires mark <= |frames| && VisibleOf(ClearFrom(frames, mark)) != []
    ensures var visible := VisibleOf(ClearFrom(frames, mark));
            var slot := visible[|visible| - 1];
            && slot < mark
            && ClearFrom(frames, mark)[slot := ClearFrom(frames, mark)[slot].(events := [])] == ClearFrom(frames, slot)
            && VisibleOf(ClearFrom(frames, slot)) == visible[..|visible| - 1]
            && |Shown(ClearFrom(frames, mark))|
               == |Shown(ClearFrom(frames, slot))| + |ClearFrom(frames, mark)[slot].events|
  {
    var cleared := ClearFrom(frames, mark);
    var visible := VisibleOf(cleared);
    var slot := visible[|visible| - 1];
    VisibleBounds(cleared);
    LastVisible(cleared);
    assert cleared[slot := cleared[slot].(events := [])] == ClearFrom(frames, slot);
    assert ClearFrom(cleared, slot) == ClearFrom(frames, slot);
    VisibleAfterClear(cleared, slot);
    PopOne(cleared, visible, slot);
    ClearShows(cleared, slot);
    SplitShown(cleared, slot);
    EventsAtLast(cleared, slot);
  }

  lemma EventsAtLast(frames: seq<Frame>, slot: nat)
    requires slot < |frames| && forall k :: slot < k < |frames| ==> frames[k].events == []
    ensures EventsFrom(frames, slot) == |frames[slot].events|
  {
    NoneLeft(frames, slot + 1);
  }

  lemma {:induction false} NoneLeft(frames: seq<Frame>, from: nat)
    requires from <= |frames| && forall k :: from <= k < |frames| ==> frames[k].events == []
    ensures EventsFrom(frames, from) == 0
    decreases |frames| - from
  {
    if from < |frames| {
      NoneLeft(frames, from + 1);
    }
  }

  lemma PopOne(frames: seq<Frame>, visible: seq<nat>, slot: nat)
    requires visible == VisibleOf(frames) && visible != [] && slot == visible[|visible| - 1]
    ensures VisibleBefore(visible, slot) == visible[..|visible| - 1]
  {
    var rest := visible[..|visible| - 1];
    VisibleRises(frames);
    if rest != [] {
      assert rest[|rest| - 1] < slot;
    }
  }

  lemma {:induction false} VisibleRises(frames: seq<Frame>)
    ensures Increasing(VisibleOf(frames))
  {
    if frames != [] {
      VisibleRises(frames[..|frames| - 1]);
      VisibleBounds(frames[..|frames| - 1]);
    }
  }

  /** When no visible frame at or after `start` is left, everything from there on is cleared. */
  lemma ClearedEnough(frames: seq<Frame>, mark: nat, start: nat)
    requires start <= |frames| && mark <= |frames| && (start <= mark)
    requires var visible := VisibleOf(ClearFrom(frames, mark)); visible == [] || visible[|visible| - 1] < start
    ensures ClearFrom(frames, mark) == ClearFrom(frames, start)
  {
    var cleared := ClearFrom(frames, mark);
    LastVisible(cleared);
    assert forall k :: start <= k < |frames| ==> cleared[k].events == [];
    forall k | 0 <= k < |frames|
      ensures cleared[k] == ClearFrom(frames, start)[k]
    {
    }
  }

  /** Undo, popping visible frames one by one. */
  method Undo(t: Thread, i: nat, r: Row) returns (effect: Result<Effect>)
    requires Inv(t) && r.Undo?
    ensures effect == OnUndo(t, i, r)
  {
    hide Shown, VisibleOf, ClearFrom, EventsFrom, VisibleBefore, Numbered;
    if t.active || t.step.Some? || t.compaction.Some? || r.count == 0 || r.count > |t.turns| - t.undoFloor {
      return Err(Unsupported);
    }
    var keep := |t.turns| - r.count;
    var turns, start := t.turns[..keep], t.turns[keep];
    var visible, frames, events := t.visible, t.frames, t.events;
    ghost var mark := |t.frames|;
    NothingCleared(t.frames);
    while visible != [] && visible[|visible| - 1] >= start
      invariant start <= mark <= |t.frames|
      invariant frames == ClearFrom(t.frames, mark) && visible == VisibleOf(frames) && events == |Shown(frames)|
      decreases |visible|
    {
      PopClears(t.frames, mark);
      var slot := visible[|visible| - 1];
      visible := visible[..|visible| - 1];
      events := events - |frames[slot].events|;
      frames := frames[slot := frames[slot].(events := [])];
      mark := slot;
    }
    ClearedEnough(t.frames, mark, start);
    UndoLeaves(t, start, EventsFrom(t.frames, start));
    effect := Ok(Effect(t.(turns := turns, visible := visible, frames := frames, events := events), LineKey(i), [], 0));
  }

  lemma NothingCleared(frames: seq<Frame>)
    ensures ClearFrom(frames, |frames|) == frames
  {
  }

  // ---------------------------------------------------------------- one thread

  /** A failed row ends the run for every longer prefix. */
  lemma {:induction false} FailureStays(log: seq<Entry>, ctx: Context, m: nat, n: nat)
    requires m <= n <= |log| && Run(log, ctx, m).Err?
    ensures Run(log, ctx, n).Err?
    decreases n - m
  {
    hide Step;
    if m < n {
      FailureStays(log, ctx, m, n - 1);
    }
  }

  /** `projectThread`: row by row, then the end-of-log checks. */
  method ProjectThread(log: seq<Entry>, ctx: Context) returns (r: Result<Thread>)
    ensures r.Ok? <==> Accepted(log, ctx)
    ensures r.Ok? ==> r == Run(log, ctx, |log|)
  {
    hide Decide, Add, Inv, Start;
    r := Start(ctx);
    var i := 0;
    while i < |log| && r.Ok?
      invariant 0 <= i <= |log| && r == Run(log, ctx, i)
    {
      var t, e := r.value, log[i];
      RunInv(log, ctx, i);
      var effect;
      if e.row.Undo? && e.agentOk && i > 0 {
        effect := Undo(t, i, e.row);
        UndoDecides(t, ctx, i, e);
      } else {
        effect := Decide(t, ctx, i, e);
      }
      if effect.Err? {
        r := Err(effect.reason);
      } else if |effect.value.t.turnsForCalls| == 0 {
        r := Err(Format);
      } else {
        r := Add(effect.value.t, ctx, i, effect.value.key, effect.value.output, effect.value.usage);
      }
      i := i + 1;
    }
    if r.Err? {
      FailureStays(log, ctx, i, |log|);
      return;
    }
    var t := r.value;
    if log == [] || t.step.Some? || t.compaction.Some? || t.taskPrompt.Some?
       || |t.messages| != |t.prompts| || t.messages == {} || (ctx.forked && t.forkMarkers == 0) {
      r := Err(Format);
    }
  }

  lemma UndoDecides(t: Thread, ctx: Context, i: nat, e: Entry)
    requires e.row.Undo? && e.agentOk && i > 0
    ensures Decide(t, ctx, i, e) == OnUndo(t, i, e.row)
  {
    hide OnUndo;
  }

  // ---------------------------------------------------------------- delegation

  lemma {:induction false} ScanFails(agents: map<string, D.Agent>, parent: string, log: seq<Entry>, m: nat, n: nat,
                                     calls: map<string, seq<D.Call>>)
    requires m <= n <= |log| && D.Scan(agents, parent, log, m, calls).Err?
    ensures D.Scan(agents, parent, log, n, calls) == D.Scan(agents, parent, log, m, calls)
    decreases n - m
  {
    hide D.Step;
    if m < n {
      ScanFails(agents, parent, log, m, n - 1, calls);
    }
  }

  /** All rows of one parent. */
  method ScanRows(agents: map<string, D.Agent>, parent: string, log: seq<Entry>, calls: map<string, seq<D.Call>>)
    returns (r: Result<D.Desk>)
    ensures r == D.ScanParent(agents, parent, log, calls)
  {
    hide D.Step;
    r := Ok(D.Desk([], map[], map[], map[], map[], calls));
    var i := 0;
    while i < |log| && r.Ok?
      invariant 0 <= i <= |log| && r == D.Scan(agents, parent, log, i, calls)
    {
      r := D.Step(r.value, agents, parent, i, log[i]);
      i := i + 1;
    }
    if r.Err? {
      ScanFails(agents, parent, log, i, |log|, calls);
    } else if !D.Closed(r.value) {
      r := Err(Format);
    }
  }

  lemma {:induction false} MatchFails(expected: seq<D.Call>, tasks: map<string, D.Task>, c: string, profile: string,
                                      log: seq<Entry>, m: nat, n: nat)
    requires m <= n <= |log| && D.Matched(expected, tasks, c, profile, log, m).Err?
    ensures D.Matched(expected, tasks, c, profile, log, n).Err?
    decreases n - m
  {
    hide D.MatchStep;
    if m < n {
      MatchFails(expected, tasks, c, profile, log, m, n - 1);
    }
  }

  /** The turns of one child against the calls that its parent made. */
  method MatchTurns(expected: seq<D.Call>, tasks: map<string, D.Task>, c: string, profile: string, log: seq<Entry>)
    returns (ok: bool)
    ensures ok == D.TurnsMatch(expected, tasks, c, profile, log)
  {
    hide D.MatchStep;
    var m := Ok(D.Match(0, false, ""));
    var i := 0;
    while i < |log| && m.Ok?
      invariant 0 <= i <= |log| && m == D.Matched(expected, tasks, c, profile, log, i)
    {
      m := D.MatchStep(expected, tasks, c, profile, m.value, log[i]);
      i := i + 1;
    }
    if m.Err? {
      MatchFails(expected, tasks, c, profile, log, i, |log|);
      return false;
    }
    ok := !m.value.active && m.value.turn == |expected|;
  }

  lemma {:induction false} ScansFail(src: KimiFamily.Source, m: nat, n: nat)
    requires m <= n <= |src.names| + 1 && KimiFamily.Scans(src, m).Err?
    ensures KimiFamily.Scans(src, n) == KimiFamily.Scans(src, m)
    decreases n - m
  {
    hide D.ScanParent;
    if m < n {
      ScansFail(src, m, n - 1);
    }
  }

  method CheckChild(src: KimiFamily.Source, s: KimiFamily.Scanned, c: string) returns (ok: bool)
    ensures ok == KimiFamily.Answered(src, s, c)
  {
    hide D.TurnsMatch;
    if c !in src.agents || D.Main !in s.desks || c !in s.desks {
      return false;
    }
    var expected := D.History(s.calls, c);
    if s.desks[c].links != map[] && exists j :: 0 <= j < |expected| && expected[j].receipt.Launched? {
      return false;
    }
    ok := MatchTurns(expected, s.desks[D.Main].tasks, c, src.agents[c].profile, KimiFamily.LogOf(src, c));
  }

  /** `delegation`: every parent, then every child. */
  method Delegation(src: KimiFamily.Source) returns (r: Result<KimiFamily.Scanned>)
    ensures r == KimiFamily.Delegate(src)
  {
    hide D.ScanParent, KimiFamily.Answered;
    var s := KimiFamily.Scanned(map[], map[]);
    var k := 0;
    while k < |src.names| + 1
      invariant 0 <= k <= |src.names| + 1 && Ok(s) == KimiFamily.Scans(src, k)
    {
      var id := KimiFamily.Id(src, k);
      var d := ScanRows(src.agents, id, KimiFamily.LogOf(src, id), s.calls);
      k := k + 1;
      if d.Err? {
        ScansFail(src, k, |src.names| + 1);
        return Err(d.reason);
      }
      s := KimiFamily.Scanned(s.desks[id := d.value], d.value.calls);
    }
    if |s.calls| != |src.names| {
      return Err(Format);
    }
    var at := 0;
    while at < |src.names|
      invariant 0 <= at <= |src.names|
      invariant forall j :: 0 <= j < at ==> KimiFamily.Answered(src, s, src.names[j])
    {
      var ok := CheckChild(src, s, src.names[at]);
      if !ok {
        return Err(Format);
      }
      at := at + 1;
    }
    r := Ok(s);
  }

  // ---------------------------------------------------------------- the whole session

  lemma {:induction false} PlansFail(src: KimiFamily.Source, s: KimiFamily.Scanned, m: nat, n: nat, events: nat,
                                     usage: nat)
    requires m <= n <= |src.names| + 1 && KimiFamily.PlanThreads(src, s, m, events, usage).Err?
    ensures KimiFamily.PlanThreads(src, s, n, events, usage).Err?
    decreases n - m
  {
    hide Accepted, Run;
    if m < n {
      PlansFail(src, s, m, n - 1, events, usage);
    }
  }

  /** Every thread, within what is left of the budgets. */
  method ProjectThreads(src: KimiFamily.Source, s: KimiFamily.Scanned, events: nat, usage: nat)
    returns (r: Result<KimiFamily.Planned>)
    ensures r.Ok? <==> KimiFamily.PlanThreads(src, s, |src.names| + 1, events, usage).Ok?
    ensures r.Ok? ==> r == KimiFamily.PlanThreads(src, s, |src.names| + 1, events, usage)
  {
    hide Accepted, Run, KimiFamily.ContextOf, KimiFamily.LogOf, KimiFamily.Left;
    var p := KimiFamily.Planned(map[], 0, 0);
    var k := 0;
    while k < |src.names| + 1
      invariant 0 <= k <= |src.names| + 1 && Ok(p) == KimiFamily.PlanThreads(src, s, k, events, usage)
    {
      var id := KimiFamily.Id(src, k);
      k := k + 1;
      if id !in s.desks {
        PlansFail(src, s, k, |src.names| + 1, events, usage);
        return Err(Format);
      }
      var ctx := KimiFamily.ContextOf(src, s, id, KimiFamily.Left(events, p.events), KimiFamily.Left(usage, p.usage));
      var t := ProjectThread(KimiFamily.LogOf(src, id), ctx);
      if t.Err? {
        PlansFail(src, s, k, |src.names| + 1, events, usage);
        return Err(t.reason);
      }
      p := KimiFamily.Planned(p.plans[id := KimiFamily.Plan(ctx, t.value)], p.events + t.value.events,
                              p.usage + t.value.usageCount);
    }
    r := Ok(p);
  }

  /** `metadata` and `project` on a session with children. The only ways to fail are a label
    * cycle, a delegation the native receipts do not support, and a thread that is refused:
    * never a call without a turn. */
  method ProjectSession(src: KimiFamily.Source, events: nat, usage: nat) returns (r: Result<seq<FamilyOrder.Frame>>)
    requires KimiFamily.Named(src) && KimiFamily.Declared(src.agents) && src.agents != map[]
    ensures r.Ok? <==> (exists depth :: KimiFamily.Rooted(src.agents, depth)) && KimiFamily.Admitted(src, events, usage)
    ensures r.Ok? ==>
              var p := KimiFamily.PlansOf(src, events, usage);
              && D.Main in p.plans && src.agents.Keys <= p.plans.Keys
              && |FamilyOrder.Indices(r.value)| == p.events && CountsFrom(0, FamilyOrder.Indices(r.value))
              && var fam := KimiFamily.FamilyOf(src, p);
                 && FamilyOrder.Drain(fam, fam.root, map[]).Ok?
                 && r.value == FamilyOrder.Ordered(FamilyOrder.Drain(fam, fam.root, map[]).value.0, 0)
  {
    hide KimiFamily.Delegate, KimiFamily.PlanThreads, FamilyOrder.Drain, FamilyOrder.Ordered, FamilyOrder.Indices,
         CountsFrom;
    hide KimiFamily.Rooted, KimiFamily.Declared, KimiFamily.FamilyOf;
    var connected, depth := KimiFamily.ConnectParents(src.names, src.agents);
    if !connected {
      return Err(Format);
    }
    var s := Delegation(src);
    if s.Err? {
      return Err(s.reason);
    }
    var p := ProjectThreads(src, s.value, events, usage);
    if p.Err? {
      return Err(p.reason);
    }
    KimiFamily.SessionNumbers(src, events, usage, depth);
    r := FamilyOrder.Interleave(KimiFamily.FamilyOf(src, p.value));
  }
}
