/** The Cursor start protocol: a monitor fiber, the child's exit and the main path share one creation
  * attempt, which is confirmed at most once or abandoned. */
module CursorStart {

  /** What is known of the child process: `owned.outcome`. */
  datatype Exit = Running | CleanZero | OtherExit

  datatype Monitor = Looping | Reading | Confirming | Failed | Abandoning | Stopped

  datatype Main = Waiting | Interrupting | LastReading | LastConfirming | Closing | LastAbandoning | Releasing
    | Finished

  /** Calls to the Host, in the order they happen; a confirm carries the exit known when it starts. */
  datatype Event = ConfirmStarts(exit: Exit) | ConfirmSucceeds | ConfirmFails | AbandonStarts

  datatype State = State(monitor: Monitor, main: Main, exit: Exit, confirmed: bool, deferred: bool, log: seq<Event>)

  const Launched := State(Looping, Waiting, Running, false, false, [])

  /** The child exits or fails to start; only the first outcome counts. */
  ghost predicate ChildStep(s: State, t: State) {
    s.exit.Running? && !t.exit.Running? && t == s.(exit := t.exit)
  }

  /** One step of the monitor's loop. */
  ghost predicate MonitorStep(s: State, t: State) {
    match s.monitor
    case Looping =>
      t == s.(monitor := if s.exit.Running? && !s.confirmed then Reading else Stopped)
    case Reading =>
      // The read ends: without evidence yet, with a lasting error, or with a snapshot. A snapshot
      // that comes after an observed exit is fenced off.
      || t == s.(monitor := Looping)
      || t == s.(deferred := true, monitor := Abandoning, log := s.log + [AbandonStarts])
      || (s.exit.Running? && t == s.(monitor := Confirming, log := s.log + [ConfirmStarts(s.exit)]))
    case Confirming =>
      || t == s.(confirmed := true, monitor := Stopped, log := s.log + [ConfirmSucceeds])
      || t == s.(monitor := Failed, log := s.log + [ConfirmFails])
    case Failed =>
      t == s.(deferred := true, monitor := Abandoning, log := s.log + [AbandonStarts])
    case Abandoning => t == s.(monitor := Stopped)
    case Stopped => false
  }

  /** One step of the main path. Interrupting waits for a confirmation that is under way. */
  ghost predicate MainStep(s: State, t: State) {
    match s.main
    case Waiting => !s.exit.Running? && t == s.(main := Interrupting)
    case Interrupting =>
      || (!s.monitor.Confirming? && !s.monitor.Stopped? && t == s.(monitor := Stopped))
      || (s.monitor.Stopped?
          && t == s.(main := if !s.confirmed && !s.deferred && s.exit.CleanZero? then LastReading else Closing))
    case LastReading =>
      || t == s.(main := Closing)
      || t == s.(deferred := true, main := Closing)
      || t == s.(main := LastConfirming, log := s.log + [ConfirmStarts(s.exit)])
    case LastConfirming =>
      || t == s.(confirmed := true, main := Closing, log := s.log + [ConfirmSucceeds])
      || t == s.(deferred := true, main := Closing, log := s.log + [ConfirmFails])
    case Closing =>
      t == if s.confirmed then s.(main := Releasing) else s.(main := LastAbandoning, log := s.log + [AbandonStarts])
    case LastAbandoning => t == s.(main := Releasing) || t == s.(deferred := true, main := Releasing)
    case Releasing =>
      t == if s.confirmed then s.(main := Finished) else s.(main := Finished, log := s.log + [AbandonStarts])
    case Finished => false
  }

  ghost predicate Step(s: State, t: State) {
    ChildStep(s, t) || MonitorStep(s, t) || MainStep(s, t)
  }

  /** Every uncancelled interleaving. */
  ghost predicate Run(states: seq<State>) {
    && states != [] && states[0] == Launched
    && forall k {:trigger Linked(states, k)} :: 0 <= k < |states| - 1 ==> Linked(states, k)
  }

  ghost predicate Linked(states: seq<State>, k: nat)
    requires k + 1 < |states|
  {
    Step(states[k], states[k + 1])
  }

  // ---------------------------------------------------------------- the log

  function Count(log: seq<Event>, e: Event): nat {
    if log == [] then 0 else Count(log[..|log| - 1], e) + if log[|log| - 1] == e then 1 else 0
  }

  predicate IsConfirm(e: Event) {
    e.ConfirmStarts?
  }

  /** Successes and abandons exclude each other, and what starts comes in a legal place. */
  ghost predicate Legal(log: seq<Event>) {
    && Count(log, ConfirmSucceeds) <= 1
    && (forall i, j :: 0 <= i < j < |log| && log[i].AbandonStarts? ==> !IsConfirm(log[j]) && !log[j].ConfirmSucceeds?)
    && (forall i, j :: 0 <= i < j < |log| && log[i].ConfirmSucceeds? ==> !log[j].AbandonStarts? && !IsConfirm(log[j]))
    && forall i :: 0 <= i < |log| && IsConfirm(log[i]) ==> !log[i].exit.OtherExit?
  }

  lemma CountSnoc(log: seq<Event>, last: Event, e: Event)
    ensures Count(log + [last], e) == Count(log, e) + if last == e then 1 else 0
  {
    assert (log + [last])[..|log|] == log;
  }

  predicate Active(m: Main) {
    m.Waiting? || m.Interrupting?
  }

  predicate Has(log: seq<Event>, e: Event) {
    exists k :: 0 <= k < |log| && log[k] == e
  }

  /** What every reachable state keeps. */
  ghost predicate Inv(s: State) {
    && Legal(s.log)
    && (s.confirmed <==> Has(s.log, ConfirmSucceeds)) && Count(s.log, ConfirmSucceeds) == (if s.confirmed then 1 else 0)
    && (Has(s.log, AbandonStarts) ==> !s.confirmed)
    && (Active(s.main) && Has(s.log, AbandonStarts) ==> s.deferred && (s.monitor.Abandoning? || s.monitor.Stopped?))
    && (!Active(s.main) ==> s.monitor.Stopped?)
    && (s.main.Interrupting? || !Active(s.main) ==> !s.exit.Running?)
    && (s.main.LastReading? || s.main.LastConfirming? ==>
          s.exit.CleanZero? && !s.confirmed && !Has(s.log, AbandonStarts))
    && (s.monitor.Reading? || s.monitor.Confirming? || s.monitor.Failed? ==> !s.confirmed && !Has(s.log, AbandonStarts))
    && (s.monitor.Abandoning? ==> !s.confirmed)
    && (s.monitor.Looping? ==> !Has(s.log, AbandonStarts) && !s.confirmed)
    && (s.main.LastAbandoning? ==> !s.confirmed && Has(s.log, AbandonStarts))
    && (s.main.Releasing? && !s.confirmed ==> Has(s.log, AbandonStarts))
    && (s.main.Finished? && !s.confirmed ==> Has(s.log, AbandonStarts))
  }

  lemma HasSnoc(log: seq<Event>, last: Event, e: Event)
    ensures Has(log + [last], e) <==> Has(log, e) || last == e
  {
    if Has(log, e) {
      var k :| 0 <= k < |log| && log[k] == e;
      assert (log + [last])[k] == e;
    }
    assert (log + [last])[|log|] == last;
  }

  lemma LegalSnoc(log: seq<Event>, e: Event)
    requires Legal(log)
    requires e.ConfirmSucceeds? ==> Count(log, ConfirmSucceeds) == 0 && !Has(log, AbandonStarts)
    requires IsConfirm(e) ==> !e.exit.OtherExit? && !Has(log, AbandonStarts) && !Has(log, ConfirmSucceeds)
    requires e.AbandonStarts? ==> !Has(log, ConfirmSucceeds)
    ensures Legal(log + [e])
  {
    CountSnoc(log, e, ConfirmSucceeds);
    hide Count;
  }

  lemma StepKeeps(s: State, t: State)
    requires Inv(s) && Step(s, t)
    ensures Inv(t)
  {
    hide Legal, Count, Has;
    if t.log != s.log {
      var e := t.log[|s.log|];
      assert t.log == s.log + [e];
      HasSnoc(s.log, e, AbandonStarts);
      HasSnoc(s.log, e, ConfirmSucceeds);
      CountSnoc(s.log, e, ConfirmSucceeds);
      LegalSnoc(s.log, e);
    }
  }

  lemma {:induction false} RunKeeps(states: seq<State>, n: nat)
    requires Run(states) && n < |states|
    ensures Inv(states[n])
  {
    hide Step, Inv;
    if n == 0 {
      StartKeeps();
    } else {
      RunKeeps(states, n - 1);
      assert Linked(states, n - 1);
      StepKeeps(states[n - 1], states[n]);
    }
  }

  lemma StartKeeps()
    ensures Inv(Launched)
  {
  }

  /** Main result. In every interleaving at most one confirmation succeeds, none starts after an
    * abandon or after a success, no abandon follows a success, and a confirmation starts only while
    * no exit is known or after a clean zero exit. */
  lemma ProtocolIsLegal(states: seq<State>, n: nat)
    requires Run(states) && n < |states|
    ensures Legal(states[n].log)
    ensures states[n].confirmed <==> Has(states[n].log, ConfirmSucceeds)
  {
    RunKeeps(states, n);
  }

  /** Main result. A run that finishes has either one success and no abandon, or no success and at
    * least one abandon: no attempt is left open, and none is both kept and given up. */
  lemma FinishedIsDecided(states: seq<State>, n: nat)
    requires Run(states) && n < |states| && states[n].main.Finished?
    ensures var log := states[n].log;
            if states[n].confirmed then Count(log, ConfirmSucceeds) == 1 && !Has(log, AbandonStarts)
            else Count(log, ConfirmSucceeds) == 0 && Has(log, AbandonStarts)
  {
    RunKeeps(states, n);
  }

  /** The fence matters: a snapshot that arrives once the child has failed starts nothing. */
  lemma LateReadStartsNothing(states: seq<State>, n: nat)
    requires Run(states) && n + 1 < |states| && states[n].exit.OtherExit?
    ensures |states[n + 1].log| > |states[n].log| ==> !IsConfirm(states[n + 1].log[|states[n].log|])
  {
    RunKeeps(states, n);
    assert Linked(states, n);
    hide Legal, Count, Has;
  }
}
