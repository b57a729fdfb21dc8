/** How a Cursor start ends: once the child has exited, every step leads on and the start is
  * decided after a bounded number of them; confirmations that start also end, and an attempt that
  * is given up is abandoned again when it is released. */
module CursorSettles {
  import opened CursorStart

  // ---------------------------------------------------------------- it comes to an end

  function MonitorRank(m: Monitor): nat {
    match m
    case Reading => 5
    case Confirming => 4
    case Failed => 3
    case Looping => 2
    case Abandoning => 1
    case Stopped => 0
  }

  function MainRank(m: Main): nat {
    match m
    case Waiting => 7
    case Interrupting => 6
    case LastReading => 5
    case LastConfirming => 4
    case Closing => 3
    case LastAbandoning => 2
    case Releasing => 1
    case Finished => 0
  }

  /** A bound on the steps that are left once the child has exited. */
  function StepsLeft(s: State): nat {
    MonitorRank(s.monitor) + MainRank(s.main)
  }

  /** With the exit known every step leads closer to the end. */
  lemma StepLeadsOn(s: State, t: State)
    requires Step(s, t) && !s.exit.Running?
    ensures StepsLeft(t) < StepsLeft(s) && t.exit == s.exit
  {
  }

  /** Nothing gets stuck: a start that has not finished has a step to take, and with the exit known
    * one of its own. */
  lemma NothingIsStuck(s: State) returns (t: State)
    requires Inv(s) && !s.main.Finished?
    ensures Step(s, t)
  {
    hide Legal, Has, Count;
    match s.main
    case Waiting =>
      if s.exit.Running? {
        t := s.(exit := CleanZero);
      } else {
        t := s.(main := Interrupting);
      }
    case Interrupting =>
      if s.monitor.Confirming? {
        t := s.(monitor := Failed, log := s.log + [ConfirmFails]);
        assert MonitorStep(s, t);
      } else if !s.monitor.Stopped? {
        t := s.(monitor := Stopped);
      } else {
        t := s.(main := if !s.confirmed && !s.deferred && s.exit.CleanZero? then LastReading else Closing);
      }
    case LastReading => t := s.(main := Closing);
    case LastConfirming => t := s.(confirmed := true, main := Closing, log := s.log + [ConfirmSucceeds]);
    case Closing =>
      t := if s.confirmed then s.(main := Releasing) else s.(main := LastAbandoning, log := s.log + [AbandonStarts]);
    case LastAbandoning => t := s.(main := Releasing);
    case Releasing =>
      t := if s.confirmed then s.(main := Finished) else s.(main := Finished, log := s.log + [AbandonStarts]);
  }

  /** A run that goes on for twelve steps behind the child's exit has finished on its way. */
  lemma {:induction false} ExitSettles(states: seq<State>, n: nat, m: nat)
    requires Run(states) && n <= m < |states| && !states[n].exit.Running?
    ensures !states[m].exit.Running? && StepsLeft(states[m]) + (m - n) <= StepsLeft(states[n]) <= 12
    decreases m - n
  {
    if n < m {
      ExitSettles(states, n, m - 1);
      assert Linked(states, m - 1);
      StepLeadsOn(states[m - 1], states[m]);
    }
  }

  // ---------------------------------------------------------------- what the Host was asked

  function Starts(log: seq<Event>): nat {
    if log == [] then 0 else Starts(log[..|log| - 1]) + if log[|log| - 1].ConfirmStarts? then 1 else 0
  }

  lemma StartsSnoc(log: seq<Event>, e: Event)
    ensures Starts(log + [e]) == Starts(log) + if e.ConfirmStarts? then 1 else 0
  {
    assert (log + [e])[..|log|] == log;
  }

  function UnderWay(s: State): nat {
    (if s.monitor.Confirming? then 1 else 0) + (if s.main.LastConfirming? then 1 else 0)
  }

  /** How often an attempt was abandoned, by where the start stands. */
  predicate AbandonsFit(s: State) {
    var n := Count(s.log, AbandonStarts);
    match s.main
    case Waiting => n == if s.deferred then 1 else 0
    case Interrupting => n == if s.deferred then 1 else 0
    case LastReading => n == 0
    case LastConfirming => n == 0
    case Closing => n <= 1
    case LastAbandoning => 1 <= n <= 2
    case Releasing => if s.confirmed then n == 0 else 1 <= n <= 2
    case Finished => if s.confirmed then n == 0 else 2 <= n <= 3
  }

  ghost predicate Balanced(s: State) {
    && Starts(s.log) == Count(s.log, ConfirmSucceeds) + Count(s.log, ConfirmFails) + UnderWay(s)
    && AbandonsFit(s)
    && (s.deferred ==> !s.main.LastReading? && !s.main.LastConfirming?)
    && (s.monitor.Failed? ==> Count(s.log, ConfirmFails) > 0)
    && Starts(s.log) <= (if s.monitor.Looping? || s.monitor.Reading? then 0 else 1)
                        + (if s.main.LastConfirming? || MainRank(s.main) < MainRank(LastConfirming) then 1 else 0)
  }

  lemma {:induction false} NoneCounted(log: seq<Event>, e: Event)
    ensures Count(log, e) > 0 <==> Has(log, e)
  {
    if log != [] {
      var rest := log[..|log| - 1];
      NoneCounted(rest, e);
      HasSnoc(rest, log[|log| - 1], e);
      assert rest + [log[|log| - 1]] == log;
    } else {
      assert !Has(log, e);
    }
  }

  lemma StepBalances(s: State, t: State)
    requires Inv(s) && Balanced(s) && Step(s, t)
    ensures Balanced(t)
  {
    NoneCounted(s.log, AbandonStarts);
    NoneCounted(s.log, ConfirmSucceeds);
    hide Legal, Has, Count, Starts;
    if t.log != s.log {
      var e := t.log[|s.log|];
      assert t.log == s.log + [e];
      StartsSnoc(s.log, e);
      CountSnoc(s.log, e, AbandonStarts);
      CountSnoc(s.log, e, ConfirmSucceeds);
      CountSnoc(s.log, e, ConfirmFails);
    }
  }

  /** Every confirmation that starts ends once, at most two start, and the number of abandons
    * follows from how far the start has come: a finished start that was not confirmed was
    * abandoned before its release and once more on it. */
  lemma {:induction false} CallsBalance(states: seq<State>, n: nat)
    requires Run(states) && n < |states|
    ensures Balanced(states[n]) && Starts(states[n].log) <= 2
  {
    hide Step, Inv, Balanced;
    if n == 0 {
      LaunchBalances();
    } else {
      CallsBalance(states, n - 1);
      RunKeeps(states, n - 1);
      assert Linked(states, n - 1);
      StepBalances(states[n - 1], states[n]);
    }
    AtMostTwo(states[n]);
  }

  lemma LaunchBalances()
    ensures Balanced(Launched)
  {
  }

  lemma AtMostTwo(s: State)
    requires Balanced(s)
    ensures Starts(s.log) <= 2
  {
  }

  // ---------------------------------------------------------------- every outcome happens

  /** Some run ends like this. */
  ghost predicate Reachable(s: State) {
    exists states :: Run(states) && states[|states| - 1] == s
  }

  /** One step more. */
  lemma ReachableNext(s: State, t: State)
    requires Reachable(s) && Step(s, t)
    ensures Reachable(t)
  {
    hide Step;
    var states :| Run(states) && states[|states| - 1] == s;
    var more := states + [t];
    forall k | 0 <= k < |more| - 1
      ensures Linked(more, k)
    {
      if k < |states| - 1 {
        assert Linked(states, k);
      }
    }
    assert Run(more) && more[|more| - 1] == t;
  }

  lemma LaunchedIsReachable()
    ensures Reachable(Launched)
  {
    assert Run([Launched]) && [Launched][0] == Launched;
  }

  /** What the monitor may leave behind: the log, whether the start is confirmed, whether an error is
    * kept. It saw nothing, confirmed, failed to confirm, gave up on an error, or both. */
  predicate Left(log: seq<Event>, confirmed: bool, deferred: bool) {
    || (log == [] && !confirmed && !deferred)
    || (log == [ConfirmStarts(Running), ConfirmSucceeds] && confirmed && !deferred)
    || (log == [ConfirmStarts(Running), ConfirmFails] && !confirmed && !deferred)
    || (log == [AbandonStarts] && !confirmed && deferred)
    || (log == [ConfirmStarts(Running), ConfirmFails, AbandonStarts] && !confirmed && deferred)
  }

  /** The same with the last read and the last confirmation, which only follow a clean exit of a start
    * that is still open. */
  ghost predicate Decided(log: seq<Event>, confirmed: bool, deferred: bool, exit: Exit) {
    || (Left(log, confirmed, deferred) && (confirmed || deferred || !exit.CleanZero?))
    || (exit.CleanZero? && exists base ::
          Left(base, false, false)
          && (|| (log == base && !confirmed)
              || (log == base + [ConfirmStarts(CleanZero), ConfirmFails] && !confirmed && deferred)
              || (log == base + [ConfirmStarts(CleanZero), ConfirmSucceeds] && confirmed && !deferred)))
  }

  /** Decided against, with the abandon that follows; its error is kept too. */
  ghost predicate GivenUp(log: seq<Event>, deferred: bool, exit: Exit) {
    exists before, kept: bool ::
      Decided(before, false, kept, exit) && log == before + [AbandonStarts] && (kept ==> deferred)
  }

  /** Where a start may stand while the monitor runs. */
  predicate Watched(s: State) {
    match s.monitor
    case Looping => s.log == [] && !s.confirmed && !s.deferred
    case Reading => s.log == [] && !s.confirmed && !s.deferred
    case Confirming => s.log == [ConfirmStarts(Running)] && !s.confirmed && !s.deferred
    case Failed => s.log == [ConfirmStarts(Running), ConfirmFails] && !s.confirmed && !s.deferred
    case Abandoning => !s.confirmed && s.deferred && Left(s.log, false, true)
    case Stopped => Left(s.log, s.confirmed, s.deferred)
  }

  /** Where a start may stand at all. */
  ghost predicate Placed(s: State) {
    && (!Active(s.main) ==> s.monitor.Stopped?) && (!s.main.Waiting? ==> !s.exit.Running?)
    && match s.main
       case Waiting => Watched(s)
       case Interrupting => Watched(s)
       case LastReading => s.exit.CleanZero? && Left(s.log, false, false) && !s.confirmed && !s.deferred
       case LastConfirming =>
         && s.exit.CleanZero? && !s.confirmed && !s.deferred
         && exists base :: Left(base, false, false) && s.log == base + [ConfirmStarts(CleanZero)]
       case Closing => Decided(s.log, s.confirmed, s.deferred, s.exit)
       case LastAbandoning =>
         && !s.confirmed
         && exists base :: Decided(base, false, s.deferred, s.exit) && s.log == base + [AbandonStarts]
       case Releasing => Settled(s, s.log)
       case Finished =>
         if s.confirmed then Settled(s, s.log)
         else exists base :: Settled(s, base) && s.log == base + [AbandonStarts]
  }

  /** The start is decided with this log, and abandoned if it was decided against. */
  ghost predicate Settled(s: State, log: seq<Event>) {
    if s.confirmed then Decided(log, true, s.deferred, s.exit) else GivenUp(log, s.deferred, s.exit)
  }

  lemma WatchedStays(s: State, t: State)
    requires Placed(s) && Active(s.main) && (ChildStep(s, t) || MonitorStep(s, t))
    ensures Placed(t)
  {
    hide Decided, GivenUp;
  }

  lemma MainStays(s: State, t: State)
    requires Placed(s) && MainStep(s, t)
    ensures Placed(t)
  {
    match s.main
    case LastConfirming =>
      var base :| Left(base, false, false) && s.log == base + [ConfirmStarts(CleanZero)];
      assert s.log + [ConfirmFails] == base + [ConfirmStarts(CleanZero), ConfirmFails];
      assert s.log + [ConfirmSucceeds] == base + [ConfirmStarts(CleanZero), ConfirmSucceeds];
    case LastAbandoning =>
      var base :| Decided(base, false, s.deferred, s.exit) && s.log == base + [AbandonStarts];
      assert GivenUp(s.log, t.deferred, t.exit);
    case _ =>
  }

  lemma StepStays(s: State, t: State)
    requires Placed(s) && Step(s, t)
    ensures Placed(t)
  {
    hide Placed;
    if MainStep(s, t) {
      MainStays(s, t);
    } else {
      OnlyMainIsLate(s, t);
      WatchedStays(s, t);
    }
  }

  /** Once the monitor was interrupted only the main path moves. */
  lemma OnlyMainIsLate(s: State, t: State)
    requires Placed(s) && (ChildStep(s, t) || MonitorStep(s, t))
    ensures Active(s.main)
  {
  }

  lemma {:induction false} RunStays(states: seq<State>, n: nat)
    requires Run(states) && n < |states|
    ensures Placed(states[n])
  {
    hide Placed, Step;
    if n == 0 {
      LaunchStays();
    } else {
      RunStays(states, n - 1);
      assert Linked(states, n - 1);
      StepStays(states[n - 1], states[n]);
    }
  }

  lemma LaunchStays()
    ensures Placed(Launched)
  {
  }

  /** Whatever the monitor may leave behind, some run leaves behind. */
  lemma LeftIsReachable(log: seq<Event>, confirmed: bool, deferred: bool, exit: Exit)
    requires Left(log, confirmed, deferred) && !exit.Running?
    ensures Reachable(State(Stopped, Interrupting, exit, confirmed, deferred, log))
  {
    hide Reachable;
    LaunchedIsReachable();
    var s := State(Reading, Waiting, Running, false, false, []);
    ReachableNext(Launched, s);
    if |log| >= 2 {
      var asked := s.(monitor := Confirming, log := [ConfirmStarts(Running)]);
      ReachableNext(s, asked);
      if confirmed {
        s := asked.(monitor := Stopped, confirmed := true, log := [ConfirmStarts(Running)] + [ConfirmSucceeds]);
      } else {
        s := asked.(monitor := Failed, log := [ConfirmStarts(Running)] + [ConfirmFails]);
      }
      ReachableNext(asked, s);
    }
    if deferred {
      var given := s.(monitor := Abandoning, deferred := true, log := s.log + [AbandonStarts]);
      ReachableNext(s, given);
      s := given;
    }
    assert s.log == log;
    ReachableNext(s, s.(exit := exit));
    ReachableNext(s.(exit := exit), s.(exit := exit, main := Interrupting));
    if !s.monitor.Stopped? {
      ReachableNext(s.(exit := exit, main := Interrupting), s.(exit := exit, main := Interrupting, monitor := Stopped));
    }
  }

  lemma DecidedIsReachable(log: seq<Event>, confirmed: bool, deferred: bool, exit: Exit)
    requires Decided(log, confirmed, deferred, exit) && !exit.Running?
    ensures Reachable(State(Stopped, Closing, exit, confirmed, deferred, log))
  {
    hide Reachable;
    var s := State(Stopped, Closing, exit, confirmed, deferred, log);
    if Left(log, confirmed, deferred) && (confirmed || deferred || !exit.CleanZero?) {
      LeftIsReachable(log, confirmed, deferred, exit);
      ReachableNext(s.(main := Interrupting), s);
    } else {
      var base :| Left(base, false, false)
                  && (|| (log == base && !confirmed)
                      || (log == base + [ConfirmStarts(CleanZero), ConfirmFails] && !confirmed && deferred)
                      || (log == base + [ConfirmStarts(CleanZero), ConfirmSucceeds] && confirmed && !deferred));
      LeftIsReachable(base, false, false, exit);
      var last := State(Stopped, LastReading, exit, false, false, base);
      ReachableNext(last.(main := Interrupting), last);
      if log == base && !confirmed {
        ReachableNext(last, s);
      } else {
        var asked := last.(main := LastConfirming, log := base + [ConfirmStarts(CleanZero)]);
        ReachableNext(last, asked);
        assert asked.log + [ConfirmFails] == base + [ConfirmStarts(CleanZero), ConfirmFails];
        assert asked.log + [ConfirmSucceeds] == base + [ConfirmStarts(CleanZero), ConfirmSucceeds];
        ReachableNext(asked, s);
      }
    }
  }

  lemma SettledIsReachable(s: State)
    requires s.monitor.Stopped? && s.main.Releasing? && !s.exit.Running? && Settled(s, s.log)
    ensures Reachable(s)
  {
    hide Reachable, Decided;
    if s.confirmed {
      DecidedIsReachable(s.log, true, s.deferred, s.exit);
      ReachableNext(s.(main := Closing), s);
    } else {
      var before, kept: bool :|
        Decided(before, false, kept, s.exit) && s.log == before + [AbandonStarts] && (kept ==> s.deferred);
      DecidedIsReachable(before, false, kept, s.exit);
      var closing := State(Stopped, Closing, s.exit, false, kept, before);
      var given := closing.(main := LastAbandoning, log := s.log);
      ReachableNext(closing, given);
      ReachableNext(given, s);
    }
  }

  /** Main result. These are exactly the ways a start may end: what the monitor left behind, then the
    * last attempt behind a clean exit, then one abandon on closing and one on the release, unless it
    * was confirmed. It is reported as failed only for an error of a read, a confirmation or an abandon. */
  lemma EndsExactly(s: State)
    requires s.main.Finished?
    ensures Reachable(s) <==>
            && s.monitor.Stopped? && !s.exit.Running?
            && if s.confirmed then Decided(s.log, true, s.deferred, s.exit)
               else exists base :: GivenUp(base, s.deferred, s.exit) && s.log == base + [AbandonStarts]
  {
    hide Decided, GivenUp, Reachable;
    if Reachable(s) {
      var states := RunTo(s);
      RunStays(states, |states| - 1);
    }
    if s.monitor.Stopped? && !s.exit.Running? {
      if s.confirmed && Decided(s.log, true, s.deferred, s.exit) {
        SettledIsReachable(s.(main := Releasing));
        ReachableNext(s.(main := Releasing), s);
      }
      if base :| !s.confirmed && GivenUp(base, s.deferred, s.exit) && s.log == base + [AbandonStarts] {
        SettledIsReachable(s.(main := Releasing, log := base));
        ReachableNext(s.(main := Releasing, log := base), s);
      }
    }
  }

  lemma RunTo(s: State) returns (states: seq<State>)
    requires Reachable(s)
    ensures Run(states) && states[|states| - 1] == s
  {
    states :| Run(states) && states[|states| - 1] == s;
  }
}
