/** What decides how a download ends: the channel doneCh or the timer, whichever the main goroutine saw. */
module Outcomes {
  import opened Bytes
  import opened Layout
  import opened Engine
  import opened EngineCount
  import opened EngineRuns

  ghost predicate Took(c: Config, s: State, step: Step, s': State) {
    Typed(c, s) && Enabled(c, s, step) && s' == Apply(c, s, step)
  }

  /** steps are the steps that the run took. */
  ghost predicate StepsOf(c: Config, run: seq<State>, steps: seq<Step>) {
    |run| == |steps| + 1 && forall i :: 0 <= i < |steps| ==> Took(c, run[i], steps[i], run[i + 1])
  }

  lemma {:induction false} RunHasSteps(c: Config, run: seq<State>) returns (steps: seq<Step>)
    requires IsRun(c, run)
    ensures StepsOf(c, run, steps)
  {
    hide Init, Typed, Enabled, Apply;
    steps := [];
    while |steps| < |run| - 1
      invariant |steps| <= |run| - 1
      invariant forall i :: 0 <= i < |steps| ==> Took(c, run[i], steps[i], run[i + 1])
    {
      var i := |steps|;
      assert Next(c, run[i], run[i + 1]);
      var step :| Enabled(c, run[i], step) && run[i + 1] == Apply(c, run[i], step);
      assert Took(c, run[i], step, run[i + 1]);
      steps := steps + [step];
    }
  }

  predicate SawDone(steps: seq<Step>, i: nat)
    requires i <= |steps|
  {
    exists j :: 0 <= j < i && steps[j].SeeDone?
  }

  predicate TimedOut(steps: seq<Step>, i: nat)
    requires i <= |steps|
  {
    exists j :: 0 <= j < i && steps[j].TimeOut?
  }

  predicate HasJoined(steps: seq<Step>, i: nat)
    requires i <= |steps|
  {
    exists j :: 0 <= j < i && steps[j].Join?
  }

  /** Where the main goroutine stands, read off the steps taken so far. */
  ghost predicate Tells(steps: seq<Step>, i: nat, main: Main)
    requires i <= |steps|
  {
    && (main.Waiting? <==> !SawDone(steps, i) && !TimedOut(steps, i))
    && (main == Joining(false) || main == Returned(Success) <==> SawDone(steps, i))
    && (main == Joining(true) || main == Returned(FailTimeout) <==> TimedOut(steps, i))
    && (main.Returned? <==> HasJoined(steps, i))
  }

  lemma OneMoreStep(steps: seq<Step>, i: nat)
    requires i < |steps|
    ensures SawDone(steps, i + 1) <==> SawDone(steps, i) || steps[i].SeeDone?
    ensures TimedOut(steps, i + 1) <==> TimedOut(steps, i) || steps[i].TimeOut?
    ensures HasJoined(steps, i + 1) <==> HasJoined(steps, i) || steps[i].Join?
  {
  }

  /** What one step does to the main goroutine. */
  lemma MainAfter(c: Config, s: State, step: Step, s': State)
    requires Took(c, s, step, s') && MainSound(s)
    ensures step.SeeDone? || step.TimeOut? ==> s.main.Waiting?
    ensures step.Join? ==> s.main.Joining?
    ensures s'.main == if step.SeeDone? then Joining(false)
                       else if step.TimeOut? then Joining(true)
                       else if step.Join? then Returned(if s.main == Joining(true) then FailTimeout else Success)
                       else s.main
  {
    hide WorkerEnabled, WorkerAfter, PiecesAfter, BusAfter, SwarmAfter, WorkerTyped, BusTyped;
  }

  lemma TellsAfter(c: Config, s: State, steps: seq<Step>, i: nat, s': State)
    requires i < |steps| && Took(c, s, steps[i], s') && MainSound(s) && Tells(steps, i, s.main)
    ensures Tells(steps, i + 1, s'.main)
  {
    hide Took, MainSound, SawDone, TimedOut, HasJoined;
    MainAfter(c, s, steps[i], s');
    OneMoreStep(steps, i);
  }

  /** Along every run: the download waits until it sees doneCh closed or the timer fires, whichever comes first decides,
      and it returns success or the timeout failure accordingly. */
  lemma {:induction false} OutcomeIsDecided(c: Config, run: seq<State>, steps: seq<Step>, i: nat)
    requires IsRun(c, run) && StepsOf(c, run, steps) && i < |run|
    ensures Tells(steps, i, run[i].main)
  {
    hide Took, Init, Next, Inv, Tells;
    if i == 0 {
      NothingTold(c, run[0], steps);
    } else {
      OutcomeIsDecided(c, run, steps, i - 1);
      RunInv(c, run, i - 1);
      MainOf(c, run[i - 1]);
      assert Took(c, run[i - 1], steps[i - 1], run[i]);
      TellsAfter(c, run[i - 1], steps, i - 1, run[i]);
    }
  }

  lemma NothingTold(c: Config, s: State, steps: seq<Step>)
    requires Init(c, s)
    ensures Tells(steps, 0, s.main)
  {
  }

  lemma MainOf(c: Config, s: State)
    requires Inv(c, s)
    ensures MainSound(s)
  {
  }

  /** The timeout failure means that the timer fired while the main goroutine was waiting, and success that it never did. */
  lemma TimerDecides(c: Config, run: seq<State>, steps: seq<Step>, i: nat)
    requires IsRun(c, run) && StepsOf(c, run, steps) && i < |run| && run[i].main.Returned?
    ensures run[i].main == Returned(FailTimeout)
            <==> exists j :: 0 <= j < i && steps[j].TimeOut? && run[j].main.Waiting? && !run[j + 1].main.Waiting?
    ensures run[i].main == Returned(Success)
            <==> exists j :: 0 <= j < i && steps[j].SeeDone? && run[j].main.Waiting? && run[j].doneClosed
    ensures run[i].main == Returned(Success) <==> forall j :: 0 <= j < i ==> !steps[j].TimeOut?
  {
    hide Init, Next, Typed, Inv;
    OutcomeIsDecided(c, run, steps, i);
    forall j | 0 <= j < i && steps[j].TimeOut? ensures run[j].main.Waiting? && !run[j + 1].main.Waiting? {
      assert Took(c, run[j], steps[j], run[j + 1]);
    }
    forall j | 0 <= j < i && steps[j].SeeDone? ensures run[j].main.Waiting? && run[j].doneClosed {
      assert Took(c, run[j], steps[j], run[j + 1]);
    }
    if j :| 0 <= j < i && steps[j].TimeOut? {
      assert steps[j].TimeOut? && run[j].main.Waiting? && !run[j + 1].main.Waiting?;
    }
  }
}
