/** The safety-check ticker of src/screens/AnalysisScreen.js, whose interval
    updater src/screens/Test.js repeats: every tick marks the active step's
    key as completed and moves to the next step; the tick that completes
    the last step also schedules the "complete" flag. */
module Analysis {

  /** The `key`s of `analysisSteps`, in order. */
  const StepKeys: seq<string> := ["face", "gloves", "goggles", "coat"]

  /** The keys of the first `j` steps. */
  function KeysBefore(j: nat): set<string>
    requires j <= |StepKeys|
  {
    set i | 0 <= i < j :: StepKeys[i]
  }

  /** What one tick produces: the new active step, the new completed set,
      and whether it schedules `setAnalysisComplete(true)`. */
  datatype Tick = Tick(step: int, completed: set<string>, schedulesCompletion: bool)

  /** The `setActiveStep(prev => ...)` updater together with the
      `setCompletedSteps` it triggers. The interval only starts after the
      step is set to 0, so the updater never sees a negative step (where
      `analysisSteps[prev].key` would throw). A tick never loses a
      completed key, advances exactly while steps remain (so never past
      their number), schedules completion exactly on the last step, and
      once every step is done changes nothing. */
  function Advance(step: int, completed: set<string>): (r: Tick)
    requires 0 <= step
    ensures completed <= r.completed
    ensures r.step == step + 1 <==> step < |StepKeys|
    ensures r.step == step <==> step >= |StepKeys|
    ensures step <= |StepKeys| ==> r.step <= |StepKeys|
    ensures r.schedulesCompletion <==> step == |StepKeys| - 1
    ensures r.step == step ==> r.completed == completed
  {
    if step < |StepKeys| - 1 then Tick(step + 1, completed + {StepKeys[step]}, false)
    else if step == |StepKeys| - 1 then Tick(step + 1, completed + {StepKeys[step]}, true)
    else Tick(step, completed, false)
  }

  lemma KeysBeforeNext(j: nat)
    requires j < |StepKeys|
    ensures KeysBefore(j + 1) == KeysBefore(j) + {StepKeys[j]}
  {
    assert forall k :: k in KeysBefore(j + 1) ==> k in KeysBefore(j) + {StepKeys[j]};
  }

  /** The completed set is always exactly the keys of the steps before the
      active one. */
  lemma AdvanceKeepsProgress(step: nat, completed: set<string>)
    requires step <= |StepKeys|
    requires completed == KeysBefore(step)
    ensures var r := Advance(step, completed);
      0 <= r.step <= |StepKeys| && r.completed == KeysBefore(r.step)
  {
    if step < |StepKeys| {
      KeysBeforeNext(step);
    }
  }

  /** `n` ticks from the given state. */
  function Run(n: nat, step: nat, completed: set<string>): Tick
  {
    if n == 0 then Tick(step, completed, false)
    else
      var r := Advance(step, completed);
      Run(n - 1, r.step, r.completed)
  }

  /** After `n` ticks from the mounted state, the active step is `n` capped
      at the number of steps, and exactly the keys of the steps before it
      are completed. */
  lemma {:induction false} RunFromStart(n: nat, step: nat)
    requires step <= |StepKeys|
    ensures var r := Run(n, step, KeysBefore(step));
      var last := if step + n < |StepKeys| then step + n else |StepKeys|;
      r.step == last && r.completed == KeysBefore(last)
  {
    if n > 0 {
      AdvanceKeepsProgress(step, KeysBefore(step));
      var r := Advance(step, KeysBefore(step));
      RunFromStart(n - 1, r.step);
    }
  }

  /** Four ticks after mounting, all four safety checks are completed. */
  lemma AllChecksAfterFourTicks(n: nat)
    requires n >= |StepKeys|
    ensures Run(n, 0, {}).completed == {"face", "gloves", "goggles", "coat"}
    ensures Run(n, 0, {}).step == |StepKeys|
  {
    assert KeysBefore(0) == {};
    RunFromStart(n, 0);
    var all := KeysBefore(|StepKeys|);
    assert StepKeys[0] in all && StepKeys[1] in all && StepKeys[2] in all && StepKeys[3] in all;
  }

  /** The analysis screen: its three pieces of state, plus whether the
      interval runs and whether the completion timeout is pending. */
  class AnalysisScreen {
    var completedSteps: set<string>
    var activeStep: int
    var analysisComplete: bool
    var timerRunning: bool
    var completionPending: bool

    /** The step is -1 before mounting and at most the number of steps; the
        completed keys are those of the steps before it; the interval runs
        only from step 0 on; completion is scheduled or done only once every
        step is done. */
    predicate Valid()
      reads this
    {
      -1 <= activeStep <= |StepKeys| &&
      completedSteps == (if activeStep < 0 then {} else KeysBefore(activeStep)) &&
      (timerRunning ==> activeStep >= 0) &&
      (completionPending || analysisComplete ==> activeStep == |StepKeys|)
    }

    constructor ()
      ensures Valid()
      ensures completedSteps == {} && activeStep == -1 && !analysisComplete
      ensures !timerRunning && !completionPending
    {
      completedSteps := {};
      activeStep := -1;
      analysisComplete := false;
      timerRunning := false;
      completionPending := false;
    }

    /** The mount effect: step 0 and the interval started. */
    method Mount()
      requires Valid() && activeStep == -1
      modifies this
      ensures Valid()
      ensures activeStep == 0 && timerRunning
      ensures completedSteps == old(completedSteps) && analysisComplete == old(analysisComplete)
      ensures completionPending == old(completionPending)
    {
      assert KeysBefore(0) == {};
      activeStep := 0;
      timerRunning := true;
    }

    /** One interval tick. */
    method IntervalTick()
      requires Valid() && timerRunning
      modifies this
      ensures Valid() && timerRunning
      ensures var r := Advance(old(activeStep), old(completedSteps));
        activeStep == r.step && completedSteps == r.completed &&
        completionPending == (old(completionPending) || r.schedulesCompletion)
      ensures old(activeStep) <= activeStep && old(completedSteps) <= completedSteps
      ensures analysisComplete == old(analysisComplete)
    {
      AdvanceKeepsProgress(activeStep, completedSteps);
      var r := Advance(activeStep, completedSteps);
      activeStep := r.step;
      completedSteps := r.completed;
      if r.schedulesCompletion {
        completionPending := true;
      }
    }

    /** The one-second timeout fires. */
    method CompletionTimeout()
      requires Valid() && completionPending
      modifies this
      ensures Valid() && analysisComplete && !completionPending
      ensures activeStep == old(activeStep) && completedSteps == old(completedSteps)
      ensures timerRunning == old(timerRunning)
    {
      analysisComplete := true;
      completionPending := false;
    }

    /** The effect's cleanup clears the interval. */
    method Unmount()
      requires Valid()
      modifies this
      ensures Valid() && !timerRunning
      ensures activeStep == old(activeStep) && completedSteps == old(completedSteps)
      ensures analysisComplete == old(analysisComplete) && completionPending == old(completionPending)
    {
      timerRunning := false;
    }
  }
}
