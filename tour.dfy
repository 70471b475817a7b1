// The guided tour hook: a step index and an active flag over a fixed list of steps.
// Scrolling the highlighted element into view is browser work and is left out; the
// model exposes which element the tour points at.

module GuidedTour {
  import opened Strings

  datatype TourStep = TourStep(targetId: string, content: string)

  class Tour {
    const steps: seq<TourStep>
    var currentStep: nat
    var isActive: bool

    /** The step index stays within the list (or at 0 for an empty list). */
    ghost predicate Valid()
      reads this
    {
      currentStep == 0 || currentStep < |steps|
    }

    constructor(steps: seq<TourStep>)
      ensures Valid() && this.steps == steps && currentStep == 0 && !isActive
    {
      this.steps := steps;
      currentStep := 0;
      isActive := false;
    }

    function TotalSteps(): (n: nat)
      reads this
      ensures n == |steps|
    {
      |steps|
    }

    method Start()
      requires Valid()
      modifies this
      ensures Valid() && isActive && currentStep == old(currentStep)
    {
      isActive := true;
    }

    method Stop()
      modifies this
      ensures Valid() && !isActive && currentStep == 0
    {
      isActive := false;
      currentStep := 0;
    }

    /** Advances while a later step exists; at the last step the tour stops. */
    method NextStep()
      requires Valid()
      modifies this
      ensures Valid()
      ensures old(currentStep) < |steps| - 1 ==> currentStep == old(currentStep) + 1 && isActive == old(isActive)
      ensures old(currentStep) >= |steps| - 1 ==> currentStep == 0 && !isActive
      ensures (currentStep, isActive) == Advance(|steps|, old(currentStep), old(isActive), 1)
    {
      if currentStep < |steps| - 1 {
        currentStep := currentStep + 1;
      } else {
        Stop();
      }
    }

    /** The element the active tour scrolls to: `steps[currentStep].targetId`. */
    function Target(): (r: Option<string>)
      reads this
      ensures r.Some? <==> isActive && currentStep < |steps|
      ensures r.Some? ==> r.value == steps[currentStep].targetId
    {
      if isActive && currentStep < |steps| then Some(steps[currentStep].targetId) else None
    }
  }

  /** The index reached after `n` calls of `nextStep` from `step`: it climbs to the last
      index and then drops to 0 with the tour stopped. */
  function Advance(len: nat, step: nat, active: bool, n: nat): (nat, bool)
    decreases n
  {
    if n == 0 then (step, active)
    else if step < len - 1 then Advance(len, step + 1, active, n - 1)
    else Advance(len, 0, false, n - 1)
  }

  /** From a started tour at step 0, `len - 1` calls reach the last step still active,
      and one more call ends the tour. */
  lemma {:induction false} WalkThrough(len: nat, step: nat)
    requires 0 < len && step < len
    ensures Advance(len, step, true, len - 1 - step) == (len - 1, true)
    ensures Advance(len, step, true, len - step) == (0, false)
    decreases len - step
  {
    if step < len - 1 {
      WalkThrough(len, step + 1);
    }
  }
}
