// The onboarding walkthrough: named sets of steps, registered by the pages that show
// them, and the reducer that starts, advances, rewinds and ends a walkthrough.

module Onboarding {
  import opened Strings

  datatype Position = Center | Left | Right | Default

  /** The display options; the `onStepChange`/`onComplete` callbacks are not part of
      this model. */
  datatype Config = Config(position: Option<Position>, showProgressBarInPopover: Option<bool>,
                           showStepPreview: Option<bool>)

  /** A registered step. Step orders are integers. */
  datatype Step = Step(setId: string, order: int, completed: bool, path: Option<string>,
                       persistKey: Option<string>, continueOnboarding: Option<bool>)

  datatype State = State(currentSet: Option<string>, currentStep: nat, steps: map<string, seq<Step>>,
                         isActive: bool, onboardingConfig: Config)

  datatype Action =
    | StartOnboarding(setId: string, config: Option<Config>)
    | ExitOnboarding
    | NextStep
    | PrevStep
    | RegisterStep(registerSet: string, registerOrder: int, stepPath: Option<string>,
                   stepKey: Option<string>, stepContinues: Option<bool>)
    | SetStepCompleted(completedSet: string, completedOrder: int, isCompleted: bool)
    | Unknown(kind: string)

  const InitialState: State := State(None, 0, map[], false, Config(Some(Default), Some(false), Some(false)))

  /** `steps.get(setId) || []`. */
  function StepsOf(steps: map<string, seq<Step>>, setId: string): seq<Step>
  {
    if setId in steps then steps[setId] else []
  }

  /** `!state.currentSet`: no set, or the empty set name, which is falsy. */
  predicate NoSet(state: State)
  {
    state.currentSet.None? || state.currentSet.value == ""
  }

  /** The step at `i` with its `completed` flag set to `c`, if there is one. */
  function MarkAt(s: seq<Step>, i: nat, c: bool): (r: seq<Step>)
    ensures |r| == |s|
  {
    if i < |s| then s[i := s[i].(completed := c)] else s
  }

  /** Position of the first step with the given order (`findIndex`). */
  function FindOrder(s: seq<Step>, order: int): (r: Option<nat>)
    ensures r.Some? ==> r.value < |s| && s[r.value].order == order &&
                        forall j :: 0 <= j < r.value ==> s[j].order != order
    ensures r.None? ==> forall j :: 0 <= j < |s| ==> s[j].order != order
  {
    if s == [] then None
    else if s[0].order == order then Some(0)
    else match FindOrder(s[1..], order)
      case None => None
      case Some(k) => Some(k + 1)
  }

  /** Insertion of `x` after every step whose order is not greater. */
  function InsertByOrder(x: Step, s: seq<Step>): (r: seq<Step>)
    ensures |r| == |s| + 1 && multiset(r) == multiset(s) + multiset{x}
  {
    if s == [] then [x]
    else if x.order - s[0].order < 0 then [x] + s
    else
      assert s == [s[0]] + s[1..];
      [s[0]] + InsertByOrder(x, s[1..])
  }

  /** `sort((a, b) => a.order - b.order)`: a stable sort by order. */
  function SortByOrder(s: seq<Step>): (r: seq<Step>)
    ensures |r| == |s| && multiset(r) == multiset(s)
  {
    if s == [] then []
    else
      var n := |s| - 1;
      assert s == s[..n] + [s[n]];
      InsertByOrder(s[n], SortByOrder(s[..n]))
  }

  /** `onboardingReducer`. */
  function Reduce(state: State, action: Action): State
  {
    match action
    case StartOnboarding(setId, config) =>
      state.(currentSet := Some(setId), currentStep := 0, isActive := true,
             onboardingConfig := if config.Some? then config.value else state.onboardingConfig)
    case ExitOnboarding =>
      state.(isActive := false, currentSet := None, currentStep := 0)
    case NextStep =>
      if NoSet(state) then state
      else
        var setId := state.currentSet.value;
        var setSteps := StepsOf(state.steps, setId);
        if state.currentStep + 1 >= |setSteps| then
          state.(isActive := false, currentSet := None, currentStep := 0)
        else
          state.(currentStep := state.currentStep + 1,
                 steps := state.steps[setId := MarkAt(setSteps, state.currentStep, true)])
    case PrevStep =>
      if NoSet(state) then state
      else if state.currentStep == 0 then state
      else
        var setId := state.currentSet.value;
        var setSteps := StepsOf(state.steps, setId);
        state.(currentStep := state.currentStep - 1,
               steps := state.steps[setId := MarkAt(setSteps, state.currentStep, false)])
    case RegisterStep(setId, order, path, persistKey, continues) =>
      var setSteps := StepsOf(state.steps, setId);
      if FindOrder(setSteps, order).None? then
        var step := Step(setId, order, false, path, persistKey, continues);
        state.(steps := state.steps[setId := SortByOrder(setSteps + [step])])
      else state
    case SetStepCompleted(setId, order, completed) =>
      var setSteps := StepsOf(state.steps, setId);
      (match FindOrder(setSteps, order)
       case Some(i) => state.(steps := state.steps[setId := setSteps[i := setSteps[i].(completed := completed)]])
       case None => state)
    case Unknown(_) => state
  }

  /** Steps in strictly increasing order, so the orders are unique. */
  predicate Ordered(s: seq<Step>)
  {
    forall i, j :: 0 <= i < j < |s| ==> s[i].order < s[j].order
  }

  /** Every set's steps are ordered. */
  predicate WellFormed(steps: map<string, seq<Step>>)
  {
    forall setId :: setId in steps ==> Ordered(steps[setId])
  }

  lemma {:induction false} InsertAtEnd(x: Step, s: seq<Step>)
    requires forall j :: 0 <= j < |s| ==> s[j].order < x.order
    ensures InsertByOrder(x, s) == s + [x]
  {
    if s != [] {
      InsertAtEnd(x, s[1..]);
      assert s == [s[0]] + s[1..];
    }
  }

  /** Sorting steps that are already in order changes nothing. */
  lemma {:induction false} SortOrdered(s: seq<Step>)
    requires Ordered(s)
    ensures SortByOrder(s) == s
  {
    if s != [] {
      var n := |s| - 1;
      assert s == s[..n] + [s[n]];
      SortOrdered(s[..n]);
      InsertAtEnd(s[n], s[..n]);
    }
  }

  /** Inserting a step with a new order keeps the list ordered. */
  lemma {:induction false} InsertOrdered(x: Step, s: seq<Step>)
    requires Ordered(s) && forall j :: 0 <= j < |s| ==> s[j].order != x.order
    ensures Ordered(InsertByOrder(x, s))
  {
    if s != [] && x.order - s[0].order >= 0 {
      var t := InsertByOrder(x, s[1..]);
      InsertOrdered(x, s[1..]);
      InsertAbove(x, s[1..], s[0].order);
      assert InsertByOrder(x, s) == [s[0]] + t;
    }
  }

  /** A bound below every step, and below the new one, stays below after the insertion. */
  lemma {:induction false} InsertAbove(x: Step, s: seq<Step>, bound: int)
    requires x.order > bound && forall j :: 0 <= j < |s| ==> s[j].order > bound
    ensures forall j :: 0 <= j < |InsertByOrder(x, s)| ==> InsertByOrder(x, s)[j].order > bound
  {
    if s != [] && x.order - s[0].order >= 0 {
      InsertAbove(x, s[1..], bound);
      assert InsertByOrder(x, s) == [s[0]] + InsertByOrder(x, s[1..]);
    }
  }

  /** A registered step lands in its order among the others: the set's list is the
      old one with the step inserted where its order puts it. */
  lemma RegisterInserts(setSteps: seq<Step>, x: Step)
    requires Ordered(setSteps) && forall j :: 0 <= j < |setSteps| ==> setSteps[j].order != x.order
    ensures SortByOrder(setSteps + [x]) == InsertByOrder(x, setSteps)
    ensures Ordered(SortByOrder(setSteps + [x]))
  {
    assert (setSteps + [x])[..|setSteps|] == setSteps;
    SortOrdered(setSteps);
    InsertOrdered(x, setSteps);
  }

  /** Changing `completed` flags keeps the orders. */
  lemma MarkKeepsOrders(s: seq<Step>, i: nat, c: bool)
    ensures forall j :: 0 <= j < |s| ==> MarkAt(s, i, c)[j].order == s[j].order
    ensures Ordered(s) ==> Ordered(MarkAt(s, i, c))
  {
  }

  lemma WellFormedUpdate(steps: map<string, seq<Step>>, setId: string, s: seq<Step>)
    requires WellFormed(steps) && Ordered(s)
    ensures WellFormed(steps[setId := s])
  {
  }

  /** Every action keeps each set's steps in strictly increasing order. */
  lemma ReduceKeepsWellFormed(state: State, action: Action)
    requires WellFormed(state.steps)
    ensures WellFormed(Reduce(state, action).steps)
  {
    match action
    case RegisterStep(setId, order, path, persistKey, continues) =>
      var setSteps := StepsOf(state.steps, setId);
      if FindOrder(setSteps, order).None? {
        var x := Step(setId, order, false, path, persistKey, continues);
        RegisterInserts(setSteps, x);
        WellFormedUpdate(state.steps, setId, SortByOrder(setSteps + [x]));
      }
    case SetStepCompleted(setId, order, completed) =>
      var setSteps := StepsOf(state.steps, setId);
      if FindOrder(setSteps, order).Some? {
        var i := FindOrder(setSteps, order).value;
        MarkKeepsOrders(setSteps, i, completed);
        assert setSteps[i := setSteps[i].(completed := completed)] == MarkAt(setSteps, i, completed);
        WellFormedUpdate(state.steps, setId, MarkAt(setSteps, i, completed));
      }
    case NextStep =>
      if !NoSet(state) {
        var setSteps := StepsOf(state.steps, state.currentSet.value);
        MarkKeepsOrders(setSteps, state.currentStep, true);
        WellFormedUpdate(state.steps, state.currentSet.value, MarkAt(setSteps, state.currentStep, true));
      }
    case PrevStep =>
      if !NoSet(state) {
        var setSteps := StepsOf(state.steps, state.currentSet.value);
        MarkKeepsOrders(setSteps, state.currentStep, false);
        WellFormedUpdate(state.steps, state.currentSet.value, MarkAt(setSteps, state.currentStep, false));
      }
    case _ =>
  }

  /** START begins the set at its first step, active, keeping the previous options when
      none are given; EXIT ends the walkthrough and keeps the registered steps. */
  lemma StartAndExit(state: State, setId: string, config: Option<Config>)
    ensures var r := Reduce(state, StartOnboarding(setId, config));
            r.currentSet == Some(setId) && r.currentStep == 0 && r.isActive && r.steps == state.steps &&
            (config.None? ==> r.onboardingConfig == state.onboardingConfig)
    ensures var r := Reduce(state, ExitOnboarding);
            r.currentSet.None? && r.currentStep == 0 && !r.isActive && r.steps == state.steps &&
            r.onboardingConfig == state.onboardingConfig
  {
  }

  /** NEXT: without a set nothing happens; at the last step the walkthrough ends;
      otherwise the step advances, stays within the set, and the step left behind is
      marked completed, nothing else in the set changing. */
  lemma NextStepCases(state: State)
    ensures NoSet(state) ==> Reduce(state, NextStep) == state
    ensures !NoSet(state) && state.currentStep + 1 >= |StepsOf(state.steps, state.currentSet.value)| ==>
            Reduce(state, NextStep) == Reduce(state, ExitOnboarding)
    ensures !NoSet(state) && state.currentStep + 1 < |StepsOf(state.steps, state.currentSet.value)| ==>
            var s := StepsOf(state.steps, state.currentSet.value);
            var r := Reduce(state, NextStep);
            r.currentStep == state.currentStep + 1 && r.currentStep < |s| && r.isActive == state.isActive &&
            state.currentSet.value in r.steps && |r.steps[state.currentSet.value]| == |s| &&
            r.steps[state.currentSet.value][state.currentStep].completed &&
            (forall j :: 0 <= j < |s| && j != state.currentStep ==> r.steps[state.currentSet.value][j] == s[j]) &&
            (forall other :: other != state.currentSet.value ==>
               (other in r.steps <==> other in state.steps) &&
               (other in state.steps ==> r.steps[other] == state.steps[other]))
  {
  }

  /** PREV: at step 0 (or without a set) the state is returned as it is; otherwise the
      step goes back by one and the step left is marked not completed. */
  lemma PrevStepCases(state: State)
    ensures NoSet(state) || state.currentStep == 0 ==> Reduce(state, PrevStep) == state
    ensures !NoSet(state) && state.currentStep > 0 ==>
            var s := StepsOf(state.steps, state.currentSet.value);
            var r := Reduce(state, PrevStep);
            r.currentStep == state.currentStep - 1 && r.isActive == state.isActive &&
            state.currentSet.value in r.steps && |r.steps[state.currentSet.value]| == |s| &&
            (state.currentStep < |s| ==> !r.steps[state.currentSet.value][state.currentStep].completed) &&
            (forall j :: 0 <= j < |s| && j != state.currentStep ==> r.steps[state.currentSet.value][j] == s[j])
  {
  }

  /** PREV after NEXT returns to the same step with the same steps, when the step left
      was already completed and the one after it was not. */
  lemma PrevUndoesNext(state: State)
    requires !NoSet(state) && state.currentStep + 1 < |StepsOf(state.steps, state.currentSet.value)|
    requires StepsOf(state.steps, state.currentSet.value)[state.currentStep].completed
    requires !StepsOf(state.steps, state.currentSet.value)[state.currentStep + 1].completed
    ensures Reduce(Reduce(state, NextStep), PrevStep) == state
  {
    var setId := state.currentSet.value;
    var s := state.steps[setId];
    var c := state.currentStep;
    assert MarkAt(s, c, true) == s;
    assert MarkAt(s, c + 1, false) == s;
    assert state.steps[setId := s][setId := s] == state.steps;
  }

  /** REGISTER adds a step only when its order is new to the set; it then holds the
      old steps plus the new one, uncompleted; a known order leaves the state as it is. */
  lemma RegisterCases(state: State, setId: string, order: int, path: Option<string>,
                      persistKey: Option<string>, continues: Option<bool>)
    requires WellFormed(state.steps)
    ensures var s := StepsOf(state.steps, setId);
            var r := Reduce(state, RegisterStep(setId, order, path, persistKey, continues));
            (FindOrder(s, order).Some? ==> r == state) &&
            (FindOrder(s, order).None? ==>
               setId in r.steps && Ordered(r.steps[setId]) &&
               multiset(r.steps[setId]) == multiset(s) + multiset{Step(setId, order, false, path, persistKey, continues)} &&
               (forall other :: other != setId && other in state.steps ==> other in r.steps && r.steps[other] == state.steps[other]))
  {
    var s := StepsOf(state.steps, setId);
    var x := Step(setId, order, false, path, persistKey, continues);
    var r := Reduce(state, RegisterStep(setId, order, path, persistKey, continues));
    if FindOrder(s, order).None? {
      assert r.steps == state.steps[setId := SortByOrder(s + [x])];
      RegisterStored(state.steps, setId, s, x);
    }
  }

  /** Storing the sorted list with the new step: ordered, the old steps plus the new one, other sets kept. */
  lemma RegisterStored(steps: map<string, seq<Step>>, setId: string, s: seq<Step>, x: Step)
    requires s == StepsOf(steps, setId) && WellFormed(steps)
    requires forall j :: 0 <= j < |s| ==> s[j].order != x.order
    ensures var m := steps[setId := SortByOrder(s + [x])];
            setId in m && Ordered(m[setId]) && multiset(m[setId]) == multiset(s) + multiset{x} &&
            forall other :: other != setId && other in steps ==> other in m && m[other] == steps[other]
  {
    assert Ordered(s);
    RegisterInserts(s, x);
    assert multiset(s + [x]) == multiset(s) + multiset{x};
  }

  /** SET_STEP_COMPLETED changes only the `completed` flag of the first step with the
      order; an unknown order leaves the state as it is. */
  lemma SetCompletedCases(state: State, setId: string, order: int, completed: bool)
    ensures var s := StepsOf(state.steps, setId);
            var r := Reduce(state, SetStepCompleted(setId, order, completed));
            (FindOrder(s, order).None? ==> r == state) &&
            (FindOrder(s, order).Some? ==>
               var i := FindOrder(s, order).value;
               setId in r.steps && |r.steps[setId]| == |s| &&
               r.steps[setId][i] == s[i].(completed := completed) &&
               (forall j :: 0 <= j < |s| && s[j].order != order ==> r.steps[setId][j] == s[j]))
  {
  }
}
