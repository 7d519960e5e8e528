/** The four-step tutorial of components/Tutorial.tsx: a step counter that
    the arrows move and clamp, and what the buttons do on each step. */
module Tutorial {
  /** The number of steps in `TUTORIAL_STEPS` (Tutorial.tsx:8-29) and the last one. */
  const StepCount: nat := 4
  const LastStep: nat := StepCount - 1

  /** `Math.min(prev + 1, TUTORIAL_STEPS.length - 1)` (Tutorial.tsx:34). */
  function Next(step: nat): (r: nat)
    ensures r <= LastStep || r == step
    ensures step < LastStep ==> r == step + 1
    ensures step >= LastStep ==> r == LastStep
  {
    if step + 1 < LastStep then step + 1 else LastStep
  }

  /** `Math.max(prev - 1, 0)` (Tutorial.tsx:35). */
  function Prev(step: nat): (r: nat)
    ensures step > 0 ==> r == step - 1
    ensures step == 0 ==> r == 0
  {
    if step >= 1 then step - 1 else 0
  }

  /** Back undoes forward, and forward undoes back, away from the ends. */
  lemma NextPrevInverse(step: nat)
    ensures step < LastStep ==> Prev(Next(step)) == step
    ensures 0 < step <= LastStep ==> Next(Prev(step)) == step
    ensures Next(LastStep) == LastStep && Prev(0) == 0
  {
  }

  /** A click on one of the arrows. */
  datatype Command = Forward | Back

  /** The step after a sequence of clicks. */
  function Run(step: nat, clicks: seq<Command>): nat
    decreases |clicks|
  {
    if clicks == [] then step
    else
      var after := if clicks[0] == Forward then Next(step) else Prev(step);
      Run(after, clicks[1..])
  }

  /** The step stays within the four steps whatever the clicks (Tutorial.tsx:32-35). */
  lemma {:induction false} RunInRange(step: nat, clicks: seq<Command>)
    requires step <= LastStep
    decreases |clicks|
    ensures Run(step, clicks) <= LastStep
  {
    if clicks != [] {
      var after := if clicks[0] == Forward then Next(step) else Prev(step);
      RunInRange(after, clicks[1..]);
    }
  }

  /** `k` forward clicks reach step `min(step + k, 3)`. */
  lemma {:induction false} ForwardClicks(step: nat, k: nat)
    requires step <= LastStep
    decreases k
    ensures Run(step, seq(k, _ => Forward)) == if step + k <= LastStep then step + k else LastStep
  {
    if k > 0 {
      var clicks := seq(k, _ => Forward);
      assert clicks[1..] == seq(k - 1, _ => Forward);
      ForwardClicks(Next(step), k - 1);
    }
  }

  /** What the main button does (Tutorial.tsx:83). */
  datatype MainAction = Close | Advance

  class Stepper {
    var step: nat

    predicate Valid()
      reads this
    {
      step <= LastStep
    }

    /** `useState(0)` (Tutorial.tsx:32). */
    constructor ()
      ensures Valid() && step == 0
    {
      step := 0;
    }

    /** `isLastStep` (Tutorial.tsx:37). */
    function IsLastStep(): (r: bool)
      reads this
      ensures r <==> step == LastStep
    {
      step == StepCount - 1
    }

    /** On the last step the main button closes the tutorial; elsewhere it advances. */
    function MainButton(): (a: MainAction)
      reads this
      ensures a == Close <==> step == LastStep
    {
      if IsLastStep() then Close else Advance
    }

    /** The back arrow is shown past the first step (Tutorial.tsx:92). */
    function ShowsBack(): (r: bool)
      reads this
      ensures r <==> step > 0
    {
      step > 0
    }

    /** The forward arrow is shown before the last step (Tutorial.tsx:97). */
    function ShowsForward(): (r: bool)
      reads this
      ensures r <==> step != LastStep
    {
      !IsLastStep()
    }

    /** `handleNext` (Tutorial.tsx:34). */
    method HandleNext()
      requires Valid()
      modifies this
      ensures Valid() && step == Next(old(step))
    {
      step := if step + 1 < StepCount - 1 then step + 1 else StepCount - 1;
    }

    /** `handlePrev` (Tutorial.tsx:35). */
    method HandlePrev()
      requires Valid()
      modifies this
      ensures Valid() && step == Prev(old(step))
    {
      step := if step >= 1 then step - 1 else 0;
    }
  }
}
