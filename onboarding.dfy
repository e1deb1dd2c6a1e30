/** The onboarding wizard (social-versity/src/pages/Onboarding.jsx): three steps, a final
    "loading" state, and the interest picker of step 3. */
module Onboarding {
  import Lists

  const LastStep: int := 3

  /** The wizard's position: `currentStep` and `isLoading`. */
  datatype Progress = Progress(step: int, loading: bool)

  const Start: Progress := Progress(1, false)

  /** The states the wizard can be in: a step within 1..3, and loading only on the last one. */
  predicate Reachable(p: Progress) {
    1 <= p.step <= LastStep && (p.loading ==> p.step == LastStep)
  }

  /** `handleNext`: advance below the last step; on the last step start loading. */
  function Next(p: Progress): (q: Progress)
    ensures Reachable(p) ==> Reachable(q)
    ensures p.step < LastStep ==> q.step == p.step + 1 && q.loading == p.loading
    ensures p.step >= LastStep ==> q.step == p.step && q.loading
  {
    if p.step < LastStep then p.(step := p.step + 1) else p.(loading := true)
  }

  /** A press of the wizard's button, which is disabled while loading. */
  function Press(p: Progress): (q: Progress)
    ensures p.loading ==> q == p
    ensures !p.loading ==> q == Next(p)
  {
    if p.loading then p else Next(p)
  }

  /** The state after `n` presses from `p`. */
  function Presses(p: Progress, n: nat): Progress
    decreases n
  {
    if n == 0 then p else Presses(Press(p), n - 1)
  }

  /** From the start, `n` presses reach step min(n + 1, 3), and the wizard is loading exactly
      from the third press on. */
  lemma {:induction false} PressesFromStart(n: nat)
    ensures Presses(Start, n).step == if n < 2 then n + 1 else LastStep
    ensures Presses(Start, n).loading <==> n >= 3
  {
    if n >= 3 {
      LoadingIsTerminal(Progress(LastStep, true), n - 3);
      assert Presses(Start, 3) == Progress(LastStep, true);
      PressesSplit(Start, 3, n - 3);
    } else if n == 2 {
      assert Presses(Start, 2) == Progress(3, false);
    } else if n == 1 {
      assert Presses(Start, 1) == Progress(2, false);
    }
  }

  lemma {:induction false} PressesSplit(p: Progress, a: nat, b: nat)
    ensures Presses(p, a + b) == Presses(Presses(p, a), b)
    decreases a
  {
    if a > 0 {
      PressesSplit(Press(p), a - 1, b);
    }
  }

  /** Once loading, further presses change nothing. */
  lemma {:induction false} LoadingIsTerminal(p: Progress, n: nat)
    requires p.loading
    ensures Presses(p, n) == p
  {
    if n > 0 {
      LoadingIsTerminal(p, n - 1);
    }
  }

  /** The button's text. */
  function ButtonLabel(p: Progress): (caption: string)
    ensures p.loading ==> caption == "Setting up your profile..."
    ensures !p.loading && p.step == LastStep ==> caption == "Finish"
    ensures !p.loading && p.step != LastStep ==> caption == "Continue"
  {
    if p.loading then "Setting up your profile..." else if p.step == LastStep then "Finish" else "Continue"
  }

  /** The progress bar width in per cent: `((currentStep - 1) / 2) * 100`. */
  function ProgressWidth(step: int): (w: real)
    ensures step == 1 ==> w == 0.0
    ensures step == 2 ==> w == 50.0
    ensures step == 3 ==> w == 100.0
    ensures 1 <= step <= 3 ==> 0.0 <= w <= 100.0
  {
    ((step - 1) as real / 2.0) * 100.0
  }

  /** The ids of the three step indicators, in display order. */
  const StepIds: seq<int> := [1, 2, 3]

  /** Step indicator `id` is drawn in the primary colour. */
  predicate Highlighted(id: int, step: int) {
    id <= step
  }

  /** Step indicator `id` shows a check mark instead of its number. */
  predicate Completed(id: int, step: int) {
    id < step
  }

  function HighlightedAt(step: int): int -> bool {
    id => Highlighted(id, step)
  }

  function CompletedAt(step: int): int -> bool {
    id => Completed(id, step)
  }

  /** In every reachable state the highlighted indicators are the first `step` ones and the
      checked ones the first `step - 1`: the current step is the one highlighted indicator
      without a check mark. */
  lemma IndicatorsFollowStep(p: Progress)
    requires Reachable(p)
    ensures Lists.Filter(StepIds, HighlightedAt(p.step)) == StepIds[..p.step]
    ensures Lists.Filter(StepIds, CompletedAt(p.step)) == StepIds[..p.step - 1]
    ensures StepIds[p.step - 1] == p.step
  {
    assert StepIds[1..] == [2, 3] && StepIds[1..][1..] == [3] && StepIds[1..][1..][1..] == [];
  }

  class OnboardingFlow {
    var currentStep: int
    var selectedInterests: seq<string>
    var isLoading: bool

    ghost predicate Valid()
      reads this
    {
      Reachable(Progress(currentStep, isLoading)) && Lists.NoDup(selectedInterests)
    }

    constructor ()
      ensures Valid()
      ensures Progress(currentStep, isLoading) == Start && selectedInterests == []
    {
      currentStep := 1;
      selectedInterests := [];
      isLoading := false;
    }

    /** `handleNext`. The redirect it schedules on the last step is not modelled. */
    method HandleNext()
      requires Valid()
      modifies this`currentStep, this`isLoading
      ensures Valid()
      ensures Progress(currentStep, isLoading) == Next(old(Progress(currentStep, isLoading)))
    {
      if currentStep < LastStep {
        currentStep := currentStep + 1;
      } else {
        isLoading := true;
      }
    }

    /** A click on the button: `handleNext` unless the button is disabled by `isLoading`. */
    method ClickButton()
      requires Valid()
      modifies this`currentStep, this`isLoading
      ensures Valid()
      ensures Progress(currentStep, isLoading) == Press(old(Progress(currentStep, isLoading)))
    {
      if !isLoading {
        HandleNext();
      }
    }

    /** `toggleInterest(interest)`. */
    method ToggleInterest(interest: string)
      requires Valid()
      modifies this`selectedInterests
      ensures Valid()
      ensures selectedInterests == Lists.Toggle(old(selectedInterests), interest)
    {
      Lists.ToggleKeepsNoDup(selectedInterests, interest);
      if interest in selectedInterests {
        selectedInterests := Lists.RemoveAll(selectedInterests, interest);
      } else {
        selectedInterests := selectedInterests + [interest];
      }
    }
  }
}
