/**
 * The auction tutorial pager (src/components/Modals/AuctionTutorialModal.tsx):
 * five slides, a Next button that closes the modal on the last slide, a
 * Previous button disabled on the first, and an X button that closes it
 * from anywhere. Closing is reported to the caller (`onClose`), which is
 * `AuctionPage.CloseTutorial`.
 */
module Tutorial {
  import Optional

  /** `tutorialSteps.length`. */
  const StepCount := 5

  /** The slide titles, in order. */
  const StepTitles: seq<string> := [
    "Welcome to Talent Auction",
    "Stage 1: Salary Bidding",
    "Stage 2: Equity Offering",
    "Stage 3: Benefits Package",
    "Stage 4: Position Level"
  ]

  /** What Next does from `step`: the following slide, or None when it
      calls `onClose` instead. */
  function NextStep(step: int): (r: Optional.Option<int>)
    ensures r.None? <==> step >= StepCount - 1
    ensures r.Some? ==> r.value == step + 1
  {
    if step < StepCount - 1 then Optional.Some(step + 1) else Optional.None
  }

  /** What Previous does from `step`. */
  function PreviousStep(step: int): (r: int)
    ensures step > 0 ==> r == step - 1
    ensures step <= 0 ==> r == step
  {
    if step > 0 then step - 1 else step
  }

  /** Previous undoes Next on every slide but the last, and Next undoes
      Previous on every slide but the first. */
  lemma NextThenPrevious(step: int)
    requires 0 <= step < StepCount
    ensures step < StepCount - 1 ==> PreviousStep(NextStep(step).value) == step
    ensures step > 0 ==> NextStep(PreviousStep(step)) == Optional.Some(step)
  {
  }

  /** The slide reached by pressing Next `k` times from `step` without the
      modal closing. */
  function NextTimes(step: int, k: nat): Optional.Option<int>
    decreases k
  {
    if k == 0 then Optional.Some(step)
    else match NextStep(step)
      case None => Optional.None
      case Some(s) => NextTimes(s, k - 1)
  }

  /** From the first slide, the user walks through slides 1 to 4 with four
      presses of Next, and the fifth press closes the modal. */
  lemma {:induction false} NextWalksThrough(step: int, k: nat)
    requires 0 <= step < StepCount
    ensures NextTimes(step, k) == if step + k < StepCount then Optional.Some(step + k) else Optional.None
    decreases k
  {
    if k > 0 && step < StepCount - 1 {
      NextWalksThrough(step + 1, k - 1);
    }
  }

  class TutorialModal {
    var currentStep: int

    ghost predicate Valid()
      reads this
    {
      0 <= currentStep < StepCount
    }

    constructor ()
      ensures Valid() && currentStep == 0
    {
      currentStep := 0;
    }

    /** The slide on screen. */
    function Title(): string
      requires Valid()
      reads this
    {
      StepTitles[currentStep]
    }

    /** `handleNext`: returns whether `onClose` was called. */
    method HandleNext() returns (closed: bool)
      requires Valid()
      modifies this
      ensures Valid()
      ensures closed <==> NextStep(old(currentStep)).None?
      ensures closed ==> currentStep == old(currentStep) == StepCount - 1
      ensures !closed ==> Optional.Some(currentStep) == NextStep(old(currentStep))
    {
      if currentStep < StepCount - 1 {
        currentStep := currentStep + 1;
        closed := false;
      } else {
        closed := true;
      }
    }

    /** `handlePrevious`; the button is disabled on the first slide, where
        the handler does nothing anyway. */
    method HandlePrevious()
      requires Valid()
      modifies this
      ensures Valid()
      ensures currentStep == PreviousStep(old(currentStep))
    {
      if currentStep > 0 {
        currentStep := currentStep - 1;
      }
    }

    /** The X button: calls `onClose` from any slide and moves nothing. */
    method CloseButton() returns (closed: bool)
      requires Valid()
      ensures closed
    {
      closed := true;
    }
  }
}
