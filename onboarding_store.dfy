/** The onboarding store: the chosen role and the position on that role's
    path, with the steps around it. */
module OnboardingStore {
  import opened Wrappers
  import opened Seqs
  import opened OnboardingSteps

  /** `path[i] || null`: the step at `i`, or nothing off either end. */
  function StepAt(path: seq<Step>, i: int): (r: Option<Step>)
    ensures r.Some? <==> 0 <= i < |path|
    ensures r.Some? ==> r.value == path[i]
  {
    if 0 <= i < |path| then Some(path[i]) else None
  }

  /** `Math.max(0, Math.min(i, n - 1))`: the nearest index of a list of
      `n` entries. */
  function Clamp(i: int, n: int): (r: int)
    requires n >= 1
    ensures 0 <= r < n
    ensures 0 <= i < n ==> r == i
    ensures i < 0 ==> r == 0
    ensures i >= n ==> r == n - 1
  {
    Max(0, Min(i, n - 1))
  }

  /** Both paths have at least four steps. */
  lemma PathLength(role: string)
    ensures |PathFor(role)| >= 4
  {
    SeekerPath();
    RecruiterPath();
  }

  /** Both paths start with step1 and step2 and end with step6. */
  lemma PathEnds(role: string)
    ensures |PathFor(role)| >= 4
    ensures PathFor(role)[0] == STEP1 && PathFor(role)[1] == STEP2
    ensures PathFor(role)[|PathFor(role)| - 1] == STEP6
  {
    var p := PathFor(role);
    if role == "seeker" {
      SeekerPath();
      assert p == [STEP1, STEP2, STEP3, STEP4, STEP6];
    } else {
      RecruiterPath();
      assert p == [STEP1, STEP2, STEP5, STEP6];
    }
  }

  /** On both paths the last step is the only one that hides Next. */
  lemma HideNextOnlyLast(role: string)
    ensures forall i :: 0 <= i < |PathFor(role)| ==> (PathFor(role)[i].hideNext <==> i == |PathFor(role)| - 1)
  {
    SeekerPath();
    RecruiterPath();
  }

  /** `index` lies on `path`, `current` is the step there and `next` and
      `previous` are the steps either side of it. */
  predicate PositionOn(path: seq<Step>, index: int, current: Step, next: Option<Step>, previous: Option<Step>)
  {
    && 0 <= index < |path|
    && current == path[index]
    && next == StepAt(path, index + 1)
    && previous == StepAt(path, index - 1)
  }

  class Store {
    var currentRole: string
    var currentStepIndex: int
    var totalSteps: int
    var currentStep: Step
    var nextStep: Option<Step>
    var previousStep: Option<Step>

    /** The index lies on the current role's path, and the three steps
        are the ones at the index and either side of it. */
    predicate Valid()
      reads this
    {
      PositionOn(PathFor(currentRole), currentStepIndex, currentStep, nextStep, previousStep)
    }

    /** The initial state is read off the whole table, yet it agrees with
        the recruiter path that the empty role selects. */
    constructor ()
      ensures currentRole == "" && currentStepIndex == 0 && totalSteps == 6
      ensures currentStep == STEP1 && nextStep == Some(STEP2) && previousStep == None
      ensures Valid()
    {
      currentRole := "";
      currentStepIndex := 0;
      totalSteps := |ONBOARDING_STEPS|;
      currentStep := ONBOARDING_STEPS[0];
      nextStep := StepAt(ONBOARDING_STEPS, 1);
      previousStep := None;
      PathEnds("");
    }

    /** Switches to the path of `role`, keeping the index when the new path
        has a step there and going back to the first step otherwise. */
    method SetRole(role: string)
      modifies this
      ensures currentRole == role
      ensures totalSteps == |PathFor(role)|
      ensures currentStepIndex == if 0 <= old(currentStepIndex) < |PathFor(role)| then old(currentStepIndex) else 0
      ensures Valid()
    {
      var roleSteps := PathFor(role);
      PathLength(role);
      var newStepIndex := if StepAt(roleSteps, currentStepIndex).Some? then currentStepIndex else 0;
      currentRole := role;
      totalSteps := |roleSteps|;
      currentStep := roleSteps[newStepIndex];
      currentStepIndex := newStepIndex;
      nextStep := StepAt(roleSteps, newStepIndex + 1);
      previousStep := StepAt(roleSteps, newStepIndex - 1);
    }

    /** Moves to `index`, clamped into the current role's path; the role
        and the step count stay as they are. */
    method SetCurrentStepIndex(index: int)
      modifies this
      ensures currentRole == old(currentRole) && totalSteps == old(totalSteps)
      ensures currentStepIndex == Clamp(index, |PathFor(currentRole)|)
      ensures Valid()
    {
      var roleSteps := PathFor(currentRole);
      PathLength(currentRole);
      var clampedIndex := Clamp(index, |roleSteps|);
      currentStepIndex := clampedIndex;
      currentStep := roleSteps[clampedIndex];
      nextStep := StepAt(roleSteps, clampedIndex + 1);
      previousStep := StepAt(roleSteps, clampedIndex - 1);
    }
  }

  /** On a valid store, Next is hidden exactly when there is no next step,
      and Previous has no step exactly at the first index. */
  lemma NextHiddenAtEnd(role: string, index: int, current: Step, next: Option<Step>, previous: Option<Step>)
    requires PositionOn(PathFor(role), index, current, next, previous)
    ensures next.None? <==> current.hideNext
    ensures previous.None? <==> index == 0
  {
    HideNextOnlyLast(role);
  }

  /** The buttons of the onboarding layout: Next asks for the index one up,
      Previous for the index one down. */
  datatype Move = Forward | Back

  /** The index after a run of moves on a path of `n` steps. */
  function Walk(index: int, moves: seq<Move>, n: int): int
    requires n >= 1
    decreases |moves|
  {
    if moves == [] then index
    else Walk(Clamp(if moves[0] == Forward then index + 1 else index - 1, n), moves[1..], n)
  }

  /** However the buttons are pressed, the index never leaves the path. */
  lemma {:induction false} WalkStaysOnPath(index: int, moves: seq<Move>, n: int)
    requires n >= 1 && 0 <= index < n
    ensures 0 <= Walk(index, moves, n) < n
    decreases |moves|
  {
    if moves != [] {
      WalkStaysOnPath(Clamp(if moves[0] == Forward then index + 1 else index - 1, n), moves[1..], n);
    }
  }

  /** `k` presses of Next. */
  function Forwards(k: nat): (r: seq<Move>)
    ensures |r| == k && forall i :: 0 <= i < k ==> r[i] == Forward
  {
    if k == 0 then [] else [Forward] + Forwards(k - 1)
  }

  /** `k` presses of Next from `index` reach `index + k`, or stop at the
      last step. */
  lemma {:induction false} ForwardsStopAtEnd(index: int, k: nat, n: int)
    requires n >= 1 && 0 <= index < n
    ensures Walk(index, Forwards(k), n) == Min(index + k, n - 1)
    decreases k
  {
    if k > 0 {
      assert Forwards(k)[1..] == Forwards(k - 1);
      ForwardsStopAtEnd(Clamp(index + 1, n), k - 1, n);
    }
  }
}
