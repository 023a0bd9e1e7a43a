/** The onboarding step table and the path each role walks through it. */
module OnboardingSteps {
  /** The roles a step can list (the non-empty members of `UserRole`). */
  datatype Role = SeekerRole | RecruiterRole

  datatype Step = Step(
    id: string, title: string, route: string, roles: seq<Role>,
    hidePrevious: bool, hideNext: bool)

  const STEP1 := Step("step1", "Welcome to Joblynk!", "/onboarding/personal", [SeekerRole, RecruiterRole], true, false)
  const STEP2 := Step("step2", "Choose Your Role", "/onboarding/role", [SeekerRole, RecruiterRole], true, false)
  const STEP3 := Step("step3", "Employment Status", "/onboarding/employment", [SeekerRole], false, false)
  const STEP4 := Step("step4", "Upload Your Resume", "/onboarding/resume", [SeekerRole], false, false)
  const STEP5 := Step("step5", "Which company are you recruiting for?", "/onboarding/company", [RecruiterRole], false, false)
  const STEP6 := Step("step6", "Head to Your Profile", "/onboarding/exit", [SeekerRole, RecruiterRole], false, true)

  const ONBOARDING_STEPS: seq<Step> := [STEP1, STEP2, STEP3, STEP4, STEP5, STEP6]

  /** The steps of `steps` that list `role`, in order (the table's
      `filter` on `roles.includes(role)`). */
  function Keep(steps: seq<Step>, role: Role): seq<Step>
  {
    if steps == [] then [] else (if role in steps[0].roles then [steps[0]] else []) + Keep(steps[1..], role)
  }

  /** `Keep` keeps exactly the steps that list the role. */
  lemma {:induction false} KeepMembers(steps: seq<Step>, role: Role)
    ensures |Keep(steps, role)| <= |steps|
    ensures forall s :: s in Keep(steps, role) <==> s in steps && role in s.roles
  {
    if steps != [] {
      KeepMembers(steps[1..], role);
      assert steps == [steps[0]] + steps[1..];
    }
  }

  /** The steps of the table that list `role`, in table order. */
  function StepsFor(role: Role): (r: seq<Step>)
    ensures forall i :: 0 <= i < |r| ==> r[i] in ONBOARDING_STEPS && role in r[i].roles
    ensures forall i :: 0 <= i < |ONBOARDING_STEPS| && role in ONBOARDING_STEPS[i].roles ==> ONBOARDING_STEPS[i] in r
  {
    KeepMembers(ONBOARDING_STEPS, role);
    Keep(ONBOARDING_STEPS, role)
  }

  /** The store's path: the seeker steps for `'seeker'`, the recruiter
      steps for any other role, the empty role included. */
  function PathFor(role: string): (r: seq<Step>)
    ensures role == "seeker" ==> r == StepsFor(SeekerRole)
    ensures role != "seeker" ==> r == StepsFor(RecruiterRole)
  {
    if role == "seeker" then StepsFor(SeekerRole) else StepsFor(RecruiterRole)
  }

  /** `[x]` when `x` lists `role`, nothing otherwise. */
  function Pick(x: Step, role: Role): seq<Step>
  {
    if role in x.roles then [x] else []
  }

  /** `Keep` on a step and the steps after it. */
  lemma KeepCons(x: Step, rest: seq<Step>, role: Role)
    ensures Keep([x] + rest, role) == Pick(x, role) + Keep(rest, role)
  {
    assert ([x] + rest)[1..] == rest;
  }

  /** `Keep` on six steps, one step at a time. */
  lemma KeepSix(a: Step, b: Step, c: Step, d: Step, e: Step, f: Step, role: Role)
    ensures Keep([a, b, c, d, e, f], role)
      == Pick(a, role) + (Pick(b, role) + (Pick(c, role) + (Pick(d, role) + (Pick(e, role) + Pick(f, role)))))
  {
    KeepCons(f, [], role);
    assert [f] + [] == [f];
    KeepCons(e, [f], role);
    KeepCons(d, [e, f], role);
    KeepCons(c, [d, e, f], role);
    KeepCons(b, [c, d, e, f], role);
    KeepCons(a, [b, c, d, e, f], role);
    assert [e] + [f] == [e, f];
    assert [d] + [e, f] == [d, e, f];
    assert [c] + [d, e, f] == [c, d, e, f];
    assert [b] + [c, d, e, f] == [b, c, d, e, f];
    assert [a] + [b, c, d, e, f] == [a, b, c, d, e, f];
  }

  /** The seeker path is step1, step2, step3, step4, step6. */
  lemma SeekerPath()
    ensures StepsFor(SeekerRole) == [STEP1, STEP2, STEP3, STEP4, STEP6]
  {
    KeepSix(STEP1, STEP2, STEP3, STEP4, STEP5, STEP6, SeekerRole);
  }

  /** The recruiter path is step1, step2, step5, step6. */
  lemma RecruiterPath()
    ensures StepsFor(RecruiterRole) == [STEP1, STEP2, STEP5, STEP6]
  {
    KeepSix(STEP1, STEP2, STEP3, STEP4, STEP5, STEP6, RecruiterRole);
  }

  /** Six steps, step1 to step6 in order, with distinct routes; the first
      two hide Previous and only the last hides Next. */
  lemma StepTable()
    ensures |ONBOARDING_STEPS| == 6
    ensures forall i, j :: 0 <= i < j < |ONBOARDING_STEPS| ==> ONBOARDING_STEPS[i].route != ONBOARDING_STEPS[j].route
    ensures forall i :: 0 <= i < |ONBOARDING_STEPS| ==> (ONBOARDING_STEPS[i].hidePrevious <==> i < 2)
    ensures forall i :: 0 <= i < |ONBOARDING_STEPS| ==> (ONBOARDING_STEPS[i].hideNext <==> i == 5)
  {
  }
}
