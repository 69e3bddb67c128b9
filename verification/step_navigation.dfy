/** The wizard's side menu (src/components/StepNavigationMenu.tsx): the fixed step order
    and which steps may be clicked. */
module StepNavigation {
  import opened Optional

  datatype MenuItem = MenuItem(name: string, step: string, icon: string)

  /** `MENU_STEPS`, in wizard order. */
  const MENU_STEPS: seq<MenuItem> := [
    MenuItem("Localização", "localization", "location_on"),
    MenuItem("Veículos", "cars", "directions_car"),
    MenuItem("Acessórios", "accessories", "settings"),
    MenuItem("Proteções", "protections", "beach_access"),
    MenuItem("Dados pessoais", "personal", "person"),
    MenuItem("Finalização", "finalization", "check_circle")
  ]

  /** The steps' identifiers in menu order. */
  function StepOrder(): (r: seq<string>)
    ensures r == ["localization", "cars", "accessories", "protections", "personal", "finalization"]
    ensures |r| == |MENU_STEPS|
  {
    seq(|MENU_STEPS|, i requires 0 <= i < |MENU_STEPS| => MENU_STEPS[i].step)
  }

  /** No two menu entries share a step identifier. */
  lemma StepsDistinct()
    ensures forall i, j :: 0 <= i < j < |MENU_STEPS| ==> MENU_STEPS[i].step != MENU_STEPS[j].step
  {
  }

  /** `isStepEnabled`: the current step and the ones before it. */
  predicate IsStepEnabled(index: int, currentStepIndex: int) {
    index <= currentStepIndex
  }

  /** `handleStepClick`: the step passed to `onStepChange`, or `None` when the click is
      ignored. */
  function HandleStepClick(step: string, index: int, currentStepIndex: int): (change: Option<string>)
    ensures change.Some? <==> IsStepEnabled(index, currentStepIndex)
    ensures change.Some? ==> change.value == step
  {
    if IsStepEnabled(index, currentStepIndex) then Some(step) else None
  }

  /** Clicking a menu entry only ever moves back to an earlier step or stays. */
  lemma ClickNeverSkipsAhead(index: int, currentStepIndex: int)
    requires 0 <= index < |MENU_STEPS|
    ensures HandleStepClick(MENU_STEPS[index].step, index, currentStepIndex).Some? ==> index <= currentStepIndex
    ensures index <= currentStepIndex ==> HandleStepClick(MENU_STEPS[index].step, index, currentStepIndex) == Some(MENU_STEPS[index].step)
  {
  }

  /** Advancing never disables a step that was enabled. */
  lemma EnabledMonotone(index: int, current: int, next: int)
    requires current <= next
    ensures IsStepEnabled(index, current) ==> IsStepEnabled(index, next)
  {
  }

  /** The steps enabled at a given index: a prefix of the menu. */
  function EnabledSteps(currentStepIndex: int): (r: seq<string>)
    ensures currentStepIndex < 0 ==> r == []
    ensures 0 <= currentStepIndex < |MENU_STEPS| ==> |r| == currentStepIndex + 1
    ensures currentStepIndex >= |MENU_STEPS| ==> r == StepOrder()
    ensures r <= StepOrder()
  {
    var n := if currentStepIndex < 0 then 0 else if currentStepIndex >= |MENU_STEPS| then |MENU_STEPS| else currentStepIndex + 1;
    StepOrder()[..n]
  }

  /** A menu entry is highlighted when its step is the current one. */
  predicate IsActive(index: int, currentStep: string)
    requires 0 <= index < |MENU_STEPS|
  {
    MENU_STEPS[index].step == currentStep
  }

  /** At most one entry is highlighted, and exactly one when the current step is a menu
      step. */
  lemma OneActiveStep(currentStep: string)
    ensures forall i, j :: 0 <= i < |MENU_STEPS| && 0 <= j < |MENU_STEPS| && IsActive(i, currentStep) && IsActive(j, currentStep) ==> i == j
    ensures currentStep in StepOrder() <==> exists i :: 0 <= i < |MENU_STEPS| && IsActive(i, currentStep)
  {
    StepsDistinct();
    var order := StepOrder();
    if currentStep in order {
      var i :| 0 <= i < |order| && order[i] == currentStep;
      assert IsActive(i, currentStep);
    }
    if exists i :: 0 <= i < |MENU_STEPS| && IsActive(i, currentStep) {
      var i :| 0 <= i < |MENU_STEPS| && IsActive(i, currentStep);
      assert order[i] == currentStep;
    }
  }
}
