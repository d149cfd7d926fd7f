/**
 Clients of the stepper that check, from the class contracts alone, the
 walkthroughs the stepper is documented with.
 */
module StepperScenarios {
  import opened Common
  import opened StepItem
  import opened StepperController

  const PlainStep: StepDescriptor :=
    StepDescriptor(None, None, None, None, None, None, None, None, None, None)

  const DisabledStep: StepDescriptor := PlainStep.(disabled := Some(true))

  function Props(items: seq<StepDescriptor>, value: int, linear: bool, rtl: bool): StepperProps {
    StepperProps(items, Some(value), linear, false, None, false, None, None,
                 AnimationUnset, true, true, rtl)
  }

  /** Five steps, value 2: Right moves the cursor to 3, Enter then commits 3. */
  method FreeFlowCommit() {
    var s := new Stepper(Props([PlainStep, PlainStep, PlainStep, PlainStep, PlainStep], 2, false, false));
    var prevented, ev := s.KeyDown(Right);
    assert prevented && ev.None? && s.focusedIdx == 3;
    prevented, ev := s.KeyDown(Enter);
    assert ev == Some(StepperChangeEvent(3)) && s.focusedIdx == 3;
  }

  /** Five steps, linear, value 0: End moves the cursor to 4, and Enter commits nothing. */
  method LinearRefusesDistantStep() {
    var s := new Stepper(Props([PlainStep, PlainStep, PlainStep, PlainStep, PlainStep], 0, true, false));
    var prevented, ev := s.KeyDown(End);
    assert s.focusedIdx == 4;
    prevented, ev := s.KeyDown(Enter);
    assert prevented && ev.None? && s.focusedIdx == 4;
    ev := s.ClickStep(1);
    assert ev == Some(StepperChangeEvent(1)) && s.focusedIdx == 1;
  }

  /** Right-to-left, three steps, value 1: Left moves forward to 2, Up moves back to 1. */
  method RightToLeftArrows() {
    var s := new Stepper(Props([PlainStep, PlainStep, PlainStep], 1, false, true));
    var prevented, ev := s.KeyDown(Left);
    assert s.focusedIdx == 2;
    prevented, ev := s.KeyDown(Up);
    assert s.focusedIdx == 1;
    prevented, ev := s.KeyDown(Other(65));
    assert !prevented && ev.None? && s.focusedIdx == 1;
  }

  /** A disabled step is traversed by the arrows but cannot be committed. */
  method DisabledStepIsTraversedNotCommitted() {
    var s := new Stepper(Props([PlainStep, PlainStep, DisabledStep, PlainStep, PlainStep], 1, false, false));
    var prevented, ev := s.KeyDown(Right);
    prevented, ev := s.KeyDown(Right);
    assert s.focusedIdx == 3;
    prevented, ev := s.KeyDown(Left);
    assert s.focusedIdx == 2;
    prevented, ev := s.KeyDown(Enter);
    assert ev.None? && s.focusedIdx == 2;
    ev := s.ClickStep(2);
    assert ev.None?;
  }

  /** No steps: nothing is rendered, and the arrows leave the cursor where it is. */
  method EmptyStepper() {
    var s := new Stepper(Props([], 0, false, false));
    assert |s.Items()| == 0;
    var prevented, ev := s.KeyDown(Down);
    assert s.focusedIdx == 0 && ev.None?;
    prevented, ev := s.KeyDown(Left);
    assert s.focusedIdx == 0;
  }
}
