/**
 The stepper controller (src/stepper/Stepper.tsx). It owns the keyboard
 cursor `focusedIdx`, reads but never writes the committed `value`, turns
 keys into cursor moves and commit requests, decides in one gate whether a
 commit request becomes a change event, and derives the props of every step.
 */
module StepperController {
  import opened Common
  import opened StepItem

  /**
   One caller-supplied step. Every key is optional; a key that is present
   overrides what the stepper computes for the step.
   */
  datatype StepDescriptor = StepDescriptor(
    index: Option<int>,
    current: Option<bool>,
    disabled: Option<bool>,
    focused: Option<bool>,
    icon: Option<string>,
    labelText: Option<string>,
    text: Option<string>,
    isValid: Option<bool>,
    optional: Option<bool>,
    tabIndex: Option<int>)

  /**
   The stepper's props for one render. `value` is `None` when not given;
   `hasItem`, `hasOnChange` and `hasOnFocus` say whether the custom renderer
   and the callbacks are present; `rtl` is the resolved text direction.
   */
  datatype StepperProps = StepperProps(
    items: seq<StepDescriptor>,
    value: Option<int>,
    linear: bool,
    disabled: bool,
    mode: Option<DisplayMode>,
    hasItem: bool,
    successIcon: Option<string>,
    errorIcon: Option<string>,
    animationDuration: AnimationSetting,
    hasOnChange: bool,
    hasOnFocus: bool,
    rtl: bool)

  datatype StepperChangeEvent = StepperChangeEvent(value: int)
  datatype StepperFocusEvent = StepperFocusEvent

  /**
   The eight keys the stepper handles, and every other key by its code;
   `Other` stands only for codes that are none of the eight.
   */
  datatype Key = Left | Right | Up | Down | Home | End | Space | Enter | Other(keyCode: int)

  /** The committed value: the `value` prop, where a falsy one (0 or not given) is 0. */
  function CommittedValue(raw: Option<int>): (v: int)
    ensures raw.None? ==> v == 0
    ensures raw.Some? ==> v == raw.value
  {
    if raw.Some? && raw.value != 0 then raw.value else 0
  }

  predicate IsArrow(key: Key) {
    key.Left? || key.Right? || key.Up? || key.Down?
  }

  /**
   The direction an arrow key moves the cursor: Left and Right swap under
   right-to-left text, Up and Down do not.
   */
  function ArrowDelta(key: Key, rtl: bool): (d: int)
    requires IsArrow(key)
    ensures d == 1 || d == -1
  {
    match key
    case Left => if rtl then 1 else -1
    case Right => if rtl then -1 else 1
    case Up => -1
    case Down => 1
  }

  /** A step of `d` from `cur` stays on the list's side of the edge it moves towards. */
  predicate CanMove(cur: int, d: int, maxNav: int) {
    if d < 0 then cur > 0 else cur < maxNav
  }

  /**
   The cursor after one key, for a list whose last index is `maxNav`.
   An arrow moves one step in its direction unless the cursor is at the edge
   it moves towards; Home and End jump to the ends; every other key keeps
   the cursor. A cursor in range stays in range.
   */
  function NextFocus(key: Key, cur: int, maxNav: int, rtl: bool): (n: int)
    ensures IsArrow(key) ==>
              n == (if CanMove(cur, ArrowDelta(key, rtl), maxNav) then cur + ArrowDelta(key, rtl) else cur)
    ensures key.Home? ==> n == 0
    ensures key.End? ==> n == maxNav
    ensures key.Space? || key.Enter? || key.Other? ==> n == cur
    ensures 0 <= cur <= maxNav ==> 0 <= n <= maxNav
  {
    match key
    case Left =>
      if !rtl && cur > 0 then cur - 1 else if rtl && cur < maxNav then cur + 1 else cur
    case Right =>
      if !rtl && cur < maxNav then cur + 1 else if rtl && cur > 0 then cur - 1 else cur
    case Up =>
      if cur > 0 then cur - 1 else cur
    case Down =>
      if cur < maxNav then cur + 1 else cur
    case Home => 0
    case End => maxNav
    case Space => cur
    case Enter => cur
    case Other(_) => cur
  }

  /**
   Right-to-left text swaps what Left and Right do and leaves Up and Down
   alone: Left moves back and Right forward in left-to-right text, the
   other way round in right-to-left text.
   */
  lemma RtlSwapsOnlyLeftAndRight(cur: int, maxNav: int)
    ensures NextFocus(Left, cur, maxNav, true) == NextFocus(Right, cur, maxNav, false)
    ensures NextFocus(Right, cur, maxNav, true) == NextFocus(Left, cur, maxNav, false)
    ensures NextFocus(Up, cur, maxNav, true) == NextFocus(Up, cur, maxNav, false)
    ensures NextFocus(Down, cur, maxNav, true) == NextFocus(Down, cur, maxNav, false)
    ensures 0 < cur ==> NextFocus(Left, cur, maxNav, false) == cur - 1 && NextFocus(Up, cur, maxNav, true) == cur - 1
    ensures cur < maxNav ==> NextFocus(Left, cur, maxNav, true) == cur + 1 && NextFocus(Down, cur, maxNav, false) == cur + 1
  {
  }

  /** The cursor after a sequence of keys, each handled to completion before the next. */
  function Navigate(keys: seq<Key>, cur: int, maxNav: int, rtl: bool): int
    decreases |keys|
  {
    if |keys| == 0 then cur else Navigate(keys[1..], NextFocus(keys[0], cur, maxNav, rtl), maxNav, rtl)
  }

  /** Navigating across any sequence of keys keeps a cursor that starts in range in range. */
  lemma {:induction false} NavigateStaysInRange(keys: seq<Key>, cur: int, maxNav: int, rtl: bool)
    requires 0 <= cur <= maxNav
    ensures 0 <= Navigate(keys, cur, maxNav, rtl) <= maxNav
    decreases |keys|
  {
    if |keys| > 0 {
      NavigateStaysInRange(keys[1..], NextFocus(keys[0], cur, maxNav, rtl), maxNav, rtl);
    }
  }

  /**
   The committed value is not clamped, so the cursor may start out of
   range; once Home or End has been pressed on a non-empty list, it is in
   range for good.
   */
  lemma {:induction false} HomeOrEndBringsCursorInRange(keys: seq<Key>, cur: int, maxNav: int, rtl: bool)
    requires 0 <= maxNav
    requires exists j :: 0 <= j < |keys| && (keys[j].Home? || keys[j].End?)
    ensures 0 <= Navigate(keys, cur, maxNav, rtl) <= maxNav
    decreases |keys|
  {
    var next := NextFocus(keys[0], cur, maxNav, rtl);
    if keys[0].Home? || keys[0].End? {
      NavigateStaysInRange(keys[1..], next, maxNav, rtl);
    } else {
      var j :| 0 <= j < |keys| && (keys[j].Home? || keys[j].End?);
      assert keys[1..][j - 1] == keys[j];
      HomeOrEndBringsCursorInRange(keys[1..], next, maxNav, rtl);
    }
  }

  /**
   The props the stepper hands to step `index`: the index itself, disabled
   when the stepper or the descriptor says so, focused when it is the
   cursor, current when it is the committed value — and then every key the
   descriptor holds replaces the computed one, because the descriptor is
   spread last.
   */
  function DeriveStepProps(element: StepDescriptor, index: int, stepperDisabled: bool, focusedIdx: int, value: int): (p: StepProps)
    ensures element.index.None? ==> p.index == index
    ensures element.focused.None? ==> (p.focused <==> index == focusedIdx)
    ensures element.current.None? ==> (p.current <==> index == value)
    ensures element.disabled.None? ==> p.disabled == stepperDisabled
    ensures element.index.Some? ==> p.index == element.index.value
    ensures element.focused.Some? ==> p.focused == element.focused.value
    ensures element.current.Some? ==> p.current == element.current.value
    ensures element.disabled.Some? ==> p.disabled == element.disabled.value
    ensures p.tabIndex == element.tabIndex.GetOr(0) && p.optional == IsTrue(element.optional)
    ensures p.icon == element.icon && p.labelText == element.labelText
    ensures p.text == element.text && p.isValid == element.isValid
  {
    var computedDisabled := stepperDisabled || IsTrue(element.disabled);
    StepProps(
      index := Override(element.index, index),
      current := Override(element.current, index == value),
      disabled := Override(element.disabled, computedDisabled),
      focused := Override(element.focused, index == focusedIdx),
      icon := element.icon,
      labelText := element.labelText,
      text := element.text,
      isValid := element.isValid,
      optional := IsTrue(element.optional),
      tabIndex := element.tabIndex.GetOr(0))
  }

  /** The props of every step, one per descriptor, in order. */
  function DeriveAll(items: seq<StepDescriptor>, stepperDisabled: bool, focusedIdx: int, value: int): (ps: seq<StepProps>)
    ensures |ps| == |items|
    ensures forall i :: 0 <= i < |items| ==> ps[i] == DeriveStepProps(items[i], i, stepperDisabled, focusedIdx, value)
  {
    seq(|items|, i requires 0 <= i < |items| => DeriveStepProps(items[i], i, stepperDisabled, focusedIdx, value))
  }

  /**
   The only override with an effect on safety: a descriptor that says
   `disabled: false` makes its step look enabled even on a disabled stepper,
   so the step itself emits clicks and focus. (The stepper's own gate still
   drops them; see `Stepper.ClickStep` and `Stepper.FocusStep`.)
   */
  lemma DescriptorEnablesStepOfDisabledStepper(element: StepDescriptor, index: int, focusedIdx: int, value: int, ctx: Context)
    requires element.disabled == Some(false)
    ensures !DeriveStepProps(element, index, true, focusedIdx, value).disabled
    ensures ctx.hasOnChange ==> HandleClick(DeriveStepProps(element, index, true, focusedIdx, value), ctx).Some?
    ensures AllowClick(Override(element.index, index), ctx) ==>
              AriaDisabled(DeriveStepProps(element, index, true, focusedIdx, value), ctx).None?
  {
  }

  /** No descriptor decides focus or tab order itself. */
  predicate LeavesTabOrderToStepper(items: seq<StepDescriptor>) {
    forall i :: 0 <= i < |items| ==> items[i].focused.None? && items[i].tabIndex.GetOr(0) == 0
  }

  /** The steps reachable with the Tab key: those whose tab index is 0. */
  function Tabbable(ps: seq<StepProps>): set<int> {
    set i | 0 <= i < |ps| && TabIndex(ps[i]) == 0
  }

  /**
   The roving tab index: when no descriptor overrides it, exactly the step
   under the cursor is tabbable and every other step has tab index -1; a
   cursor out of range leaves no step tabbable.
   */
  lemma RovingTabIndex(items: seq<StepDescriptor>, stepperDisabled: bool, focusedIdx: int, value: int)
    requires LeavesTabOrderToStepper(items)
    ensures var ps := DeriveAll(items, stepperDisabled, focusedIdx, value);
            Tabbable(ps) == if 0 <= focusedIdx < |items| then {focusedIdx} else {}
    ensures 0 <= focusedIdx < |items| ==> |Tabbable(DeriveAll(items, stepperDisabled, focusedIdx, value))| == 1
    ensures forall i :: 0 <= i < |items| && i != focusedIdx ==>
              TabIndex(DeriveAll(items, stepperDisabled, focusedIdx, value)[i]) == -1
  {
  }

  /** No descriptor marks a step current itself. */
  predicate LeavesCurrentToStepper(items: seq<StepDescriptor>) {
    forall i :: 0 <= i < |items| ==> items[i].current.None?
  }

  /** The steps rendered with `aria-current="step"`. */
  function CurrentSteps(ps: seq<StepProps>): set<int> {
    set i | 0 <= i < |ps| && AriaCurrent(ps[i]).Some?
  }

  /**
   `aria-current` marks the committed step only; a committed value out of
   range, which is passed through unclamped, marks no step.
   */
  lemma AriaCurrentOnCommittedStepOnly(items: seq<StepDescriptor>, stepperDisabled: bool, focusedIdx: int, value: int)
    requires LeavesCurrentToStepper(items)
    ensures var ps := DeriveAll(items, stepperDisabled, focusedIdx, value);
            CurrentSteps(ps) == if 0 <= value < |items| then {value} else {}
  {
  }

  /**
   The stepper of one render pass: its props and committed value are
   read-only, the cursor `focusedIdx` is the one piece of state it owns.
   */
  class Stepper {
    const props: StepperProps
    const value: int
    var focusedIdx: int

    /** The cursor starts on the committed value, before any key is pressed. */
    constructor (p: StepperProps)
      ensures props == p && value == CommittedValue(p.value)
      ensures focusedIdx == value
    {
      props := p;
      value := CommittedValue(p.value);
      focusedIdx := CommittedValue(p.value);
    }

    function MaxNavIndex(): int {
      |props.items| - 1
    }

    predicate CursorInRange()
      reads this
    {
      0 <= focusedIdx <= MaxNavIndex()
    }

    /**
     The gate every commit request passes: a request for `val` becomes a
     change event exactly when `val` is not the committed value, the change
     callback is present, the stepper is not disabled, and the linear rule
     allows `val`.
     */
    function Emits(val: int): (r: bool)
      ensures r ==> val != value && props.hasOnChange && !props.disabled
      ensures r && props.linear ==> val == value - 1 || val == value + 1
      ensures !props.linear && val != value && props.hasOnChange && !props.disabled ==> r
      ensures props.linear && (val == value - 1 || val == value + 1) && props.hasOnChange && !props.disabled ==> r
    {
      value != val && props.hasOnChange && !props.disabled && LinearAllows(props.linear, value, val)
    }

    /** The context every step of this render reads; its callbacks are the stepper's handlers. */
    function ItemContext(): (ctx: Context)
      ensures ctx.linear == props.linear && ctx.value == value && ctx.numOfSteps == |props.items|
      ensures ctx.mode == props.mode && ctx.hasItem == props.hasItem
      ensures ctx.successIcon == props.successIcon && ctx.errorIcon == props.errorIcon
      ensures ctx.animationDuration == props.animationDuration
      ensures ctx.hasOnChange && ctx.hasOnFocus
    {
      Context(
        animationDuration := props.animationDuration,
        hasItem := props.hasItem,
        linear := props.linear,
        mode := props.mode,
        numOfSteps := |props.items|,
        value := value,
        successIcon := props.successIcon,
        errorIcon := props.errorIcon,
        hasOnChange := true,
        hasOnFocus := true)
    }

    /** The props of every step for the current cursor. */
    function Items(): (ps: seq<StepProps>)
      reads this
      ensures |ps| == |props.items|
      ensures forall i :: 0 <= i < |ps| ==> ps[i] == ItemProps(i)
    {
      DeriveAll(props.items, props.disabled, focusedIdx, value)
    }

    /** The props of step `i`: those `DeriveStepProps` gives for the current cursor and value. */
    function ItemProps(i: int): (p: StepProps)
      reads this
      requires 0 <= i < |props.items|
      ensures props.items[i].focused.None? ==> (p.focused <==> i == focusedIdx)
      ensures props.items[i].current.None? ==> (p.current <==> i == value)
      ensures props.items[i].index.None? ==> p.index == i
      ensures props.items[i].disabled.None? ==> p.disabled == props.disabled
      ensures props.items[i].disabled.Some? ==> p.disabled == props.items[i].disabled.value
      ensures props.items[i].focused.Some? ==> p.focused == props.items[i].focused.value
      ensures props.items[i].current.Some? ==> p.current == props.items[i].current.value
      ensures props.items[i].index.Some? ==> p.index == props.items[i].index.value
    {
      DeriveStepProps(props.items[i], i, props.disabled, focusedIdx, value)
    }

    /**
     Within one render the steps' click affordance and the stepper's linear
     rule agree; they can disagree only when `value` changes in between.
     */
    lemma AffordanceMatchesGate(i: int)
      ensures AllowClick(i, ItemContext()) == LinearAllows(props.linear, value, i)
      ensures i != value && props.hasOnChange && !props.disabled ==> (Emits(i) <==> AllowClick(i, ItemContext()))
    {
    }

    /**
     A commit request. It emits a change event for `val` exactly when the
     gate lets it through, and then moves the cursor to `val`; otherwise
     nothing changes.
     */
    method RequestChange(val: int) returns (ev: Option<StepperChangeEvent>)
      modifies this
      ensures ev == (if Emits(val) then Some(StepperChangeEvent(val)) else None)
      ensures focusedIdx == (if Emits(val) then val else old(focusedIdx))
    {
      var prevIdx := val == value - 1;
      var currIdx := val == value;
      var nextIdx := val == value + 1;
      var allowClick := !props.linear || (prevIdx || currIdx || nextIdx);
      if value != val && props.hasOnChange && !props.disabled && allowClick {
        ev := Some(StepperChangeEvent(val));
        focusedIdx := val;
      } else {
        ev := None;
      }
    }

    /** A step's change request, passed on to the gate. */
    method HandleChange(e: StepChangeEvent) returns (ev: Option<StepperChangeEvent>)
      modifies this
      ensures ev == (if Emits(e.value) then Some(StepperChangeEvent(e.value)) else None)
      ensures focusedIdx == (if Emits(e.value) then e.value else old(focusedIdx))
    {
      ev := RequestChange(e.value);
    }

    /** Commits the step under the cursor; the cursor does not move either way. */
    method HandleEnter() returns (ev: Option<StepperChangeEvent>)
      modifies this
      ensures ev == (if Emits(old(focusedIdx)) then Some(StepperChangeEvent(old(focusedIdx))) else None)
      ensures focusedIdx == old(focusedIdx)
    {
      ev := RequestChange(focusedIdx);
    }

    /** A step's focus notification is passed on unless the stepper is disabled; the cursor does not move. */
    method HandleFocus(e: StepFocusEvent) returns (ev: Option<StepperFocusEvent>)
      ensures ev.Some? <==> props.hasOnFocus && !props.disabled
    {
      if props.hasOnFocus && !props.disabled {
        ev := Some(StepperFocusEvent);
      } else {
        ev := None;
      }
    }

    /**
     One key press. The eight handled keys suppress the default action and no
     other key does. For every key the new cursor is `NextFocus` of the old
     one, and a cursor in range stays in range. Space and Enter commit the
     step under the cursor as `RequestChange` would, unless that step's own
     descriptor says it is disabled; no other key emits. Moving ignores both
     the stepper's and the steps' `disabled`.
     */
    method KeyDown(key: Key) returns (prevented: bool, ev: Option<StepperChangeEvent>)
      requires key.Space? || key.Enter? ==> 0 <= focusedIdx < |props.items|
      modifies this
      ensures prevented <==> !key.Other?
      ensures focusedIdx == NextFocus(key, old(focusedIdx), MaxNavIndex(), props.rtl)
      ensures old(CursorInRange()) ==> CursorInRange()
      ensures key.Space? || key.Enter? ==>
                ev == (if !IsTrue(props.items[old(focusedIdx)].disabled) && Emits(old(focusedIdx))
                       then Some(StepperChangeEvent(old(focusedIdx))) else None)
      ensures !(key.Space? || key.Enter?) ==> ev.None?
    {
      var isRtl := props.rtl;
      var currIndex := focusedIdx;
      var maxNavIndex := |props.items| - 1;
      prevented, ev := false, None;
      match key
      case Left =>
        prevented := true;
        if !isRtl && currIndex > 0 {
          focusedIdx := currIndex - 1;
        }
        if isRtl && currIndex < maxNavIndex {
          focusedIdx := currIndex + 1;
        }
      case Right =>
        prevented := true;
        if !isRtl && currIndex < maxNavIndex {
          focusedIdx := currIndex + 1;
        }
        if isRtl && currIndex > 0 {
          focusedIdx := currIndex - 1;
        }
      case Up =>
        prevented := true;
        if !isRtl && currIndex > 0 {
          focusedIdx := currIndex - 1;
        }
        if isRtl && currIndex > 0 {
          focusedIdx := currIndex - 1;
        }
      case Down =>
        prevented := true;
        if !isRtl && currIndex < maxNavIndex {
          focusedIdx := currIndex + 1;
        }
        if isRtl && currIndex < maxNavIndex {
          focusedIdx := currIndex + 1;
        }
      case Home =>
        prevented := true;
        focusedIdx := 0;
      case End =>
        prevented := true;
        focusedIdx := maxNavIndex;
      case Space =>
        prevented := true;
        if !IsTrue(props.items[currIndex].disabled) {
          ev := HandleEnter();
        }
      case Enter =>
        prevented := true;
        if !IsTrue(props.items[currIndex].disabled) {
          ev := HandleEnter();
        }
      case Other(_) =>
    }

    /**
     A click on step `i`, from the step through the stepper's change
     handler: it emits exactly when the step is not disabled and the gate
     lets the step's index through. A disabled stepper never emits, even for
     a step whose descriptor re-enables it.
     */
    method ClickStep(i: int) returns (ev: Option<StepperChangeEvent>)
      requires 0 <= i < |props.items|
      modifies this
      ensures var p := DeriveStepProps(props.items[i], i, props.disabled, old(focusedIdx), value);
              ev == (if !p.disabled && Emits(p.index) then Some(StepperChangeEvent(p.index)) else None) &&
              focusedIdx == (if ev.Some? then p.index else old(focusedIdx))
      ensures props.disabled ==> ev.None? && focusedIdx == old(focusedIdx)
    {
      var stepEv := StepItem.HandleClick(ItemProps(i), ItemContext());
      if stepEv.Some? {
        ev := HandleChange(stepEv.value);
      } else {
        ev := None;
      }
    }

    /**
     Step `i` receiving focus, from the step through the stepper's focus
     handler: reported exactly when neither the step nor the stepper is
     disabled and the focus callback is present.
     */
    method FocusStep(i: int) returns (ev: Option<StepperFocusEvent>)
      requires 0 <= i < |props.items|
      ensures ev.Some? <==> !ItemProps(i).disabled && props.hasOnFocus && !props.disabled
      ensures props.disabled ==> ev.None?
    {
      var stepEv := StepItem.HandleFocus(ItemProps(i), ItemContext());
      if stepEv.Some? {
        ev := HandleFocus(stepEv.value);
      } else {
        ev := None;
      }
    }
  }
}
