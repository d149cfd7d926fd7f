/**
 One step of the stepper (src/stepper/Step.tsx). Every output of the
 component is a pure function of its resolved props and of the shared
 context the stepper publishes: the click affordance, the CSS state flags,
 the validation glyph, the indicator and label composition, the roving tab
 index, the three ARIA attributes, and whether a click or a focus emits.
 */
module StepItem {
  import opened Common

  datatype DisplayMode = Steps | Labels

  /**
   The shared context a step reads. `hasItem` says a custom item renderer is
   set; `hasOnChange` and `hasOnFocus` say the callbacks are present.
   A `numOfSteps` that is not given behaves like 0 in its only use, the
   `k-step-last` flag, so it is an `int` here.
   */
  datatype Context = Context(
    animationDuration: AnimationSetting,
    hasItem: bool,
    linear: bool,
    mode: Option<DisplayMode>,
    numOfSteps: int,
    value: int,
    successIcon: Option<string>,
    errorIcon: Option<string>,
    hasOnChange: bool,
    hasOnFocus: bool)

  /** The context a step sees outside any stepper: not linear, steps mode, value 0. */
  const DefaultContext: Context :=
    Context(AnimationUnset, false, false, Some(Steps), 0, 0, None, None, false, false)

  /**
   The props a step is rendered with. Booleans stand for the truthiness of
   the prop; `tabIndex` is 0 when not given (the component's default prop).
   */
  datatype StepProps = StepProps(
    index: int,
    current: bool,
    disabled: bool,
    focused: bool,
    icon: Option<string>,
    labelText: Option<string>,
    text: Option<string>,
    isValid: Option<bool>,
    optional: bool,
    tabIndex: int)

  /** The state classes of the step's list element, one flag per class. */
  datatype ClassFlags = ClassFlags(
    first: bool, last: bool, done: bool, current: bool, optional: bool,
    disabled: bool, focus: bool, error: bool, success: bool)

  /** What the indicator slot shows. */
  datatype Indicator =
    | ValidationGlyph(classes: string)
    | IconGlyph(icon: string)
    | IndicatorText(text: string)
    | Ordinal(number: int)

  /** What the label slot shows: the label text, the validation glyph, the "optional" marker. */
  datatype LabelContent = LabelContent(text: Option<string>, glyph: Option<string>, optionalMarker: Option<string>)

  /** The anchor's content: the default indicator and label, or the custom renderer's children. */
  datatype Content = StepLink(indicator: Option<Indicator>, labelSlot: LabelContent) | CustomChildren

  /** The anchor's attributes. An ARIA attribute that is not rendered is `None`. */
  datatype Anchor = Anchor(
    title: Option<string>,
    tabIndex: int,
    ariaCurrent: Option<string>,
    ariaDisabled: Option<bool>,
    ariaInvalid: Option<bool>)

  datatype StepView = StepView(classes: ClassFlags, pointerEvents: Option<string>, anchor: Anchor, content: Content)

  /** The change a click on step `value` asks for, and the focus notification. */
  datatype StepChangeEvent = StepChangeEvent(value: int)
  datatype StepFocusEvent = StepFocusEvent

  const SuccessIconDefault: string := "k-icon k-i-check"
  const ErrorIconDefault: string := "k-icon k-i-warning"

  predicate IsLabelsMode(ctx: Context) {
    ctx.mode == Some(Labels)
  }

  /**
   The click affordance: outside linear mode every step is clickable, in
   linear mode only the committed step and its neighbours are.
   */
  function AllowClick(index: int, ctx: Context): (r: bool)
    ensures !ctx.linear ==> r
    ensures ctx.linear ==> (r <==> ctx.value - 1 <= index <= ctx.value + 1)
  {
    LinearAllows(ctx.linear, ctx.value, index)
  }

  /** The validation glyph goes into the label in labels mode, or when both an icon and a label are set. */
  function IsInLabel(p: StepProps, ctx: Context): (r: bool)
    ensures IsLabelsMode(ctx) ==> r
    ensures !IsLabelsMode(ctx) ==> (r <==> Truthy(p.icon) && Truthy(p.labelText))
  {
    IsLabelsMode(ctx) || (Truthy(p.icon) && Truthy(p.labelText))
  }

  /** The state classes of the step. */
  function ItemClasses(p: StepProps, ctx: Context): (f: ClassFlags)
    ensures !(f.error && f.success)
    ensures f.first <==> p.index == 0
    ensures f.last <==> ctx.numOfSteps != 0 && p.index == ctx.numOfSteps - 1
    ensures f.done <==> p.index < ctx.value
    ensures f.error <==> p.isValid == Some(false)
    ensures f.success <==> p.isValid == Some(true)
    ensures f.current == p.current && f.optional == p.optional
    ensures f.disabled == p.disabled && f.focus == p.focused
  {
    ClassFlags(
      first := p.index == 0,
      last := ctx.numOfSteps != 0 && p.index == ctx.numOfSteps - 1,
      done := p.index < ctx.value,
      current := p.current,
      optional := p.optional,
      disabled := p.disabled,
      focus := p.focused,
      error := p.isValid.Some? && !p.isValid.value,
      success := IsTrue(p.isValid))
  }

  /** The `pointerEvents` style: `none` exactly for a step that may not be clicked. */
  function PointerEvents(p: StepProps, ctx: Context): (pe: Option<string>)
    ensures pe == Some("none") <==> !AllowClick(p.index, ctx)
    ensures pe.None? <==> AllowClick(p.index, ctx)
  {
    if !AllowClick(p.index, ctx) then Some("none") else None
  }

  /**
   The classes of the validation glyph: the success icon for a valid step,
   the error icon otherwise, each falling back to its library default.
   */
  function ValidationIconClasses(isValid: Option<bool>, ctx: Context): (cls: string)
    ensures IsTrue(isValid) && Truthy(ctx.successIcon) ==> cls == ctx.successIcon.value
    ensures IsTrue(isValid) && !Truthy(ctx.successIcon) ==> cls == SuccessIconDefault
    ensures !IsTrue(isValid) && Truthy(ctx.errorIcon) ==> cls == ctx.errorIcon.value
    ensures !IsTrue(isValid) && !Truthy(ctx.errorIcon) ==> cls == ErrorIconDefault
  {
    if IsTrue(isValid) then
      (if Truthy(ctx.successIcon) then ctx.successIcon.value else SuccessIconDefault)
    else
      (if Truthy(ctx.errorIcon) then ctx.errorIcon.value else ErrorIconDefault)
  }

  predicate HasGlyph(ind: Option<Indicator>) {
    ind.Some? && ind.value.ValidationGlyph?
  }

  /**
   The indicator slot; it is left out in labels mode. An icon is shown
   unless the validation glyph takes its place; without an icon the glyph,
   the text or the one-based ordinal is shown.
   */
  function StepIndicator(p: StepProps, ctx: Context): (ind: Option<Indicator>)
    ensures ind.None? <==> IsLabelsMode(ctx)
    ensures HasGlyph(ind) <==> !IsLabelsMode(ctx) && p.isValid.Some? && !IsInLabel(p, ctx)
    ensures HasGlyph(ind) ==> ind.value.classes == ValidationIconClasses(p.isValid, ctx)
    ensures ind.Some? && Truthy(p.icon) && !HasGlyph(ind) ==> ind.value == IconGlyph(p.icon.value)
    ensures ind.Some? && !Truthy(p.icon) && p.isValid.None? ==>
              ind.value == (if Truthy(p.text) then IndicatorText(p.text.value) else Ordinal(p.index + 1))
  {
    if IsLabelsMode(ctx) then None
    else if Truthy(p.icon) then
      (if !IsInLabel(p, ctx) && p.isValid.Some? then Some(ValidationGlyph(ValidationIconClasses(p.isValid, ctx)))
       else Some(IconGlyph(p.icon.value)))
    else if p.isValid.Some? then Some(ValidationGlyph(ValidationIconClasses(p.isValid, ctx)))
    else Some(if Truthy(p.text) then IndicatorText(p.text.value) else Ordinal(p.index + 1))
  }

  /**
   The label slot: the label text when it is truthy, the validation glyph
   when it belongs in the label and `isValid` is given, and the localized
   "optional" marker `optionalMessage` for an optional step.
   */
  function StepLabel(p: StepProps, ctx: Context, optionalMessage: string): (l: LabelContent)
    ensures l.text == (if Truthy(p.labelText) then p.labelText else None)
    ensures l.glyph.Some? <==> IsInLabel(p, ctx) && p.isValid.Some?
    ensures l.glyph.Some? ==> l.glyph.value == ValidationIconClasses(p.isValid, ctx)
    ensures l.optionalMarker == (if p.optional then Some(optionalMessage) else None)
  {
    LabelContent(
      text := if Truthy(p.labelText) then p.labelText else None,
      glyph := if IsInLabel(p, ctx) && p.isValid.Some? then Some(ValidationIconClasses(p.isValid, ctx)) else None,
      optionalMarker := if p.optional then Some(optionalMessage) else None)
  }

  /**
   The default composition of a step. The validation glyph is shown exactly
   once when `isValid` is given — in the indicator or in the label, as
   `IsInLabel` decides — and never when it is not; without an icon or a
   validity the indicator shows the text or the one-based ordinal.
   */
  function DefaultContent(p: StepProps, ctx: Context, optionalMessage: string): (c: Content)
    ensures c.StepLink?
    ensures IsLabelsMode(ctx) ==> c.indicator.None?
    ensures !IsLabelsMode(ctx) ==> c.indicator.Some?
    ensures p.isValid.Some? ==> (HasGlyph(c.indicator) <==> c.labelSlot.glyph.None?)
    ensures p.isValid.Some? ==> (c.labelSlot.glyph.Some? <==> IsInLabel(p, ctx))
    ensures p.isValid.None? ==> !HasGlyph(c.indicator) && c.labelSlot.glyph.None?
    ensures HasGlyph(c.indicator) ==> c.indicator.value.classes == ValidationIconClasses(p.isValid, ctx)
    ensures c.labelSlot.glyph.Some? ==> c.labelSlot.glyph.value == ValidationIconClasses(p.isValid, ctx)
    ensures !IsLabelsMode(ctx) && !Truthy(p.icon) && p.isValid.None? ==>
              c.indicator == Some(if Truthy(p.text) then IndicatorText(p.text.value) else Ordinal(p.index + 1))
    ensures !IsLabelsMode(ctx) && Truthy(p.icon) && !HasGlyph(c.indicator) ==> c.indicator == Some(IconGlyph(p.icon.value))
    ensures c.labelSlot.text.Some? <==> Truthy(p.labelText)
    ensures c.labelSlot.optionalMarker.Some? <==> p.optional
  {
    StepLink(StepIndicator(p, ctx), StepLabel(p, ctx, optionalMessage))
  }

  /**
   The roving tab index: an explicit nonzero `tabIndex` wins; otherwise the
   focused step is tabbable (0) and every other step is not (-1). The
   default of 0 therefore means "not given".
   */
  function TabIndex(p: StepProps): (t: int)
    ensures p.tabIndex != 0 ==> t == p.tabIndex
    ensures p.tabIndex == 0 ==> (t == 0 <==> p.focused) && (t == -1 <==> !p.focused)
  {
    if p.tabIndex != 0 then p.tabIndex else if p.focused then 0 else -1
  }

  /** `aria-current` is `step` on the current step and not rendered otherwise. */
  function AriaCurrent(p: StepProps): (a: Option<string>)
    ensures a == Some("step") <==> p.current
    ensures a.None? <==> !p.current
  {
    if p.current then Some("step") else None
  }

  /** `aria-disabled` is true for a disabled or unclickable step and not rendered otherwise. */
  function AriaDisabled(p: StepProps, ctx: Context): (a: Option<bool>)
    ensures a == Some(true) <==> p.disabled || !AllowClick(p.index, ctx)
    ensures a.None? <==> !p.disabled && AllowClick(p.index, ctx)
  {
    if p.disabled || !AllowClick(p.index, ctx) then Some(true) else None
  }

  /** `aria-invalid` is true exactly when `isValid` is given as false, and not rendered otherwise. */
  function AriaInvalid(p: StepProps): (a: Option<bool>)
    ensures a == Some(true) <==> p.isValid == Some(false)
    ensures a.None? <==> p.isValid != Some(false)
  {
    if p.isValid.Some? && !p.isValid.value then Some(true) else None
  }

  /**
   The anchor's attributes: the label as title when it is truthy, the roving
   tab index and the three ARIA attributes.
   */
  function StepAnchor(p: StepProps, ctx: Context): (a: Anchor)
    ensures a.title == (if Truthy(p.labelText) then p.labelText else None)
    ensures a.tabIndex == TabIndex(p)
    ensures a.ariaCurrent == Some("step") <==> p.current
    ensures a.ariaDisabled == Some(true) <==> p.disabled || !AllowClick(p.index, ctx)
    ensures a.ariaInvalid == Some(true) <==> p.isValid == Some(false)
    ensures a.ariaCurrent.None? <==> !p.current
    ensures a.ariaDisabled.None? <==> !p.disabled && AllowClick(p.index, ctx)
    ensures a.ariaInvalid.None? <==> p.isValid != Some(false)
  {
    Anchor(
      title := if Truthy(p.labelText) then p.labelText else None,
      tabIndex := TabIndex(p),
      ariaCurrent := AriaCurrent(p),
      ariaDisabled := AriaDisabled(p, ctx),
      ariaInvalid := AriaInvalid(p))
  }

  /**
   A click asks for a change to the step's own index when the change callback
   is present and the step is not disabled. The linear rule is not applied
   here; the stepper applies it.
   */
  function HandleClick(p: StepProps, ctx: Context): (ev: Option<StepChangeEvent>)
    ensures ev.Some? <==> ctx.hasOnChange && !p.disabled
    ensures ev.Some? ==> ev.value.value == p.index
  {
    if ctx.hasOnChange && !p.disabled then Some(StepChangeEvent(p.index)) else None
  }

  /** Receiving focus is reported when the focus callback is present and the step is not disabled. */
  function HandleFocus(p: StepProps, ctx: Context): (ev: Option<StepFocusEvent>)
    ensures ev.Some? <==> ctx.hasOnFocus && !p.disabled
  {
    if ctx.hasOnFocus && !p.disabled then Some(StepFocusEvent) else None
  }

  /** One render of a step: list classes, pointer style, anchor attributes and content. */
  function Render(p: StepProps, ctx: Context, optionalMessage: string): (v: StepView)
    ensures v.classes == ItemClasses(p, ctx)
    ensures v.pointerEvents == PointerEvents(p, ctx)
    ensures v.anchor.tabIndex == TabIndex(p)
    ensures v.anchor.ariaCurrent == AriaCurrent(p)
    ensures v.anchor.ariaDisabled == AriaDisabled(p, ctx)
    ensures v.anchor.ariaInvalid == AriaInvalid(p)
    ensures v.anchor.title == (if Truthy(p.labelText) then p.labelText else None)
    ensures ctx.hasItem <==> v.content.CustomChildren?
    ensures !ctx.hasItem ==> v.content == DefaultContent(p, ctx, optionalMessage)
  {
    StepView(
      ItemClasses(p, ctx),
      PointerEvents(p, ctx),
      StepAnchor(p, ctx),
      if !ctx.hasItem then DefaultContent(p, ctx, optionalMessage) else CustomChildren)
  }

  /**
   A custom item renderer replaces only the content: the classes, the pointer
   style, the anchor attributes and both emissions are the same as without it.
   */
  lemma CustomRendererKeepsContract(p: StepProps, ctx: Context, optionalMessage: string)
    ensures var custom := Render(p, ctx.(hasItem := true), optionalMessage);
            var plain := Render(p, ctx.(hasItem := false), optionalMessage);
            custom.classes == plain.classes && custom.pointerEvents == plain.pointerEvents &&
            custom.anchor == plain.anchor && custom.content.CustomChildren?
    ensures HandleClick(p, ctx.(hasItem := true)) == HandleClick(p, ctx.(hasItem := false))
    ensures HandleFocus(p, ctx.(hasItem := true)) == HandleFocus(p, ctx.(hasItem := false))
  {
  }

  /**
   Whether a click emits does not depend on the linear rule or the committed
   value: two contexts that differ only there give the same emission, even
   for a step whose pointer events are off.
   */
  lemma ClickIgnoresLinearGate(p: StepProps, ctx: Context, linear: bool, value: int)
    ensures HandleClick(p, ctx) == HandleClick(p, ctx.(linear := linear, value := value))
    ensures ctx.hasOnChange && !p.disabled && !AllowClick(p.index, ctx) ==>
              PointerEvents(p, ctx) == Some("none") && HandleClick(p, ctx) == Some(StepChangeEvent(p.index))
  {
  }

  /** Outside a stepper every step is clickable and neither a click nor a focus emits. */
  lemma DefaultContextIsInert(p: StepProps)
    ensures !DefaultContext.linear && DefaultContext.mode == Some(Steps) && DefaultContext.value == 0
    ensures AllowClick(p.index, DefaultContext)
    ensures PointerEvents(p, DefaultContext).None?
    ensures HandleClick(p, DefaultContext).None? && HandleFocus(p, DefaultContext).None?
    ensures !IsLabelsMode(DefaultContext)
  {
  }
}
