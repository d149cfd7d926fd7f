# Stepper: navigation, commit gate and per-step attributes

A Dafny model of the KendoReact-style Stepper. The stepper is a list of steps, like a wizard. The user moves a keyboard
cursor over the steps and commits a step with a click, Enter or Space. The model covers two source files:

- `src/stepper/Stepper.tsx` becomes the `StepperController` module (`stepper.dfy`). Its class `Stepper` owns the
  cursor `focusedIdx`, the one piece of state the component updates. The props and the committed `value` are
  read-only `const` fields, so the model cannot write `value`, just as the component never does.
  - `KeyDown` follows the source's `switch` on the key.
  - `RequestChange` is the single commit gate (`dispatchChangeEvent`). It returns the change event it emits, or
    `None`.
  - `NextFocus` is the cursor-move function that `KeyDown` is proved against. `Navigate` folds it over a sequence of
    keys.
  - `DeriveStepProps` is the per-step prop derivation in `items.map`, including the rule that the descriptor is
    spread last.
- `src/stepper/Step.tsx` becomes the `StepItem` module (`step.dfy`). Every output of a step is a pure function of its
  props and the shared context: the click affordance, the state classes, `pointerEvents`, the validation glyph, the
  indicator and label composition, the roving tab index, the three ARIA attributes, and whether a click or a focus
  emits.
- `common.dfy` (module `Common`) holds the shared vocabulary:
  - optional props;
  - JavaScript truthiness: a string is truthy when set and non-empty, a boolean when set to `true`;
  - the descriptor override, used by the stepper's prop derivation;
  - the linear adjacency rule, which the step's click affordance and the stepper's commit gate both apply;
  - the animation-duration mapping that both source files compute. Its result only feeds styles that are not part of
    this model, so no other member uses it.
- `scenarios.dfy` holds client methods. Using only the class contracts, they prove five walkthroughs: free flow;
  linear mode refusing a distant step; right-to-left arrows; a disabled step that can be traversed but not committed;
  and an empty stepper.

Inputs the component gets from outside are parameters of the model:
- the text direction (`rtl`, which the source resolves with `useRtl`);
- whether the callbacks and the custom item renderer are present;
- the localized "optional" message;
- the library's default and "no animation" durations.

## Model

| member | source | states |
|---|---|---|
| `Common.Override` | src/stepper/Stepper.tsx:259-266 | a key present in the descriptor replaces the computed prop; a missing key keeps it |
| `Common.LinearAllows` | src/stepper/Stepper.tsx:93-96 | outside linear mode every candidate is allowed; in linear mode exactly the committed value and its two neighbours are |
| `Common.LinearAllowsIsDistance` | src/stepper/Stepper.tsx:93-96 | the linear rule allows exactly the candidates within distance one of the committed value, and everything when not linear |
| `Common.AnimationDuration` | src/stepper/Stepper.tsx:85-89 | a numeric setting is used as is, `false` gives the no-animation duration, an unset or `true` setting gives the default |
| `StepItem.AllowClick` | src/stepper/Step.tsx:69 | every step is clickable outside linear mode; in linear mode exactly the committed step and its two neighbours are |
| `StepItem.IsInLabel` | src/stepper/Step.tsx:70 | in labels mode the glyph belongs in the label; otherwise it does iff both `icon` and `label` are truthy |
| `StepItem.ItemClasses` | src/stepper/Step.tsx:112-129 | error and success are never both set; first iff index 0; last iff `numOfSteps` is nonzero and index is `numOfSteps-1`; done iff index < value; error iff `isValid` is false; success iff it is true |
| `StepItem.PointerEvents` | src/stepper/Step.tsx:135 | `pointerEvents` is `none` exactly when the step is not clickable, and unset otherwise |
| `StepItem.ValidationIconClasses` | src/stepper/Step.tsx:141-145 | a valid step gets the success icon, or `k-icon k-i-check` when none is given; any other step gets the error icon, or `k-icon k-i-warning` |
| `StepItem.StepIndicator` | src/stepper/Step.tsx:154-172 | no indicator exactly in labels mode; the indicator holds the validation glyph iff `isValid` is given and the glyph is not in the label; otherwise the icon when it is truthy, else `text` or `index+1` |
| `StepItem.StepLabel` | src/stepper/Step.tsx:174-180 | the label text when truthy, the validation glyph iff it belongs in the label and `isValid` is given, and the "optional" marker iff the step is optional |
| `StepItem.DefaultContent` | src/stepper/Step.tsx:154-187 | no indicator in labels mode; when `isValid` is given, the glyph appears exactly once, in the label iff `isInLabel`, and never when it is not given; without icon and validity the indicator shows `text` or `index+1` |
| `StepItem.TabIndex` | src/stepper/Step.tsx:201 | a nonzero `tabIndex` prop wins; otherwise 0 for the focused step and -1 for the others, so the default 0 means unset |
| `StepItem.AriaCurrent` | src/stepper/Step.tsx:202 | `aria-current` is `step` iff the step is current, and unset otherwise |
| `StepItem.AriaDisabled` | src/stepper/Step.tsx:203 | `aria-disabled` is true iff the step is disabled or not clickable, and unset otherwise |
| `StepItem.AriaInvalid` | src/stepper/Step.tsx:204 | `aria-invalid` is true iff `isValid` is false, and unset when it is true or not given |
| `StepItem.StepAnchor` | src/stepper/Step.tsx:196-205 | the title is the label when truthy and unset otherwise; the tab index is the roving one; the three ARIA attributes are set exactly as their rules say and unset otherwise |
| `StepItem.HandleClick` | src/stepper/Step.tsx:84-96 | a click emits a change carrying the step's index iff the change callback is present and the step is not disabled |
| `StepItem.HandleFocus` | src/stepper/Step.tsx:98-110 | focus is reported iff the focus callback is present and the step is not disabled |
| `StepItem.Render` | src/stepper/Step.tsx:189-209 | one render combines classes, pointer style, the title (the label when truthy, else unset), tab index and ARIA attributes; the content is the custom children iff a custom renderer is set, and the default composition otherwise |
| `StepItem.CustomRendererKeepsContract` | src/stepper/Step.tsx:196-206 | a custom renderer changes only the content: classes, pointer style, anchor attributes and both emissions are unchanged |
| `StepItem.ClickIgnoresLinearGate` | src/stepper/Step.tsx:84-96 | a click emits independently of the linear rule and the committed value, even on a step whose pointer events are off |
| `StepItem.DefaultContextIsInert` | src/stepper/context/StepperContext.ts:25-29 | under the default context (not linear, steps mode, value 0, no callbacks) every step is clickable and nothing emits |
| `StepperController.CommittedValue` | src/stepper/Stepper.tsx:78 | the committed value is the `value` prop, with a missing (or zero) value becoming 0 |
| `StepperController.ArrowDelta` | src/stepper/Stepper.tsx:147-182 | each arrow key moves by exactly one position, in one direction |
| `StepperController.NextFocus` | src/stepper/Stepper.tsx:140-202 | an arrow moves one step in its direction unless the cursor is at the edge it moves towards; Home gives 0 and End gives `length-1` (-1 for no steps); other keys keep the cursor; a cursor in range stays in range |
| `StepperController.RtlSwapsOnlyLeftAndRight` | src/stepper/Stepper.tsx:147-182 | under right-to-left text, Left does what Right does in left-to-right text and vice versa; Up and Down are the same in both directions |
| `StepperController.NavigateStaysInRange` | src/stepper/Stepper.tsx:140-202 | over any sequence of keys, a cursor that starts in `[0, length-1]` stays there |
| `StepperController.HomeOrEndBringsCursorInRange` | src/stepper/Stepper.tsx:183-190 | from any cursor, even an unclamped out-of-range start, a key sequence containing Home or End ends in range on a non-empty list |
| `StepperController.DeriveStepProps` | src/stepper/Stepper.tsx:259-266 | step i gets index i, focused iff i is the cursor, current iff i is the value, and disabled iff the stepper is disabled; each of these the descriptor holds overrides the computed value; the other fields pass through |
| `StepperController.DeriveAll` | src/stepper/Stepper.tsx:257-273 | one derived prop set per descriptor, in order |
| `StepperController.DescriptorEnablesStepOfDisabledStepper` | src/stepper/Stepper.tsx:262-265 | a descriptor with `disabled: false` makes its step not disabled even on a disabled stepper: the step then emits clicks and drops `aria-disabled` |
| `StepperController.RovingTabIndex` | src/stepper/Stepper.tsx:257-273 | with no descriptor overriding focus or tab index, exactly the cursor's step is tabbable and all others get -1; an out-of-range cursor leaves none tabbable |
| `StepperController.AriaCurrentOnCommittedStepOnly` | src/stepper/Stepper.tsx:264 | with no descriptor overriding `current`, `aria-current` marks exactly the committed step, or no step when the value is out of range |
| `StepperController.Stepper.constructor` | src/stepper/Stepper.tsx:78-79 | the cursor starts at the committed value |
| `StepperController.Stepper.Emits` | src/stepper/Stepper.tsx:93-97 | the gate passes only when the candidate differs from the value, `onChange` is present and the stepper is not disabled; in linear mode it passes only the two neighbours, and then it passes both |
| `StepperController.Stepper.ItemContext` | src/stepper/Stepper.tsx:276-289 | the published context carries the stepper's linear flag, value, step count, mode, custom renderer, success and error icons and animation setting, and always has the change and focus handlers |
| `StepperController.Stepper.Items` | src/stepper/Stepper.tsx:257-273 | one prop set per descriptor, the i-th being the props of step i |
| `StepperController.Stepper.ItemProps` | src/stepper/Stepper.tsx:259-266 | step i has index i, is focused iff it is the cursor, current iff it is the value, and disabled iff the stepper is; for each of these keys the descriptor holds, the descriptor's value is used instead |
| `StepperController.Stepper.AffordanceMatchesGate` | src/stepper/Stepper.tsx:91-108 | within one render, the step's click affordance and the controller's linear rule agree |
| `StepperController.Stepper.RequestChange` | src/stepper/Stepper.tsx:91-108 | emits exactly one event carrying `val` iff the gate passes, and then moves the cursor to `val`; otherwise there is no event and no change |
| `StepperController.Stepper.HandleChange` | src/stepper/Stepper.tsx:110-117 | a step's change request goes through the same gate with the step's value |
| `StepperController.Stepper.HandleEnter` | src/stepper/Stepper.tsx:133-138 | commits the cursor's step through the gate; the cursor does not move |
| `StepperController.Stepper.HandleFocus` | src/stepper/Stepper.tsx:119-131 | focus is forwarded iff `onFocus` is present and the stepper is not disabled; it never touches the cursor |
| `StepperController.Stepper.KeyDown` | src/stepper/Stepper.tsx:140-202 | the eight handled keys suppress the default action and no other key does; the new cursor is `NextFocus` of the old one; Space and Enter act like `RequestChange(focusedIdx)` unless the step's own descriptor is disabled; no other key emits |
| `StepperController.Stepper.ClickStep` | src/stepper/Stepper.tsx:286-288 | a click on step i emits iff the step is not disabled and the gate passes its index; a disabled stepper never emits |
| `StepperController.Stepper.FocusStep` | src/stepper/Stepper.tsx:286-288 | focus on step i is reported iff neither the step nor the stepper is disabled and `onFocus` is present |

## Left out

- React machinery is not modelled: `forwardRef`, `useImperativeHandle`, the dependency lists of `useCallback`/`useMemo`, context providers and JSX. Each render is a fresh evaluation. Stale closures from incomplete dependency lists (the list at src/stepper/Step.tsx:95 omits `index`) are therefore not captured.
- Re-rendering with new props is not modelled. A `Stepper` object holds one set of props. Its cursor is set from `value` once, in the constructor, and is never re-synchronised; no method changes the props.
- DOM focus (`focusFirstFocusableChild`) and the element handles (`StepperHandle`, `StepHandle`) are calls on browser objects.
- The text direction is an input boolean. The source resolves it with `useRtl` from a library that is not part of this model.
- Events are returned records that hold only their `value`. `dispatchEvent`, the event's `target`, `syntheticEvent` and `nativeEvent` belong to a library that is not part of this model.
- The progress-bar sub-widget, the `tagType` switch, orientation, and the grid and size style strings are presentation only.
- Class-name joining is not modelled; the state classes are flags.
- The user's `style` prop, which can override `pointerEvents`, is not modelled. Nor is the `others` spread onto the list element.
- `Common.AnimationDuration`: the default and "no animation" durations come from a constants file that is not part of this model, so they are parameters.
- The localized "optional" marker is an opaque parameter string.
- prop-types declarations, the demo app, the unused `StepperOnNavigateEvent` class and the interface files are record shapes or UI.
- A custom `item` renderer is modelled as a component that renders the step component with the props it is given, unchanged, and passes its own content as children; the demo's `CustomStep` does this. The source renders `item || Step` (src/stepper/Stepper.tsx:267-269), so the caller's component replaces the step component. A custom component that drops or alters the props, or does not render the step component, is not captured. In that case `ClickStep`, `FocusStep` and the step attributes no longer describe what is rendered.
- Keys are constructors. `Other` stands only for key codes that are none of the eight handled keys. Mapping a raw key code to a `Key` needs the numeric codes of `Keys`, which come from a library that is not part of this model.
- `items` not given: the source crashes on a key press and renders `children`. The model always has a sequence, possibly empty.
- `StepperController.Stepper.KeyDown`: requires a cursor in range for Space and Enter, where the source crashes on `items[currIndex]`.
- JavaScript values beyond the model: a key present with the value `undefined` is treated as absent. The model also leaves out `NaN`, and truthy values that are not booleans for the boolean props.
- `StepItem.ItemClasses`: a `numOfSteps` that is not given is taken as 0. `k-step-last` treats both as falsy.
