/**
 Values shared by the step item and the stepper controller: optional props,
 the JavaScript truthiness the components test them with, the adjacency rule
 of linear mode, and the animation-duration setting.
 */
module Common {

  /** An optional prop: `None` is a prop that is not given (`undefined`). */
  datatype Option<+T> = None | Some(value: T) {

    /** The prop's value, or `default` when it is not given. */
    function GetOr(default: T): T {
      match this
      case Some(v) => v
      case None => default
    }
  }

  /** An optional string prop is truthy when it is given and not empty. */
  predicate Truthy(s: Option<string>) {
    s.Some? && s.value != ""
  }

  /** An optional boolean prop is truthy only when it is given as `true`. */
  predicate IsTrue(b: Option<bool>) {
    b == Some(true)
  }

  /**
   Spreading a step descriptor over computed props: a key the descriptor
   holds replaces the computed value, a missing key keeps it.
   */
  function Override<T>(fromDescriptor: Option<T>, computed: T): (r: T)
    ensures fromDescriptor.Some? ==> r == fromDescriptor.value
    ensures fromDescriptor.None? ==> r == computed
  {
    fromDescriptor.GetOr(computed)
  }

  /**
   The adjacency rule of linear mode: with `linear` set, only the committed
   step and its two neighbours are reachable from `value`.
   */
  function LinearAllows(linear: bool, value: int, candidate: int): (r: bool)
    ensures !linear ==> r
    ensures linear ==> (r <==> candidate == value - 1 || candidate == value || candidate == value + 1)
  {
    var prevIdx := candidate == value - 1;
    var currIdx := candidate == value;
    var nextIdx := candidate == value + 1;
    !linear || (prevIdx || currIdx || nextIdx)
  }

  /** In linear mode a candidate is allowed exactly when it is at distance at most one. */
  lemma LinearAllowsIsDistance(linear: bool, value: int, candidate: int)
    ensures LinearAllows(linear, value, candidate) <==>
            (!linear || (value - 1 <= candidate <= value + 1))
  {
  }

  /** The `animationDuration` prop: not given, a boolean, or a number of milliseconds. */
  datatype AnimationSetting = AnimationUnset | AnimationFlag(enabled: bool) | AnimationMillis(ms: int)

  /**
   The transition duration a setting stands for. The library's default and
   "no animation" durations are parameters: `defaultMs` and `noneMs`.
   */
  function AnimationDuration(setting: AnimationSetting, defaultMs: int, noneMs: int): (ms: int)
    ensures setting.AnimationMillis? ==> ms == setting.ms
    ensures setting == AnimationFlag(false) ==> ms == noneMs
    ensures setting == AnimationUnset || setting == AnimationFlag(true) ==> ms == defaultMs
  {
    match setting
    case AnimationMillis(n) => n
    case AnimationFlag(enabled) => if enabled then defaultMs else noneMs
    case AnimationUnset => defaultMs
  }
}
