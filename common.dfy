/**
 * Values shared by every part of the plugin model: an Option type, the
 * values a WordPress option entry or request parameter can hold, and PHP's
 * notion of an "empty" value.
 */
module Common {

  datatype Option<+T> = None | Some(value: T)

  /** A scalar as PHP holds it in an option array; `Dec1` is a number with one
      decimal place, in tenths (what `round($x, 1)` yields). */
  datatype Value = Null | Str(s: string) | Int(i: int) | Dec1(tenths: int)

  /** An option array such as `gmbc_reviews` or `gmbc_locations`. */
  type Settings = map<string, Value>

  /** PHP's `empty()` on a string: both "" and "0" are empty. */
  predicate EmptyString(s: string)
  {
    s == "" || s == "0"
  }

  /** PHP's `empty()` on a scalar. */
  predicate EmptyValue(v: Value)
  {
    match v
    case Null => true
    case Str(s) => EmptyString(s)
    case Int(i) => i == 0
    case Dec1(t) => t == 0
  }

  /** `$option[$key]` where `$option` is what `get_option` returned (None for
      `false`): a missing key or a missing option reads as null. */
  function Lookup(option: Option<Settings>, key: string): Value
  {
    if option.Some? && key in option.value then option.value[key] else Null
  }

  /** `isset($option[$key])`. */
  predicate IsSet(option: Option<Settings>, key: string)
  {
    Lookup(option, key) != Null
  }
}
