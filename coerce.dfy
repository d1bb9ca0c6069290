/** How script.js turns the text of a form field into a number or a label:
    the `Number(x) || d` and `x || ''` idioms. */
module Coerce {

  /** A parsed field. `None` stands for a field whose text is not a number
      (`Number(x)` is NaN) or, for a label, a field that is absent. */
  datatype Option<T> = None | Some(value: T)

  /** `Number(x) || d`: a NaN or a zero is falsy, so it is replaced by the default. */
  function NumberOr(x: Option<real>, d: real): (r: real)
    ensures (x.None? || x.value == 0.0) ==> r == d
    ensures x.Some? && x.value != 0.0 ==> r == x.value
    ensures d != 0.0 ==> r != 0.0
  {
    if x.Some? && x.value != 0.0 then x.value else d
  }

  /** `s || d` on a label: an absent or empty string is replaced by the default. */
  function StringOr(x: Option<string>, d: string): (r: string)
    ensures x.None? ==> r == d
    ensures x.Some? && x.value != "" ==> r == x.value
    ensures x.Some? && x.value == "" ==> r == d
    ensures r == d || r == x.value
  {
    if x.Some? && x.value != "" then x.value else d
  }
}
