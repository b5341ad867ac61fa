/** Values as the JavaScript sources see them: a missing or null property is
    None, and a string is "truthy" only when it is present and non-empty. */
module Js {

  datatype Option<+T> = None | Some(value: T) {
    function GetOr(default: T): T {
      match this
      case Some(v) => v
      case None => default
    }
  }

  /** `if (s)` on a string-or-null value. */
  predicate Truthy(s: Option<string>) {
    s.Some? && s.value != ""
  }

  /** `s || d` on a string-or-null value. */
  function StrOr(s: Option<string>, d: string): (r: string)
    ensures Truthy(s) ==> r == s.value
    ensures !Truthy(s) ==> r == d
  {
    if Truthy(s) then s.value else d
  }

  /** `s || null`: an empty string collapses to null. */
  function OrNull(s: Option<string>): (r: Option<string>)
    ensures Truthy(r) <==> Truthy(s)
    ensures r.Some? ==> r == s
  {
    if Truthy(s) then s else None
  }

  /** An element of a `Buffer` or `Uint8Array`. */
  type Byte = b: int | 0 <= b < 256
}
