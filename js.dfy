/** JavaScript values as the request handlers see them.

    A field of a parsed JSON request body is either absent (`undefined`) or a
    string; `Option<string>` stands for it.  The handlers test fields with
    JavaScript truthiness and pick defaults with the `||` operator; both are
    defined here once.
 */
module Js {

  datatype Option<+T> = None | Some(value: T) {
    function GetOr(default: T): T {
      match this
      case Some(v) => v
      case None => default
    }
  }

  /** `!!v` for a value that is undefined or a string: only a non-empty string is truthy. */
  predicate Truthy(v: Option<string>) {
    v.Some? && v.value != ""
  }

  /** `v || fallback`, as in `process.env.JWT_SECRET || 'secret'`. */
  function Or(v: Option<string>, fallback: string): (r: string)
    ensures fallback != "" ==> r != ""
  {
    if v.Some? && v.value != "" then v.value else fallback
  }
}
