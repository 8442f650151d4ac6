/** JavaScript values as the request handlers see them.

  A request field is modelled as `undefined` or a string, an
  `Option<string>`: `None` is `undefined` (and `null` where `??` treats the
  two alike), `Some(s)` is the string `s`. The body parsers can also give
  arrays and objects (`express.urlencoded({ extended: true })` reads
  `a[]=x` and `a[b]=x`) and, for JSON bodies, numbers and `null`; those
  values are outside this model. */
module Js {

  datatype Option<+T> = None | Some(value: T) {

    /** `v ?? d`: the value when there is one, otherwise the default. */
    function GetOr(default: T): T
    {
      match this
      case Some(v) => v
      case None => default
    }
  }

  /** JavaScript truthiness of a request field: `undefined` and `''` are falsy. */
  predicate Truthy(v: Option<string>)
  {
    v.Some? && v.value != ""
  }

  /** `v || d` on a request field. */
  function Or(v: Option<string>, d: string): (r: string)
    ensures Truthy(v) ==> r == v.value
    ensures !Truthy(v) ==> r == d
    ensures d != "" ==> r != ""
  {
    if Truthy(v) then v.value else d
  }
}
