/** The optional value used wherever the source has `undefined`, `null` or an
    absent query parameter. */
module Base {

  datatype Option<+T> = None | Some(value: T) {

    /** The wrapped value, or `default` when there is none. */
    function GetOr(default: T): (r: T)
      ensures Some? ==> r == value
      ensures None? ==> r == default
    {
      match this
      case Some(v) => v
      case None => default
    }
  }

  /** A query parameter or body field that is present and not the empty string,
      which is what a JavaScript truthiness test on a string accepts. */
  predicate Present(s: Option<string>) {
    s.Some? && s.value != ""
  }
}
