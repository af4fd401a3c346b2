/** The optional values of the site's records: a JavaScript property that may be
    `undefined` (a dish's rating, the package `find` returns, the lightbox's
    `null` selection). */
module Optional {

  datatype Option<+T> = None | Some(value: T) {

    /** The value, or `default` when there is none (JavaScript's `x ?? d`). */
    function GetOr(default: T): T {
      match this
      case Some(v) => v
      case None => default
    }
  }
}
