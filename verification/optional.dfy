/** An optional value: the model of a JavaScript property that may be
    `undefined` or `null`. */
module Optional {

  datatype Option<+T> = None | Some(value: T) {

    /** The carried value, or `default` when there is none (the `x || d` idiom
        for values that are never falsy when present). */
    function GetOr(default: T): T
    {
      match this
      case Some(v) => v
      case None => default
    }
  }
}
