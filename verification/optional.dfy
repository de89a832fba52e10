/** An optional value: the model's stand-in for a TypeScript field that may be
    `undefined` or a reference that may be `null`. */
module Optional {

  datatype Option<+T> = None | Some(value: T) {

    /** The value when present, otherwise `fallback`; the meaning of a
        destructuring default such as `{ x = fallback } = record`. */
    function GetOr(fallback: T): T {
      match this
      case Some(v) => v
      case None => fallback
    }
  }
}
