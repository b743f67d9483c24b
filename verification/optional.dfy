/** Optional values: the model of a TypeScript property that may be `undefined`. */
module Optional {

  /** `None` is an absent (undefined) property, `Some(v)` a present one. */
  datatype Option<+T> = None | Some(value: T) {

    /** The value, or `default` when absent: JavaScript's `{ x = default } = obj`
        destructuring, which substitutes the default only for `undefined`. */
    function GetOr(default: T): T {
      match this
      case Some(v) => v
      case None => default
    }
  }
}
