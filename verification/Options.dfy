/** Optional values, for nullable columns and absent fields. */
module Options {
  datatype Option<+T> = None | Some(value: T) {
    function GetOr(default: T): T {
      match this
      case Some(v) => v
      case None => default
    }

    /** This value when present, otherwise the other one. */
    function Or(other: Option<T>): Option<T> {
      match this
      case Some(_) => this
      case None => other
    }
  }
}
