/** The optional-value type used for the record fields that may be absent or null. */
module Wrappers {

  /** `None` stands for a key that is missing or whose value is null: the
      processor reads every field leniently, so the two cases coincide. */
  datatype Option<+T> = None | Some(value: T) {

    /** The carried value, or `default` when there is none. */
    function GetOr(default: T): T {
      match this
      case Some(v) => v
      case None => default
    }
  }
}
