/** Optional values and request fields, shared by the whole model. */
module Wrappers {

  /** A value that may be absent (Python `None`, a missing row, a date overflow). */
  datatype Option<+T> = None | Some(value: T) {

    /** The value, or `default` when absent (Python's `dict.get(k, default)`). */
    function GetOr(default: T): T {
      match this
      case Some(v) => v
      case None => default
    }
  }

  /** One field of a JSON request body: the key is missing, its value cannot be
      converted (`float(...)` or `strptime` raises), or it converted to `value`. */
  datatype Field<+T> = Absent | Malformed | Given(value: T) {

    /** True when the key is present in the request body at all. */
    predicate Present() {
      !Absent?
    }

    /** The converted value, or `default` when the key is missing. */
    function GetOr(default: T): T
      requires !Malformed?
    {
      match this
      case Given(v) => v
      case Absent => default
    }
  }
}
