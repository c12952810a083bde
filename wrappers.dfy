/** Small value wrappers shared by every module of the model. */
module Wrappers {

  /** A value that may be missing, as `T | null` or `T | undefined` in the source. */
  datatype Option<+T> = None | Some(value: T)
  {
    /** The value, or `d` when it is missing (`x ?? d`). */
    function GetOr(d: T): T
    {
      if Some? then value else d
    }
  }

  /** A field that distinguishes `undefined` (key absent) from an explicit `null`,
      as an optional-and-nullable field does. */
  datatype Nullable<+T> = Undefined | Null | Value(value: T)
}
