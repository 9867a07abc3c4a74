/** C# reference values that may be `null`. */
module Nullable {

  /** `None` stands for a C# `null` reference, `Some(v)` for a non-null one. */
  datatype Option<+T> = None | Some(value: T)

  /** C# string concatenation and `String.Format` print a `null` string as "". */
  function OrEmpty(s: Option<string>): (r: string)
    ensures s.Some? ==> r == s.value
    ensures s.None? ==> r == ""
  {
    match s
    case None => ""
    case Some(v) => v
  }
}
