/** A value that may be missing: Python's `None`, an absent JSON field, a
    dictionary lookup that finds nothing, or a call that raised. */
module Optional {

  datatype Option<T> = None | Some(value: T) {

    /** What `d.get(k, fallback)` yields: the value when there is one. */
    function GetOr(fallback: T): T
    {
      if Some? then value else fallback
    }

    /** Zero or one element, for appending an optional message to a list. */
    function ToSeq(): (s: seq<T>)
      ensures |s| <= 1
      ensures Some? <==> |s| == 1
      ensures Some? ==> s[0] == value
    {
      if Some? then [value] else []
    }
  }
}
