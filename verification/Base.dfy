/** Optional values and small arithmetic shared by every component. */
module Base {

  datatype Option<+T> = None | Some(value: T)
  {
    /** `ptr.Deref`: the pointed-to value, or the default for a nil pointer. */
    function Or(default: T): T {
      if Some? then value else default
    }
  }

  function Max(a: int, b: int): int {
    if a >= b then a else b
  }
}
