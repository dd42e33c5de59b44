/** Optional values: JavaScript's `null`/`undefined` results and fields. */
module Wrappers {

  datatype Option<+T> = None | Some(value: T)

  function Max0(x: int): (r: int)
    ensures r >= 0 && r >= x
    ensures r == x || r == 0
  {
    if x < 0 then 0 else x
  }
}
