/** What several modules use. */
module Basics {
  datatype Option<+T> = None | Some(value: T)

  function Pow2(i: nat): (r: nat)
    ensures r > 0
  {
    if i == 0 then 1 else 2 * Pow2(i - 1)
  }
}
