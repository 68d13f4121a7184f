/** Order operations on integers. */
module Integers {
  function Max(x: int, y: int): int {
    if x >= y then x else y
  }

  function Min(x: int, y: int): int {
    if x <= y then x else y
  }
}
