/** Optional values, for the places where the gateway either throws (and a
    caller catches) or yields JavaScript `null`; and integer min and max. */
module Wrappers {

  datatype Option<+T> = None | Some(value: T)

  function Min(a: int, b: int): int { if a <= b then a else b }

  function Max(a: int, b: int): int { if a >= b then a else b }
}
