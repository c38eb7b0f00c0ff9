/** Optional values and bounds, shared by all modules. */
module Basics {

  datatype Option<+T> = None | Some(value: T)

  function Min(x: real, y: real): real { if x < y then x else y }

  function Max(x: real, y: real): real { if x < y then y else x }

  function Clamp01(x: real): real
  {
    Max(0.0, Min(1.0, x))
  }

  predicate StartsWith(s: string, prefix: string)
  {
    |prefix| <= |s| && s[..|prefix|] == prefix
  }
}
