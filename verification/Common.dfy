/** Shared vocabulary: optional values and small numeric helpers. */
module Common {

  datatype Option<+T> = None | Some(value: T)

  function Max(x: real, y: real): real {
    if x >= y then x else y
  }

  function Min(x: real, y: real): real {
    if x <= y then x else y
  }

  function Abs(x: real): real {
    if x >= 0.0 then x else -x
  }

  function MaxInt(x: int, y: int): int {
    if x >= y then x else y
  }

  function Clamp(value: real, low: real, high: real): real {
    Max(low, Min(high, value))
  }
}
