/** The failure channel shared by the bounded contexts: the domain's error kinds,
    without their messages. */
module Results {

  datatype Error = Validation | Conflict | Forbidden | Precondition

  datatype Result<+T> = Success(value: T) | Failure(error: Error)

  datatype Option<+T> = None | Some(value: T)

  const I64_MAX: int := 0x7FFF_FFFF_FFFF_FFFF
  const I64_MIN: int := -0x8000_0000_0000_0000

  /** `i64::saturating_add` on two in-range operands. */
  function SaturatingAdd(a: int, b: int): int {
    if a + b > I64_MAX then I64_MAX else if a + b < I64_MIN then I64_MIN else a + b
  }
}
