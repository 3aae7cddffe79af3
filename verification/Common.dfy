/** What several modules share: optional values, results, and the limits of machine integers. */
module Common {

  datatype Option<+T> = None | Some(value: T)

  datatype Result<+T, +E> = Ok(value: T) | Err(error: E)

  const U64_MAX: nat := 0xFFFF_FFFF_FFFF_FFFF
  const U32_MAX: nat := 0xFFFF_FFFF

  function Min(a: nat, b: nat): nat { if a <= b then a else b }

  /** What a saturating u64 counter shows of `n`. */
  function Capped(n: nat): nat { Min(n, U64_MAX) }

  function SaturatingAdd(a: nat, b: nat): nat { Capped(a + b) }

  function SaturatingMul(a: nat, b: nat): nat { Capped(a * b) }

  /** A limit of zero counts as one. */
  function AtLeastOne(n: nat): nat { if n == 0 then 1 else n }
}
