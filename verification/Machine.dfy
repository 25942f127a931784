/** Fixed-width integer operations, on a 64-bit target where `usize` is `u64`. */
module Machine {

  newtype Byte = i: int | 0 <= i < 256
  type Bytes = seq<Byte>

  const WORD_MAX: nat := 0xFFFF_FFFF_FFFF_FFFF

  function Min(a: int, b: int): int {
    if a <= b then a else b
  }

  function Max(a: int, b: int): int {
    if a >= b then a else b
  }

  function SatAdd(a: nat, b: nat): nat {
    Min(a + b, WORD_MAX)
  }

  function SatSub(a: nat, b: nat): nat {
    Max(a - b, 0)
  }

  function SatMul(a: nat, b: nat): nat {
    Min(a * b, WORD_MAX)
  }
}
