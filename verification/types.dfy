/** Fixed-width unsigned integers and the C conversions the component relies on. */
module Types {

  /** 2^32: one past the largest `uint32_t`. */
  const U32_LIMIT: int := 0x1_0000_0000
  /** 2^64: one past the largest `uint64_t`. */
  const U64_LIMIT: int := 0x1_0000_0000_0000_0000

  type u32 = x: int | 0 <= x < U32_LIMIT
  type u64 = x: int | 0 <= x < U64_LIMIT

  /** The `optional<T>` of the component's fields. */
  datatype Option<+T> = None | Some(value: T)

  /** Unsigned 64-bit arithmetic result: the mathematical value reduced modulo 2^64. */
  function WrapU64(x: nat): (r: u64)
    ensures x < U64_LIMIT ==> r == x
    ensures x >= U64_LIMIT ==> r < x
  {
    x % U64_LIMIT
  }

  /** The cast `(uint32_t)x` of a non-negative value: keeps the low 32 bits. */
  function TruncU32(x: nat): (r: u32)
    ensures x < U32_LIMIT ==> r == x
    ensures x >= U32_LIMIT ==> r < x
  {
    x % U32_LIMIT
  }
}
