/** Fixed-width integers, hashes and the result types every other module uses. */
module Base {
  const U64: nat := 0x1_0000_0000_0000_0000
  const U256: nat := 0x1_0000000000000000_0000000000000000_0000000000000000_0000000000000000

  type byte = x: nat | x < 0x100
  type uint16 = x: nat | x < 0x1_0000
  type uint32 = x: nat | x < 0x1_0000_0000
  type uint64 = x: nat | x < U64
  type uint256 = x: nat | x < U256

  /** A bytes32 value, read as the number its 32 big-endian bytes denote. */
  type Hash = uint256

  /** The Keccak-256 primitive: any deterministic function from bytes to hashes. */
  type Keccak = seq<byte> -> Hash

  /** Go's uint64 addition. */
  function AddU64(a: uint64, b: uint64): uint64 {
    (a + b) % U64
  }

  lemma AddWithoutWrap(a: uint64, b: uint64)
    requires a + b < U64
    ensures AddU64(a, b) == a + b
  {}

  datatype Option<+T> = None | Some(value: T)

  datatype Result<+T, +E> = Ok(value: T) | Err(error: E) {
    predicate IsFailure() { Err? }

    function PropagateFailure<U>(): Result<U, E>
      requires Err?
    {
      Err(error)
    }

    function Extract(): T
      requires Ok?
    {
      value
    }
  }
}
