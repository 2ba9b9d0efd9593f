/** Types and machine arithmetic shared by the consensus modules. */
module Common {

  datatype Option<+T> = None | Some(value: T)

  /** A 32-byte hash, identified with its big-endian value, so that comparing two
      hashes byte by byte is comparing two numbers. */
  type Hash = nat

  /** A 32-byte account address, identified with its big-endian value. */
  type Address = nat

  const ZERO_HASH: Hash := 0

  /** `Address::default()` */
  const ZERO_ADDRESS: Address := 0

  const U64_MAX: nat := 0xFFFF_FFFF_FFFF_FFFF

  function Min(a: nat, b: nat): nat { if a <= b then a else b }

  function Max(a: nat, b: nat): nat { if a <= b then b else a }

  /** `u64::saturating_add` */
  function SatAdd(a: nat, b: nat): nat { Min(a + b, U64_MAX) }

  /** `u64::saturating_sub` */
  function SatSub(a: nat, b: nat): nat { if a <= b then 0 else a - b }

  /** `div_ceil` on unsigned integers */
  function DivCeil(a: nat, b: nat): nat
    requires b > 0
  {
    (a + b - 1) / b
  }

  /** A finite set with as many elements as a subset of it is that subset. */
  lemma SubsetCardinality<T>(a: set<T>, b: set<T>)
    requires a <= b
    ensures |a| <= |b|
    ensures |a| == |b| ==> a == b
  {
    assert b == a + (b - a);
    assert |b| == |a| + |b - a|;
  }
}
