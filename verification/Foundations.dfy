/** Shared vocabulary: 64-bit saturating time and epochs, identifiers, symbolic
    hashes, and the quorum arithmetic every multi-actor argument rests on. */
module Foundations {

  /** A 256-bit identifier. Only equality is ever used. */
  type Id32 = nat

  /** The bytes of an encapsulation key. */
  type KeyBytes = seq<bv8>

  /** An Ed25519 public key, identified with the actor that holds its secret half. */
  type Key = nat

  const U64_MAX: nat := 0xFFFF_FFFF_FFFF_FFFF
  type U64 = x: nat | x <= U64_MAX

  const PROTOCOL_VERSION_V3: nat := 3
  const XWING_PUBLIC_KEY_LEN: nat := 1216
  const MAX_ROTATION_ACTORS: nat := 4096

  datatype Option<+T> = None | Some(value: T)
  datatype Result<+T, +E> = Ok(value: T) | Err(error: E)

  datatype StorageError =
    InvalidEpoch | Conflict | Replay | NotFound | NotDurable | NoPreparedSuccessor | AlreadyActivated

  /** SHA-256 as a collision-free symbol: `Of(x)` is the digest of the canonical
      transcript of `x`, `Raw` any other 256-bit string. */
  datatype Hash<+T> = Of(preimage: T) | Raw(bits: Id32)

  function SatAdd(a: U64, b: U64): (r: U64)
    ensures r == if a + b <= U64_MAX then a + b else U64_MAX
  {
    if b <= U64_MAX - a then a + b else U64_MAX
  }

  function Max(a: nat, b: nat): nat {
    if a < b then b else a
  }

  lemma SubsetSize<T>(a: set<T>, b: set<T>)
    requires a <= b
    ensures |a| <= |b|
  {
    assert b == a + (b - a);
  }

  /** Inclusion-exclusion, as a lower bound on the overlap of two sets. */
  lemma OverlapSize<T>(a: set<T>, b: set<T>, universe: set<T>)
    requires a <= universe && b <= universe
    ensures |a * b| + |universe| >= |a| + |b|
  {
    SubsetSize(a + b, universe);
    assert |a + b| == |a| + |b| - |a * b|;
  }

  /** Two sets whose sizes exceed the universe by more than the number of faulty
      members share a member that is not faulty. */
  lemma SharedCorrectMember<T>(a: set<T>, b: set<T>, universe: set<T>, faulty: set<T>) returns (w: T)
    requires a <= universe && b <= universe
    requires |a| + |b| > |universe| + |faulty|
    ensures w in a && w in b && w in universe && w !in faulty
  {
    OverlapSize(a, b, universe);
    if (a * b) - faulty == {} {
      forall x | x in a * b
        ensures x in faulty
      {
        assert x !in (a * b) - faulty;
      }
      SubsetSize(a * b, faulty);
    }
    w :| w in (a * b) - faulty;
  }
}
