/** The duplicate test of secret recovery: 256 one-bit flags in four 64-bit words refine the
    set of share indices read so far. */
module ShareBitmap {
  import opened Foundations
  import opened Erasure

  const SHAMIR_SECRET_LEN: nat := 32
  const SHAMIR_SHARE_LEN: nat := SHAMIR_SECRET_LEN + 1
  const SHAMIR_MAX_SHARES: nat := 255
  const SHAMIR_INDEX_WORDS: nat := 4

  // ---- Bits ----------------------------------------------------------------------

  function Mask(index: bv8): bv64 {
    (1 as bv64) << (index % 64)
  }

  function WordOf(index: bv8): (w: nat)
    ensures w < SHAMIR_INDEX_WORDS
  {
    (index / 64) as int
  }

  lemma MasksAreSeparate(a: bv8, b: bv8, w: bv64)
    requires a % 64 != b % 64
    ensures (w | Mask(a)) & Mask(b) == w & Mask(b)
  {
  }

  lemma MaskSetsItself(a: bv8, w: bv64)
    ensures (w | Mask(a)) & Mask(a) != 0
  {
  }

  predicate HasBit(w: bv64, index: bv8) {
    w & Mask(index) != 0
  }

  lemma BitElsewhere(w: bv64, a: bv8, b: bv8)
    requires a % 64 != b % 64
    ensures HasBit(w | Mask(a), b) <==> HasBit(w, b)
  {
    MasksAreSeparate(a, b, w);
  }

  lemma BitHere(w: bv64, a: bv8)
    ensures HasBit(w | Mask(a), a)
  {
    MaskSetsItself(a, w);
  }

  lemma SameQuotientAndRemainder(a: bv8, b: bv8)
    requires a / 64 == b / 64 && a % 64 == b % 64
    ensures a == b
  {
  }

  lemma SameWord(a: bv8, b: bv8)
    ensures WordOf(a) == WordOf(b) <==> a / 64 == b / 64
  {
    assert (WordOf(a) as bv8) == a / 64 && (WordOf(b) as bv8) == b / 64;
  }

  lemma WordAndBitNameIndex(a: bv8, b: bv8)
    ensures WordOf(a) == WordOf(b) && a % 64 == b % 64 <==> a == b
  {
    SameWord(a, b);
    if a / 64 == b / 64 && a % 64 == b % 64 {
      SameQuotientAndRemainder(a, b);
    }
  }

  // ---- The bitmap as a set -------------------------------------------------------

  predicate IsSet(words: seq<bv64>, index: bv8)
    requires |words| == SHAMIR_INDEX_WORDS
  {
    HasBit(words[WordOf(index)], index)
  }

  function With(words: seq<bv64>, index: bv8): (r: seq<bv64>)
    requires |words| == SHAMIR_INDEX_WORDS
    ensures |r| == SHAMIR_INDEX_WORDS
  {
    words[WordOf(index) := words[WordOf(index)] | Mask(index)]
  }

  lemma OtherWordKept(words: seq<bv64>, index: bv8, other: bv8)
    requires |words| == SHAMIR_INDEX_WORDS && WordOf(other) != WordOf(index)
    ensures IsSet(With(words, index), other) <==> IsSet(words, other)
  {
  }

  lemma OtherBitKept(words: seq<bv64>, index: bv8, other: bv8)
    requires |words| == SHAMIR_INDEX_WORDS && WordOf(other) == WordOf(index) && other % 64 != index % 64
    ensures IsSet(With(words, index), other) <==> IsSet(words, other)
  {
    BitElsewhere(words[WordOf(index)], index, other);
  }

  lemma OwnBitSet(words: seq<bv64>, index: bv8)
    requires |words| == SHAMIR_INDEX_WORDS
    ensures IsSet(With(words, index), index)
  {
    BitHere(words[WordOf(index)], index);
  }

  /** Setting one bit adds exactly that index. */
  lemma WithAddsOne(words: seq<bv64>, index: bv8, other: bv8)
    requires |words| == SHAMIR_INDEX_WORDS
    ensures IsSet(With(words, index), other) <==> other == index || IsSet(words, other)
  {
    if other == index {
      OwnBitSet(words, index);
    } else if WordOf(other) != WordOf(index) {
      OtherWordKept(words, index, other);
    } else {
      WordAndBitNameIndex(index, other);
      OtherBitKept(words, index, other);
    }
  }

  ghost predicate Represents(words: seq<bv64>, indices: set<bv8>) {
    |words| == SHAMIR_INDEX_WORDS && forall i: bv8 :: IsSet(words, i) <==> i in indices
  }

  lemma NothingSet(words: seq<bv64>)
    requires |words| == SHAMIR_INDEX_WORDS && forall i :: 0 <= i < SHAMIR_INDEX_WORDS ==> words[i] == 0
    ensures Represents(words, {})
  {
  }

  lemma WithRepresents(words: seq<bv64>, indices: set<bv8>, index: bv8)
    requires Represents(words, indices)
    ensures Represents(With(words, index), indices + {index})
  {
    forall i: bv8
      ensures IsSet(With(words, index), i) <==> i in indices + {index}
    {
      WithAddsOne(words, index, i);
    }
  }

  /** Tests and sets one flag in place. */
  method Mark(words: array<bv64>, index: bv8, ghost indices: set<bv8>) returns (duplicate: bool)
    requires Represents(words[..], indices)
    modifies words
    ensures duplicate <==> index in indices
    ensures Represents(words[..], indices + {index})
  {
    var word, mask := WordOf(index), Mask(index);
    WithRepresents(words[..], indices, index);
    duplicate := words[word] & mask != 0;
    assert duplicate <==> IsSet(words[..], index);
    if duplicate {
      assert indices + {index} == indices;
    } else {
      ghost var before := words[..];
      words[word] := words[word] | mask;
      assert words[..] == With(before, index);
    }
  }

  // ---- The loop ------------------------------------------------------------------

  predicate WellFormed(share: Bytes) {
    |share| == SHAMIR_SHARE_LEN && share[0] != 0
  }

  /** The first `n` shares are well formed and carry different indices. */
  predicate Clean(shares: seq<Bytes>, n: nat)
    requires n <= |shares|
  {
    && (forall i :: 0 <= i < n ==> WellFormed(shares[i]))
    && (forall i, j :: 0 <= i < j < n ==> shares[i][0] != shares[j][0])
  }

  function IndicesOf(shares: seq<Bytes>, n: nat): set<bv8>
    requires n <= |shares| && forall i :: 0 <= i < n ==> WellFormed(shares[i])
  {
    set i: nat | i < n && WellFormed(shares[i]) :: shares[i][0]
  }

  /** Share `i` repeats an index while everything before it was in order. */
  predicate RepeatsAt(shares: seq<Bytes>, i: nat)
    requires i < |shares|
  {
    Clean(shares, i) && WellFormed(shares[i]) && exists j :: 0 <= j < i && shares[j][0] == shares[i][0]
  }

  predicate MalformedAt(shares: seq<Bytes>, i: nat)
    requires i < |shares|
  {
    Clean(shares, i) && !WellFormed(shares[i])
  }

  /** Reads the shares against a four-word bitmap. A duplicate is reported exactly when two
      of the well-formed indices read so far coincide. */
  method CheckShares(shares: seq<Bytes>) returns (r: Result<seq<Bytes>, CryptoError>)
    ensures r.Ok? <==> Clean(shares, |shares|)
    ensures r.Ok? ==> r.value == shares
    ensures r == Err(DuplicateShare) <==> exists i: nat :: i < |shares| && RepeatsAt(shares, i)
    ensures r == Err(InvalidShare) <==> exists i: nat :: i < |shares| && MalformedAt(shares, i)
    ensures r.Err? ==> r.error == DuplicateShare || r.error == InvalidShare
  {
    var seenIndices := new bv64[SHAMIR_INDEX_WORDS](i => 0);
    var decoded: seq<Bytes> := [];
    NothingSet(seenIndices[..]);
    for n := 0 to |shares|
      invariant Clean(shares, n) && decoded == shares[..n]
      invariant Represents(seenIndices[..], IndicesOf(shares, n))
    {
      var encoded := shares[n];
      if |encoded| != SHAMIR_SHARE_LEN || encoded[0] == 0 {
        assert MalformedAt(shares, n);
        return Err(InvalidShare);
      }
      var index := encoded[0];
      var duplicate := Mark(seenIndices, index, IndicesOf(shares, n));
      if duplicate {
        var j :| 0 <= j < n && shares[j][0] == index;
        assert RepeatsAt(shares, n);
        return Err(DuplicateShare);
      }
      assert IndicesOf(shares, n + 1) == IndicesOf(shares, n) + {index};
      decoded := decoded + [encoded];
    }
    return Ok(decoded);
  }

  /** Interpolation over the decoded shares is a parameter; its result must be one secret. */
  type Interpolate = (nat, seq<Bytes>) -> Option<Bytes>

  method RecoverSecret(interpolate: Interpolate, shares: seq<Bytes>, threshold: nat)
    returns (r: Result<Bytes, CryptoError>)
    ensures r == Err(InvalidThreshold) <==> threshold == 0 || threshold > SHAMIR_MAX_SHARES
    ensures r == Err(InsufficientShares) <==> 0 < threshold <= SHAMIR_MAX_SHARES && |shares| < threshold
    ensures r == Err(DuplicateShare) <==>
            0 < threshold <= |shares| <= SHAMIR_MAX_SHARES && exists i: nat :: i < |shares| && RepeatsAt(shares, i)
    ensures r.Ok? <==>
            && 0 < threshold <= |shares| <= SHAMIR_MAX_SHARES && Clean(shares, |shares|)
            && interpolate(threshold, shares).Some? && |interpolate(threshold, shares).value| == SHAMIR_SECRET_LEN
    ensures r.Ok? ==> Some(r.value) == interpolate(threshold, shares)
  {
    if threshold == 0 || threshold > SHAMIR_MAX_SHARES {
      return Err(InvalidThreshold);
    }
    if |shares| < threshold {
      return Err(InsufficientShares);
    }
    if |shares| > SHAMIR_MAX_SHARES {
      return Err(InvalidShare);
    }
    var decoded := CheckShares(shares);
    if decoded.Err? {
      return Err(decoded.error);
    }
    var recovered := interpolate(threshold, decoded.value);
    if recovered.None? || |recovered.value| != SHAMIR_SECRET_LEN {
      return Err(InvalidShare);
    }
    return Ok(recovered.value);
  }
}
