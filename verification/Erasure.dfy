/** Striping, padding and truncation around a Reed-Solomon coder. The coder itself is a
    parameter; what is assumed of it is `Reliable`: it is systematic, and any `k` shards of
    a codeword determine the rest. */
module Erasure {
  import opened Foundations

  type Bytes = seq<bv8>

  datatype CryptoError = InvalidThreshold | InsufficientShares | InvalidShare | DuplicateShare | InvalidFragments

  /** A shard slot: its bytes, and whether they are known. */
  datatype Slot = Slot(bytes: Bytes, present: bool)

  datatype Coder = Coder(encode: seq<Bytes> -> Option<seq<Bytes>>, reconstruct: seq<Slot> -> Option<seq<Slot>>)

  /** Builds the coder for `k` data and `p` parity shards, or refuses the pair. */
  type Codec = (nat, nat) -> Option<Coder>

  datatype Fragment = Fragment(index: nat, bytes: Bytes)

  predicate Rectangular(shards: seq<Bytes>, n: nat, length: nat) {
    |shards| == n && forall i :: 0 <= i < n ==> |shards[i]| == length
  }

  /** `word` is the codeword of some data shards. */
  ghost predicate Codeword(c: Coder, n: nat, length: nat, word: seq<Bytes>) {
    Rectangular(word, n, length) && c.encode(word) == Some(word)
  }

  ghost predicate Agrees(slots: seq<Slot>, word: seq<Bytes>)
    requires |slots| == |word|
  {
    forall i :: 0 <= i < |slots| && slots[i].present ==> slots[i].bytes == word[i]
  }

  function PresentPositions(slots: seq<Slot>): set<nat> {
    set i: nat | i < |slots| && slots[i].present
  }

  function Complete(word: seq<Bytes>): seq<Slot> {
    seq(|word|, i requires 0 <= i < |word| => Slot(word[i], true))
  }

  /** The assumption on the coder for `k` of `n` shards. */
  ghost predicate Reliable(c: Coder, k: nat, n: nat) {
    && k <= n
    && (forall shards: seq<Bytes>, length: nat {:trigger Rectangular(shards, n, length)} ::
          length > 0 && Rectangular(shards, n, length) ==>
            && c.encode(shards).Some?
            && Codeword(c, n, length, c.encode(shards).value)
            && forall i :: 0 <= i < k ==> c.encode(shards).value[i] == shards[i])
    && (forall slots: seq<Slot>, word: seq<Bytes>, length: nat {:trigger Codeword(c, n, length, word), c.reconstruct(slots)} ::
          && length > 0 && Codeword(c, n, length, word)
          && |slots| == n && Agrees(slots, word) && |PresentPositions(slots)| >= k ==>
            c.reconstruct(slots) == Some(Complete(word)))
  }

  /** Replication is such a coder for one data shard: the assumption can be met. */
  function Replicated(shards: seq<Bytes>): Option<seq<Bytes>> {
    if shards == [] then None else Some(seq(|shards|, i => shards[0]))
  }

  function FirstPresent(slots: seq<Slot>): Option<Bytes> {
    if slots == [] then None else if slots[0].present then Some(slots[0].bytes) else FirstPresent(slots[1..])
  }

  function FilledFromAny(slots: seq<Slot>): Option<seq<Slot>> {
    var known := FirstPresent(slots);
    if known.None? then None else Some(seq(|slots|, i => Slot(known.value, true)))
  }

  lemma {:induction false} FirstPresentIsPresent(slots: seq<Slot>, p: nat)
    requires p < |slots| && slots[p].present
    ensures FirstPresent(slots).Some?
    ensures exists i: nat :: i < |slots| && slots[i].present && slots[i].bytes == FirstPresent(slots).value
    decreases |slots|
  {
    if !slots[0].present {
      FirstPresentIsPresent(slots[1..], p - 1);
      var i: nat :| i < |slots[1..]| && slots[1..][i].present && slots[1..][i].bytes == FirstPresent(slots[1..]).value;
      assert slots[i + 1] == slots[1..][i];
    }
  }

  lemma ReplicationIsReliable(n: nat)
    requires n > 0
    ensures Reliable(Coder(Replicated, FilledFromAny), 1, n)
  {
    var c := Coder(Replicated, FilledFromAny);
    forall shards: seq<Bytes>, length: nat | length > 0 && Rectangular(shards, n, length)
      ensures c.encode(shards).Some? && Codeword(c, n, length, c.encode(shards).value) && c.encode(shards).value[0] == shards[0]
    {
      var word := Replicated(shards).value;
      assert Replicated(word).value == word;
    }
    forall slots: seq<Slot>, word: seq<Bytes>, length: nat
      | length > 0 && Codeword(c, n, length, word) && |slots| == n && Agrees(slots, word) && |PresentPositions(slots)| >= 1
      ensures c.reconstruct(slots) == Some(Complete(word))
    {
      var p :| p in PresentPositions(slots);
      FirstPresentIsPresent(slots, p);
      assert forall i :: 0 <= i < n ==> Replicated(word).value[i] == word[0];
      assert FilledFromAny(slots).value == Complete(word);
    }
  }

  // ---- Striping ------------------------------------------------------------------

  function DivCeil(a: nat, b: nat): (r: nat)
    requires b > 0
  {
    if a % b == 0 then a / b else a / b + 1
  }

  function ShardLength(len: nat, k: nat): (r: nat)
    requires k > 0
  {
    Max(DivCeil(len, k), 1)
  }

  lemma Multiples(a: nat, b: nat, c: nat)
    requires a <= b
    ensures a * c <= b * c
    ensures a < b ==> a * c + c <= b * c
  {
    if a < b {
      assert (a + 1) * c <= b * c;
      assert (a + 1) * c == a * c + c;
    }
  }

  lemma CeilingFits(len: nat, k: nat, q: nat, r: nat, length: nat)
    requires r < k && len == q * k + r && length == Max(if r == 0 then q else q + 1, 1)
    ensures len <= length * k
    ensures forall shorter: nat :: 0 < shorter < length ==> shorter * k < len
  {
    assert (q + 1) * k == q * k + k;
    if length == 1 {
      Multiples(q, 1, k);
    }
    forall shorter: nat | 0 < shorter < length
      ensures shorter * k < len
    {
      Multiples(shorter, q, k);
    }
  }

  /** `k` shards of this length hold the data, and no shorter ones do. */
  lemma ShardLengthFits(len: nat, k: nat)
    requires k > 0
    ensures ShardLength(len, k) > 0 && len <= k * ShardLength(len, k)
    ensures forall shorter: nat :: shorter < ShardLength(len, k) && shorter > 0 ==> k * shorter < len
  {
    assert len == (len / k) * k + len % k;
    CeilingFits(len, k, len / k, len % k, ShardLength(len, k));
  }

  function ByteAt(data: Bytes, position: nat): bv8 {
    if position < |data| then data[position] else 0
  }

  /** Row `i` holds bytes `i * length` onwards, padded with zeros. */
  function Striped(data: Bytes, n: nat, length: nat): (rows: seq<Bytes>)
    ensures Rectangular(rows, n, length)
  {
    seq(n, i requires 0 <= i < n => seq(length, j requires 0 <= j < length => ByteAt(data, i * length + j)))
  }

  lemma Position(position: nat, length: nat)
    requires length > 0
    ensures position == position / length * length + position % length && position % length < length
  {
  }

  /** Each position of the data lies in one cell only. */
  lemma CellIsUnique(i: nat, j: nat, length: nat, position: nat)
    requires j < length
    ensures i * length + j == position <==> i == position / length && j == position % length
  {
    var q := position / length;
    Position(position, length);
    if i < q {
      Multiples(i, q, length);
    } else if q < i {
      Multiples(q, i, length);
    }
  }

  lemma RowInRange(position: nat, k: nat, length: nat)
    requires length > 0 && position < k * length
    ensures position / length < k
  {
    Position(position, length);
    if k <= position / length {
      Multiples(k, position / length, length);
    }
  }

  /** Cell `(i, j)` when the first `upto` bytes have been written. */
  function CellAfter(data: Bytes, upto: nat, i: nat, j: nat, length: nat): bv8 {
    if i * length + j < upto then ByteAt(data, i * length + j) else 0
  }

  lemma CellStep(data: Bytes, offset: nat, i: nat, j: nat, length: nat)
    requires j < length && offset < |data|
    ensures CellAfter(data, offset + 1, i, j, length) ==
            if i == offset / length && j == offset % length then data[offset] else CellAfter(data, offset, i, j, length)
  {
    CellIsUnique(i, j, length, offset);
  }

  lemma CellAtEnd(data: Bytes, i: nat, j: nat, length: nat)
    ensures CellAfter(data, |data|, i, j, length) == ByteAt(data, i * length + j)
  {
  }

  /** The cell of the next byte, and what writing it does to the buffer's contents. */
  method CellOf(data: Bytes, offset: nat, k: nat, length: nat) returns (row: nat, column: nat)
    requires offset < |data| <= k * length && length > 0
    ensures row < k && column < length
    ensures forall i: nat, j: nat {:trigger CellAfter(data, offset + 1, i, j, length)} :: j < length ==>
              CellAfter(data, offset + 1, i, j, length) ==
              if i == row && j == column then data[offset] else CellAfter(data, offset, i, j, length)
  {
    RowInRange(offset, k, length);
    Position(offset, length);
    row, column := offset / length, offset % length;
    forall i: nat, j: nat | j < length
      ensures CellAfter(data, offset + 1, i, j, length) ==
              if i == row && j == column then data[offset] else CellAfter(data, offset, i, j, length)
    {
      CellStep(data, offset, i, j, length);
    }
  }

  /** The striping loop over a two-dimensional buffer; every index it writes is in bounds. */
  method Stripe(data: Bytes, k: nat, n: nat) returns (rows: seq<Bytes>)
    requires 0 < k <= n
    ensures rows == Striped(data, n, ShardLength(|data|, k))
  {
    var length := ShardLength(|data|, k);
    ShardLengthFits(|data|, k);
    var buffer := new bv8[n, length]((i, j) => 0);
    for offset := 0 to |data|
      invariant forall i: nat, j: nat {:trigger buffer[i, j]} :: i < n && j < length ==>
                  buffer[i, j] == CellAfter(data, offset, i, j, length)
    {
      var row, column := CellOf(data, offset, k, length);
      buffer[row, column] := data[offset];
      forall i: nat, j: nat | i < n && j < length
        ensures buffer[i, j] == CellAfter(data, offset + 1, i, j, length)
      {
        assert CellAfter(data, offset + 1, i, j, length) ==
               if i == row && j == column then data[offset] else CellAfter(data, offset, i, j, length);
      }
    }
    rows := Rows(buffer);
    forall i: nat, j: nat | i < n && j < length
      ensures rows[i][j] == Striped(data, n, length)[i][j]
    {
      CellAtEnd(data, i, j, length);
    }
    forall i: nat | i < n
      ensures rows[i] == Striped(data, n, length)[i]
    {
    }
  }

  method Rows(buffer: array2<bv8>) returns (rows: seq<Bytes>)
    ensures Rectangular(rows, buffer.Length0, buffer.Length1)
    ensures forall i, j :: 0 <= i < buffer.Length0 && 0 <= j < buffer.Length1 ==> rows[i][j] == buffer[i, j]
  {
    rows := [];
    for i := 0 to buffer.Length0
      invariant Rectangular(rows, i, buffer.Length1)
      invariant forall r, j :: 0 <= r < i && 0 <= j < buffer.Length1 ==> rows[r][j] == buffer[r, j]
    {
      var row: Bytes := [];
      for j := 0 to buffer.Length1
        invariant |row| == j && forall c :: 0 <= c < j ==> row[c] == buffer[i, c]
      {
        row := row + [buffer[i, j]];
      }
      rows := rows + [row];
    }
  }

  function Joined(rows: seq<Bytes>): Bytes {
    if rows == [] then [] else Joined(rows[..|rows| - 1]) + rows[|rows| - 1]
  }

  lemma {:induction false} JoinedLength(rows: seq<Bytes>, n: nat, length: nat)
    requires Rectangular(rows, n, length)
    ensures |Joined(rows)| == n * length
    decreases n
  {
    if n > 0 {
      JoinedLength(rows[..n - 1], n - 1, length);
      assert n * length == (n - 1) * length + length;
    }
  }

  lemma {:induction false} JoinedAt(rows: seq<Bytes>, n: nat, length: nat, i: nat, j: nat)
    requires Rectangular(rows, n, length) && i < n && j < length
    ensures i * length + j < |Joined(rows)| == n * length && Joined(rows)[i * length + j] == rows[i][j]
    decreases n
  {
    JoinedLength(rows, n, length);
    JoinedLength(rows[..n - 1], n - 1, length);
    Multiples(i, n, length);
    if i < n - 1 {
      JoinedAt(rows[..n - 1], n - 1, length, i, j);
    }
  }

  function Truncated(s: Bytes, len: nat): Bytes {
    if |s| <= len then s else s[..len]
  }

  lemma JoinedByte(data: Bytes, rows: seq<Bytes>, k: nat, length: nat, p: nat)
    requires Rectangular(rows, k, length) && p < |data| <= k * length && length > 0
    requires forall i, j :: 0 <= i < k && 0 <= j < length ==> rows[i][j] == ByteAt(data, i * length + j)
    ensures p < |Joined(rows)| && Joined(rows)[p] == data[p]
  {
    RowInRange(p, k, length);
    Position(p, length);
    JoinedAt(rows, k, length, p / length, p % length);
  }

  /** Striping loses nothing: the data rows, joined and cut, are the data. */
  lemma StripesHoldData(data: Bytes, k: nat, n: nat)
    requires 0 < k <= n
    ensures Truncated(Joined(Striped(data, n, ShardLength(|data|, k))[..k]), |data|) == data
  {
    var length := ShardLength(|data|, k);
    var rows := Striped(data, n, length)[..k];
    ShardLengthFits(|data|, k);
    assert Rectangular(rows, k, length);
    JoinedLength(rows, k, length);
    forall p | 0 <= p < |data|
      ensures Joined(rows)[p] == data[p]
    {
      JoinedByte(data, rows, k, length, p);
    }
  }

  // ---- Encoding ------------------------------------------------------------------

  function Encoded(codec: Codec, data: Bytes, k: nat, n: nat): Result<seq<Bytes>, CryptoError> {
    if k == 0 || k > n || codec(k, n - k).None? then Err(InvalidThreshold)
    else
      var word := codec(k, n - k).value.encode(Striped(data, n, ShardLength(|data|, k)));
      if word.None? then Err(InvalidFragments) else Ok(word.value)
  }

  method ErasureEncode(codec: Codec, data: Bytes, k: nat, n: nat) returns (r: Result<seq<Bytes>, CryptoError>)
    ensures r == Encoded(codec, data, k, n)
  {
    if k == 0 || k > n {
      return Err(InvalidThreshold);
    }
    var coder := codec(k, n - k);
    if coder.None? {
      return Err(InvalidThreshold);
    }
    var shards := Stripe(data, k, n);
    var word := coder.value.encode(shards);
    return if word.None? then Err(InvalidFragments) else Ok(word.value);
  }

  // ---- Reconstruction ------------------------------------------------------------

  function Blank(n: nat, length: nat): seq<Slot> {
    seq(n, i => Slot(seq(length, j => 0), false))
  }

  predicate Fits(slots: seq<Slot>, length: nat, f: Fragment) {
    0 < f.index <= |slots| && |f.bytes| == length && !slots[f.index - 1].present
  }

  /** Fragments put into their slots one after the other; a misfit stops it. */
  function Placed(fragments: seq<Fragment>, n: nat, length: nat): (r: Option<seq<Slot>>)
    ensures r.Some? ==> |r.value| == n
  {
    if fragments == [] then Some(Blank(n, length))
    else
      var last := fragments[|fragments| - 1];
      var before := Placed(fragments[..|fragments| - 1], n, length);
      if before.Some? && Fits(before.value, length, last) then Some(before.value[last.index - 1 := Slot(last.bytes, true)])
      else None
  }

  /** The bytes sent under each index. */
  function Sent(fragments: seq<Fragment>): map<nat, Bytes> {
    if fragments == [] then map[]
    else Sent(fragments[..|fragments| - 1])[fragments[|fragments| - 1].index := fragments[|fragments| - 1].bytes]
  }

  lemma {:induction false} SentOrigin(fragments: seq<Fragment>, k: nat) returns (i: nat)
    requires k in Sent(fragments)
    ensures i < |fragments| && fragments[i].index == k
  {
    var m := |fragments| - 1;
    if fragments[m].index == k {
      i := m;
    } else {
      i := SentOrigin(fragments[..m], k);
    }
  }

  lemma {:induction false} SentContains(fragments: seq<Fragment>, i: nat)
    requires i < |fragments|
    ensures fragments[i].index in Sent(fragments)
  {
    if i < |fragments| - 1 {
      SentContains(fragments[..|fragments| - 1], i);
    }
  }

  /** Every index is in range and new, every length the same. */
  predicate WellPlaced(fragments: seq<Fragment>, n: nat, length: nat) {
    fragments != [] ==>
      var front, last := fragments[..|fragments| - 1], fragments[|fragments| - 1];
      WellPlaced(front, n, length) && 0 < last.index <= n && |last.bytes| == length && last.index !in Sent(front)
  }

  /** Exactly the slots of sent indices are filled, each by its own fragment. */
  ghost predicate Holds(slots: seq<Slot>, sent: map<nat, Bytes>) {
    forall p: nat {:trigger slots[p]} :: p < |slots| ==>
      if p + 1 in sent then slots[p] == Slot(sent[p + 1], true) else !slots[p].present
  }

  /** Placing succeeds exactly for distinct in-range indices of one length, and then fills
      exactly their slots. */
  lemma {:induction false} PlacedIffWellPlaced(fragments: seq<Fragment>, n: nat, length: nat)
    ensures Placed(fragments, n, length).Some? <==> WellPlaced(fragments, n, length)
    ensures Placed(fragments, n, length).Some? ==> Holds(Placed(fragments, n, length).value, Sent(fragments))
  {
    if fragments != [] {
      PlacedIffWellPlaced(fragments[..|fragments| - 1], n, length);
    }
  }

  lemma {:induction false} PlacedPrefix(fragments: seq<Fragment>, i: nat, n: nat, length: nat)
    requires i <= |fragments| && Placed(fragments[..i], n, length).None?
    ensures Placed(fragments, n, length).None?
    decreases |fragments|
  {
    if i < |fragments| {
      assert fragments[..|fragments| - 1][..i] == fragments[..i];
      PlacedPrefix(fragments[..|fragments| - 1], i, n, length);
    } else {
      assert fragments[..i] == fragments;
    }
  }

  function DataOf(slots: seq<Slot>, k: nat): seq<Bytes>
    requires k <= |slots|
  {
    seq(k, i requires 0 <= i < k => slots[i].bytes)
  }

  function Reconstructed(codec: Codec, fragments: seq<Fragment>, k: nat, n: nat, len: nat): Result<Bytes, CryptoError> {
    if |fragments| < k || k > n then Err(InsufficientShares)
    else if codec(k, n - k).None? then Err(InvalidThreshold)
    else if fragments == [] || fragments[0].bytes == [] then Err(InvalidFragments)
    else
      var slots := Placed(fragments, n, |fragments[0].bytes|);
      if slots.None? then Err(InvalidFragments)
      else
        var filled := codec(k, n - k).value.reconstruct(slots.value);
        if filled.None? || |filled.value| < k || exists i :: 0 <= i < k && !filled.value[i].present then Err(InvalidFragments)
        else Ok(Truncated(Joined(DataOf(filled.value, k)), len))
  }

  method PlaceFragments(fragments: seq<Fragment>, n: nat, length: nat) returns (slots: Option<seq<Slot>>)
    ensures slots == Placed(fragments, n, length)
  {
    var shards := seq(n, i => Slot(seq(length, j => 0), false));
    for i := 0 to |fragments|
      invariant Placed(fragments[..i], n, length) == Some(shards)
    {
      var f := fragments[i];
      assert fragments[..i + 1][..i] == fragments[..i];
      if f.index == 0 || f.index > n || |f.bytes| != length || shards[f.index - 1].present {
        PlacedPrefix(fragments, i + 1, n, length);
        return None;
      }
      shards := shards[f.index - 1 := Slot(f.bytes, true)];
    }
    assert fragments[..|fragments|] == fragments;
    return Some(shards);
  }

  method ErasureReconstruct(codec: Codec, fragments: seq<Fragment>, k: nat, n: nat, len: nat)
    returns (r: Result<Bytes, CryptoError>)
    ensures r == Reconstructed(codec, fragments, k, n, len)
  {
    if |fragments| < k || k > n {
      return Err(InsufficientShares);
    }
    var coder := codec(k, n - k);
    if coder.None? {
      return Err(InvalidThreshold);
    }
    if fragments == [] || fragments[0].bytes == [] {
      return Err(InvalidFragments);
    }
    var placed := PlaceFragments(fragments, n, |fragments[0].bytes|);
    if placed.None? {
      return Err(InvalidFragments);
    }
    var filled := coder.value.reconstruct(placed.value);
    if filled.None? || |filled.value| < k {
      return Err(InvalidFragments);
    }
    var output: Bytes := [];
    for i := 0 to k
      invariant forall j :: 0 <= j < i ==> filled.value[j].present
      invariant output == Joined(DataOf(filled.value, i))
    {
      if !filled.value[i].present {
        return Err(InvalidFragments);
      }
      assert DataOf(filled.value, i + 1)[..i] == DataOf(filled.value, i);
      output := output + filled.value[i].bytes;
    }
    return Ok(Truncated(output, len));
  }

  // ---- Round trips ---------------------------------------------------------------

  /** Distinct fragments taken from an encoding, in any order. */
  predicate TakenFrom(fragments: seq<Fragment>, word: seq<Bytes>) {
    && (forall i :: 0 <= i < |fragments| ==> 0 < fragments[i].index <= |word| && fragments[i].bytes == word[fragments[i].index - 1])
    && (forall i, j :: 0 <= i < j < |fragments| ==> fragments[i].index != fragments[j].index)
  }

  lemma EncodingIsCodeword(codec: Codec, data: Bytes, k: nat, n: nat)
    requires 0 < k <= n && codec(k, n - k).Some? && Reliable(codec(k, n - k).value, k, n)
    ensures Encoded(codec, data, k, n).Ok?
    ensures var word := Encoded(codec, data, k, n).value;
            && Codeword(codec(k, n - k).value, n, ShardLength(|data|, k), word)
            && word[..k] == Striped(data, n, ShardLength(|data|, k))[..k]
  {
    var rows := Striped(data, n, ShardLength(|data|, k));
    ShardLengthFits(|data|, k);
    assert Rectangular(rows, n, ShardLength(|data|, k));
  }

  lemma {:induction false} IndicesCount(fragments: seq<Fragment>, slots: seq<Slot>)
    requires forall i :: 0 <= i < |fragments| ==> 0 < fragments[i].index <= |slots| && slots[fragments[i].index - 1].present
    requires forall i, j :: 0 <= i < j < |fragments| ==> fragments[i].index != fragments[j].index
    ensures |PresentPositions(slots)| >= |fragments|
  {
    var positions := set i | 0 <= i < |fragments| :: fragments[i].index - 1;
    DistinctIndices(fragments);
    assert positions <= PresentPositions(slots);
    SubsetSize(positions, PresentPositions(slots));
  }

  lemma {:induction false} DistinctIndices(fragments: seq<Fragment>)
    requires forall i, j :: 0 <= i < j < |fragments| ==> fragments[i].index != fragments[j].index
    ensures |set i | 0 <= i < |fragments| :: fragments[i].index - 1| == |fragments|
  {
    if fragments != [] {
      var m := |fragments| - 1;
      DistinctIndices(fragments[..m]);
      var front := set i | 0 <= i < m :: fragments[..m][i].index - 1;
      assert (set i | 0 <= i < |fragments| :: fragments[i].index - 1) == front + {fragments[m].index - 1};
    }
  }

  lemma CoderFills(c: Coder, k: nat, n: nat, slots: seq<Slot>, word: seq<Bytes>, length: nat)
    requires Reliable(c, k, n) && length > 0 && Codeword(c, n, length, word)
    requires |slots| == n && Agrees(slots, word) && |PresentPositions(slots)| >= k
    ensures c.reconstruct(slots) == Some(Complete(word))
  {
  }

  lemma {:induction false} TakenIsWellPlaced(word: seq<Bytes>, fragments: seq<Fragment>, n: nat, length: nat)
    requires Rectangular(word, n, length) && TakenFrom(fragments, word)
    ensures WellPlaced(fragments, n, length)
    ensures forall k :: k in Sent(fragments) ==> 0 < k <= n && Sent(fragments)[k] == word[k - 1]
  {
    if fragments != [] {
      var m := |fragments| - 1;
      var front := fragments[..m];
      TakenIsWellPlaced(word, front, n, length);
      if fragments[m].index in Sent(front) {
        var i := SentOrigin(front, fragments[m].index);
      }
    }
  }

  lemma TakenIsPlaced(word: seq<Bytes>, fragments: seq<Fragment>, n: nat, length: nat) returns (slots: seq<Slot>)
    requires Rectangular(word, n, length) && TakenFrom(fragments, word)
    ensures Placed(fragments, n, length) == Some(slots)
    ensures |slots| == n && Agrees(slots, word) && |PresentPositions(slots)| >= |fragments|
  {
    TakenIsWellPlaced(word, fragments, n, length);
    PlacedIffWellPlaced(fragments, n, length);
    slots := Placed(fragments, n, length).value;
    forall i | 0 <= i < |fragments|
      ensures slots[fragments[i].index - 1].present
    {
      SentContains(fragments, i);
    }
    IndicesCount(fragments, slots);
  }

  lemma ReconstructsCodeword(codec: Codec, word: seq<Bytes>, fragments: seq<Fragment>, k: nat, n: nat, length: nat, len: nat)
    requires 0 < k <= n && codec(k, n - k).Some? && Reliable(codec(k, n - k).value, k, n)
    requires length > 0 && Codeword(codec(k, n - k).value, n, length, word)
    requires |fragments| >= k && TakenFrom(fragments, word)
    ensures Reconstructed(codec, fragments, k, n, len) == Ok(Truncated(Joined(word[..k]), len))
  {
    assert |fragments[0].bytes| == length;
    var slots := TakenIsPlaced(word, fragments, n, length);
    CoderFills(codec(k, n - k).value, k, n, slots, word, length);
    assert DataOf(Complete(word), k) == word[..k];
  }

  /** Any `k` or more distinct fragments of an encoding give back the data. */
  lemma RoundTrip(codec: Codec, data: Bytes, k: nat, n: nat, fragments: seq<Fragment>)
    requires 0 < k <= n && codec(k, n - k).Some? && Reliable(codec(k, n - k).value, k, n)
    requires |fragments| >= k && TakenFrom(fragments, Encoded(codec, data, k, n).value)
    ensures Reconstructed(codec, fragments, k, n, |data|) == Ok(data)
  {
    EncodingIsCodeword(codec, data, k, n);
    ShardLengthFits(|data|, k);
    ReconstructsCodeword(codec, Encoded(codec, data, k, n).value, fragments, k, n, ShardLength(|data|, k), |data|);
    StripesHoldData(data, k, n);
  }

  // ---- Rotation ------------------------------------------------------------------

  predicate DistinctFragmentIndices(fragments: seq<Fragment>) {
    forall i, j :: 0 <= i < j < |fragments| ==> fragments[i].index != fragments[j].index
  }

  method HasRepeatedIndex(fragments: seq<Fragment>) returns (repeated: bool)
    ensures repeated <==> !DistinctFragmentIndices(fragments)
  {
    var seen: set<nat> := {};
    for i := 0 to |fragments|
      invariant seen == set j | 0 <= j < i :: fragments[j].index
      invariant DistinctFragmentIndices(fragments[..i])
    {
      if fragments[i].index in seen {
        return true;
      }
      seen := seen + {fragments[i].index};
    }
    assert fragments[..|fragments|] == fragments;
    return false;
  }

  /** Moves a ciphertext to a new fragment set without decrypting it. */
  method RotateCiphertextFragments(codec: Codec, formerFragments: seq<Fragment>, k: nat, n: nat, len: nat, k': nat, n': nat)
    returns (r: Result<seq<Bytes>, CryptoError>)
    ensures r ==
            if !DistinctFragmentIndices(formerFragments) then Err(InvalidFragments)
            else
              match Reconstructed(codec, formerFragments, k, n, len)
              case Err(e) => Err(e)
              case Ok(data) => Encoded(codec, data, k', n')
  {
    var repeated := HasRepeatedIndex(formerFragments);
    if repeated {
      return Err(InvalidFragments);
    }
    var data := ErasureReconstruct(codec, formerFragments, k, n, len);
    if data.Err? {
      return Err(data.error);
    }
    r := ErasureEncode(codec, data.value, k', n');
  }

  /** The coordinator rebuilds the ciphertext from a quorum of old fragments and encodes it
      for the successor. Under the same pair it gets back the very fragment list the
      predecessor committed to. */
  lemma ReencodingKeepsFragments(codec: Codec, data: Bytes, k: nat, n: nat, fragments: seq<Fragment>)
    requires 0 < k <= n && codec(k, n - k).Some? && Reliable(codec(k, n - k).value, k, n)
    requires |fragments| >= k && TakenFrom(fragments, Encoded(codec, data, k, n).value)
    ensures Reconstructed(codec, fragments, k, n, |data|).Ok?
    ensures Encoded(codec, Reconstructed(codec, fragments, k, n, |data|).value, k, n) == Encoded(codec, data, k, n)
  {
    RoundTrip(codec, data, k, n, fragments);
  }

  /** The rows of a word from `k` up to `k'` hold nothing but padding. */
  predicate ZeroRows(word: seq<Bytes>, k: nat, k': nat) {
    forall i, j :: k <= i < k' && i < |word| && 0 <= j < |word[i]| ==> word[i][j] == 0
  }

  lemma PaddingIsZero(data: Bytes, k: nat, k': nat, n: nat, length: nat)
    requires 0 < k < k' <= n && |data| <= k * length
    ensures ZeroRows(Striped(data, n, length)[..k'], k, k')
  {
    var rows := Striped(data, n, length)[..k'];
    forall i, j | k <= i < k' && 0 <= j < |rows[i]|
      ensures rows[i][j] == 0
    {
      Multiples(k, i, length);
      assert rows[i][j] == ByteAt(data, i * length + j);
    }
  }

  /** The root over a fragment list, as a collision-free symbol. */
  function FragmentRoot(fragments: seq<Bytes>): Hash<seq<Bytes>> {
    Of(fragments)
  }

  function FirstSlots(word: seq<Bytes>, k: nat): seq<Slot> {
    seq(|word|, i requires 0 <= i < |word| => Slot(word[i], i < k))
  }

  lemma {:induction false} FirstSlotsPresent(word: seq<Bytes>, k: nat)
    requires k <= |word|
    ensures |PresentPositions(FirstSlots(word, k))| == k
    decreases k
  {
    if k == 0 {
      assert PresentPositions(FirstSlots(word, 0)) == {};
    } else {
      FirstSlotsPresent(word, k - 1);
      assert PresentPositions(FirstSlots(word, k)) == PresentPositions(FirstSlots(word, k - 1)) + {k - 1};
    }
  }

  /** A codeword is determined by its first `k` rows. */
  lemma CodewordByData(c: Coder, k: nat, n: nat, length: nat, word: seq<Bytes>, word': seq<Bytes>)
    requires Reliable(c, k, n) && length > 0 && Codeword(c, n, length, word) && Codeword(c, n, length, word')
    requires word[..k] == word'[..k]
    ensures word == word'
  {
    var slots := FirstSlots(word, k);
    FirstSlotsPresent(word, k);
    forall i | 0 <= i < k
      ensures word[i] == word'[i]
    {
      assert word[i] == word[..k][i] && word'[i] == word'[..k][i];
    }
    assert Agrees(slots, word) && Agrees(slots, word');
    assert c.reconstruct(slots) == Some(Complete(word)) && c.reconstruct(slots) == Some(Complete(word'));
    forall i | 0 <= i < n
      ensures word[i] == word'[i]
    {
      assert Complete(word)[i] == Complete(word')[i];
    }
  }

  /** The committed word begins with the successor's data rows when the parity rows that
      become data rows are zero. */
  lemma SameDataRows(data: Bytes, word: seq<Bytes>, k: nat, k': nat, n: nat, length: nat)
    requires 0 < k <= n && 0 < k' <= n && Rectangular(word, n, length) && |data| <= k * length
    requires word[..k] == Striped(data, n, length)[..k]
    ensures ZeroRows(word, k, k') <==> word[..k'] == Striped(data, n, length)[..k']
  {
    var rows := Striped(data, n, length);
    if k < k' {
      PaddingIsZero(data, k, k', n, length);
    }
    if ZeroRows(word, k, k') {
      forall i | 0 <= i < k'
        ensures word[i] == rows[i]
      {
        if i < k {
          assert word[i] == word[..k][i] && rows[i] == rows[..k][i];
        } else {
          assert rows[..k'][i] == rows[i];
        }
      }
    }
    if word[..k'] == rows[..k'] {
      forall i, j | k <= i < k' && i < |word| && 0 <= j < |word[i]|
        ensures word[i][j] == 0
      {
        assert word[i] == word[..k'][i] && rows[i] == rows[..k'][i];
      }
    }
  }

  /** Under another threshold the successor's fragments have the committed root exactly when
      the shard length is the same, the committed parity rows that become data rows (if the
      threshold rises) are all zero, and the committed list is a codeword of the successor's
      coder as well. */
  lemma OtherThresholdKeepsRootIff(codec: Codec, data: Bytes, k: nat, k': nat, n: nat)
    requires 0 < k <= n && codec(k, n - k).Some? && Reliable(codec(k, n - k).value, k, n)
    requires 0 < k' <= n && codec(k', n - k').Some? && Reliable(codec(k', n - k').value, k', n)
    ensures Encoded(codec, data, k, n).Ok? && Encoded(codec, data, k', n).Ok?
    ensures var word, word' := Encoded(codec, data, k, n).value, Encoded(codec, data, k', n).value;
            FragmentRoot(word') == FragmentRoot(word) <==>
              && ShardLength(|data|, k) == ShardLength(|data|, k')
              && ZeroRows(word, k, k')
              && Codeword(codec(k', n - k').value, n, ShardLength(|data|, k), word)
  {
    EncodingIsCodeword(codec, data, k, n);
    EncodingIsCodeword(codec, data, k', n);
    var word, word' := Encoded(codec, data, k, n).value, Encoded(codec, data, k', n).value;
    var length := ShardLength(|data|, k);
    if length == ShardLength(|data|, k') {
      ShardLengthFits(|data|, k);
      SameDataRows(data, word, k, k', n, length);
      if ZeroRows(word, k, k') && Codeword(codec(k', n - k').value, n, length, word) {
        CodewordByData(codec(k', n - k').value, k', n, length, word, word');
      }
    } else {
      assert |word[0]| != |word'[0]|;
    }
  }
}
