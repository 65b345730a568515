/**
 * Host-side arithmetic of the BVH build's radix sort: work-group counts,
 * the per-pass radix control blocks, the ping-pong between the two
 * key/value buffers, the stub key/value layout, and the read-back check
 * that the sort's output is sorted.
 *
 * A key/value buffer holds two words per triangle: word 0 is the
 * triangle's original index, word 1 its sort key.
 */
module GpuRadix {
  import opened JavaInt

  const RADIX_WORK_GROUP_SIZE: int := 512
  const RADIX_BITS_PER_PASS: int := 4
  const RADIX_NUM_PASSES: int := 32 / RADIX_BITS_PER_PASS
  const RADIX_NUM_BUCKETS: int := Pow2(RADIX_BITS_PER_PASS)

  /** The derived constants: 8 passes of 4 bits over 16 buckets. */
  lemma RadixConstants()
    ensures RADIX_NUM_PASSES == 8 && RADIX_NUM_BUCKETS == 16
    ensures RADIX_NUM_PASSES % 2 == 0
  {
    assert Pow2(4) == 2 * Pow2(3) == 4 * Pow2(2) == 8 * Pow2(1) == 16;
  }

  /** `(n + radixWorkGroupSize - 1) / radixWorkGroupSize`: the work groups needed for `n` items. */
  function NumBlocks(n: nat): (r: nat)
    ensures r * RADIX_WORK_GROUP_SIZE >= n
    ensures n > 0 ==> (r - 1) * RADIX_WORK_GROUP_SIZE < n
    ensures n == 0 ==> r == 0
  {
    var q := (n + RADIX_WORK_GROUP_SIZE - 1) / RADIX_WORK_GROUP_SIZE;
    assert n + 511 == q * 512 + (n + 511) % 512;
    q
  }

  /** One control block: a work-group counter, then one status word per block and bucket (in bytes). */
  function ControlSizeUnaligned(numBlocksTris: nat): (r: nat)
    ensures r >= 4 && (r - 4) % (4 * RADIX_NUM_BUCKETS) == 0
    ensures r == 4 + 4 * RADIX_NUM_BUCKETS * numBlocksTris
  {
    RadixConstants();
    4 * 1 + 4 * numBlocksTris * RADIX_NUM_BUCKETS
  }

  /** `((size + alignment - 1) / alignment) * alignment`. */
  function AlignUp(size: nat, alignment: nat): (r: nat)
    requires alignment > 0
  {
    ((size + alignment - 1) / alignment) * alignment
  }

  /** The aligned size is the least multiple of the alignment that is at least the size. */
  lemma AlignUpLeast(size: nat, alignment: nat)
    requires alignment > 0
    ensures AlignUp(size, alignment) % alignment == 0
    ensures size <= AlignUp(size, alignment) < size + alignment
  {
    var q := (size + alignment - 1) / alignment;
    var m := (size + alignment - 1) % alignment;
    assert size + alignment - 1 == q * alignment + m;
    DivUnique(q * alignment, alignment, q, 0);
  }

  /** Any multiple of the alignment that holds the size is at least the aligned size. */
  lemma AlignUpIsLeast(size: nat, alignment: nat, k: nat)
    requires alignment > 0 && k * alignment >= size
    ensures AlignUp(size, alignment) <= k * alignment
  {
    var q := (size + alignment - 1) / alignment;
    var m := (size + alignment - 1) % alignment;
    assert size + alignment - 1 == q * alignment + m;
    if q > k {
      MulMono(k, q, alignment);
    }
    MulNonNeg(k, alignment);
    if q <= k {
      MulNonNeg(k - q, alignment);
      assert k * alignment == q * alignment + (k - q) * alignment;
    }
  }

  /** The two physical key/value buffers. */
  datatype KeyValueBuffer = MortonKeyValueBuffer | TmpMortonKeyValueBuffer

  /** The buffer pass `p` reads: `(pass_number & 1) == 0 ? mortonKeyValueBuffer : tmpMortonKeyValueBuffer`. */
  function SourceBuffer(p: nat): KeyValueBuffer
  {
    if p % 2 == 0 then MortonKeyValueBuffer else TmpMortonKeyValueBuffer
  }

  /** The buffer pass `p` writes. */
  function DestinationBuffer(p: nat): (b: KeyValueBuffer)
    ensures b != SourceBuffer(p)
  {
    if p % 2 == 0 then TmpMortonKeyValueBuffer else MortonKeyValueBuffer
  }

  /** Each pass reads what the previous pass wrote; the first reads the stub keys; the last writes them back. */
  lemma PingPong(p: nat)
    ensures SourceBuffer(p + 1) == DestinationBuffer(p)
    ensures SourceBuffer(0) == MortonKeyValueBuffer
    ensures DestinationBuffer(RADIX_NUM_PASSES - 1) == MortonKeyValueBuffer
  {
    RadixConstants();
  }

  /** What one iteration of the pass loop binds and dispatches. */
  datatype PassDispatch = PassDispatch(passNumber: nat, source: KeyValueBuffer, destination: KeyValueBuffer,
                                       controlOffset: nat, controlSize: nat, workGroups: nat)

  /** The dispatch of pass `p`, for the given block count and control-block sizes. */
  function Dispatch(p: nat, numBlocksTris: nat, aligned: nat, unaligned: nat): PassDispatch
  {
    PassDispatch(p, SourceBuffer(p), DestinationBuffer(p), aligned * p, unaligned, numBlocksTris)
  }

  /** The radix pass loop: one dispatch per pass, in pass order. */
  method RadixPasses(numBlocksTris: nat, aligned: nat, unaligned: nat) returns (passes: seq<PassDispatch>)
    ensures |passes| == RADIX_NUM_PASSES
    ensures forall p :: 0 <= p < |passes| ==> passes[p] == Dispatch(p, numBlocksTris, aligned, unaligned)
  {
    passes := [];
    var passNumber := 0;
    while passNumber < RADIX_NUM_PASSES
      invariant 0 <= passNumber <= RADIX_NUM_PASSES
      invariant |passes| == passNumber
      invariant forall p :: 0 <= p < passNumber ==> passes[p] == Dispatch(p, numBlocksTris, aligned, unaligned)
    {
      passes := passes + [Dispatch(passNumber, numBlocksTris, aligned, unaligned)];
      passNumber := passNumber + 1;
    }
  }

  /** Blocks of `aligned` bytes, each used up to `unaligned <= aligned`, do not overlap. */
  lemma {:induction false} BlocksApart(aligned: nat, unaligned: nat, p: nat, q: nat)
    requires unaligned <= aligned && p < q
    ensures aligned * p + unaligned <= aligned * q
  {
    MulNonNeg(q - p - 1, aligned);
    assert aligned * q == aligned * p + aligned + (q - p - 1) * aligned;
  }

  /**
   * With the aligned block size from `AlignUp`, the control ranges of
   * distinct passes are disjoint and all lie inside the buffer of
   * `aligned * radixNumPasses` bytes.
   */
  lemma ControlRangesDisjoint(numBlocksTris: nat, alignment: nat, p: nat, q: nat)
    requires alignment > 0
    requires p < q < RADIX_NUM_PASSES
    ensures var unaligned := ControlSizeUnaligned(numBlocksTris);
      var aligned := AlignUp(unaligned, alignment);
      var dp := Dispatch(p, numBlocksTris, aligned, unaligned);
      var dq := Dispatch(q, numBlocksTris, aligned, unaligned);
      dp.controlOffset + dp.controlSize <= dq.controlOffset &&
      dq.controlOffset + dq.controlSize <= aligned * RADIX_NUM_PASSES
  {
    var unaligned := ControlSizeUnaligned(numBlocksTris);
    var aligned := AlignUp(unaligned, alignment);
    AlignUpLeast(unaligned, alignment);
    BlocksApart(aligned, unaligned, p, q);
    BlocksApart(aligned, unaligned, q, RADIX_NUM_PASSES);
  }

  /** Word 0 (the original index) of entry `i`. */
  function Index(kv: seq<Int32>, i: nat): Int32
    requires 2 * i + 1 < |kv|
  {
    kv[2 * i]
  }

  /** Word 1 (the sort key) of entry `i`. */
  function Key(kv: seq<Int32>, i: nat): Int32
    requires 2 * i + 1 < |kv|
  {
    kv[2 * i + 1]
  }

  /**
   * The stub key generator: entry `i` holds `i` and the `i`-th
   * non-negative draw of the random generator.  The generator itself is
   * not modelled; its draws are the parameter `draws`.
   */
  method StubKeyValues(numTris: nat, draws: seq<Int32>) returns (keyValues: seq<Int32>)
    requires numTris <= MAX_INT / 2
    requires |draws| == numTris && forall i :: 0 <= i < numTris ==> draws[i] >= 0
    ensures |keyValues| == 2 * numTris
    ensures forall i :: 0 <= i < numTris ==> Index(keyValues, i) == i && Key(keyValues, i) == draws[i]
  {
    var a := new Int32[numTris * 2](_ => 0);
    var i: nat := 0;
    while i < numTris * 2
      invariant 0 <= i <= numTris * 2 && i % 2 == 0
      invariant forall j :: 0 <= j < i / 2 ==> a[2 * j] == j && a[2 * j + 1] == draws[j]
    {
      a[i + 0] := i / 2;
      a[i + 1] := draws[i / 2];
      i := i + 2;
    }
    keyValues := a[..];
  }

  /** The stub layout puts every index 0..n-1 in place, so its indices form a permutation. */
  lemma StubIndicesArePermutation(keyValues: seq<Int32>, n: nat)
    requires |keyValues| == 2 * n
    requires forall i :: 0 <= i < n ==> Index(keyValues, i) == i
    ensures IndicesArePermutation(keyValues, n)
  {}

  /** Keys are non-decreasing over all `n` entries. */
  predicate KeysNonDecreasing(kv: seq<Int32>, n: nat)
    requires |kv| == 2 * n
  {
    forall i :: 0 <= i < n - 1 ==> Key(kv, i) <= Key(kv, i + 1)
  }

  /** The indices of the first `m` entries are in [0, n) and pairwise distinct. */
  predicate IndicesDistinctBelow(kv: seq<Int32>, n: nat, m: nat)
    requires |kv| == 2 * n && m <= n
  {
    (forall i :: 0 <= i < m ==> 0 <= Index(kv, i) < n) &&
    (forall i, j :: 0 <= i < j < m ==> Index(kv, i) != Index(kv, j))
  }

  /** The indices of all `n` entries are a permutation of 0..n-1. */
  predicate IndicesArePermutation(kv: seq<Int32>, n: nat)
    requires |kv| == 2 * n
  {
    IndicesDistinctBelow(kv, n, n)
  }

  /**
   * What the read-back check accepts: the loop runs over i < n - 1, so
   * it checks the indices of entries 0..n-2 only (an index outside
   * [0, n) throws inside the `try` and counts as "not sorted"), and the
   * keys of every adjacent pair.
   */
  predicate SortedAsWritten(kv: seq<Int32>, n: nat)
    requires |kv| == 2 * n
  {
    IndicesDistinctBelow(kv, n, if n == 0 then 0 else n - 1) && KeysNonDecreasing(kv, n)
  }

  /** What the check is meant to establish: the keys are sorted and the indices are a permutation. */
  predicate SortedPermutation(kv: seq<Int32>, n: nat)
    requires |kv| == 2 * n
  {
    IndicesArePermutation(kv, n) && KeysNonDecreasing(kv, n)
  }

  /** The indices of the first `i` entries, as the check's `keyCounts` array has counted them. */
  ghost function Seen(kv: seq<Int32>, n: nat, i: nat): set<int>
    requires |kv| == 2 * n && i <= n
  {
    if i == 0 then {} else Seen(kv, n, i - 1) + {Index(kv, i - 1)}
  }

  /** Every index seen is the index of one of the first `i` entries. */
  lemma {:induction false} SeenHas(kv: seq<Int32>, n: nat, i: nat, k: int)
    requires |kv| == 2 * n && i <= n && k in Seen(kv, n, i)
    ensures exists j :: 0 <= j < i && Index(kv, j) == k
  {
    if Index(kv, i - 1) != k {
      SeenHas(kv, n, i - 1, k);
    }
  }

  /** The index of each of the first `i` entries has been seen. */
  lemma {:induction false} SeenAll(kv: seq<Int32>, n: nat, i: nat)
    requires |kv| == 2 * n && i <= n
    ensures forall j :: 0 <= j < i ==> Index(kv, j) in Seen(kv, n, i)
  {
    if i > 0 {
      SeenAll(kv, n, i - 1);
    }
  }

  /** An index in range and not yet seen keeps the indices distinct one entry further. */
  lemma DistinctStep(kv: seq<Int32>, n: nat, i: nat)
    requires |kv| == 2 * n && i < n && IndicesDistinctBelow(kv, n, i)
    requires 0 <= Index(kv, i) < n && Index(kv, i) !in Seen(kv, n, i)
    ensures IndicesDistinctBelow(kv, n, i + 1)
  {
    SeenAll(kv, n, i);
  }

  /**
   * The read-back check of `buildBVH` as written.  `keyCounts[key]++`
   * with `key` outside the array throws; the `catch` turns that into
   * "not sorted".
   */
  method CheckSorted(resultKeyValues: seq<Int32>, numTris: nat) returns (sorted: bool)
    requires |resultKeyValues| == 2 * numTris
    ensures sorted <==> SortedAsWritten(resultKeyValues, numTris)
  {
    sorted := true;
    var keyCounts := new int[numTris](_ => 0);
    var i: nat := 0;
    while i < numTris - 1
      invariant i == 0 || i < numTris
      invariant sorted
      invariant IndicesDistinctBelow(resultKeyValues, numTris, i)
      invariant forall j :: 0 <= j < i ==> Key(resultKeyValues, j) <= Key(resultKeyValues, j + 1)
      invariant forall k :: 0 <= k < numTris ==> keyCounts[k] == if k in Seen(resultKeyValues, numTris, i) then 1 else 0
    {
      var key := resultKeyValues[i * 2 + 0];
      var value := resultKeyValues[i * 2 + 1];
      var nextValue := resultKeyValues[(i + 1) * 2 + 1];
      if !(0 <= key < numTris) {
        sorted := false;
        assert !(0 <= Index(resultKeyValues, i) < numTris);
        break;
      }
      keyCounts[key] := keyCounts[key] + 1;
      if keyCounts[key] > 1 {
        sorted := false;
        SeenHas(resultKeyValues, numTris, i, key);
        ghost var j :| 0 <= j < i && Index(resultKeyValues, j) == key;
        assert Index(resultKeyValues, j) == Index(resultKeyValues, i);
        break;
      }
      if value > nextValue {
        sorted := false;
        assert !(Key(resultKeyValues, i) <= Key(resultKeyValues, i + 1));
        break;
      }
      DistinctStep(resultKeyValues, numTris, i);
      i := i + 1;
    }
  }

  /** The check as intended: it also counts the index of the last entry. */
  method CheckSortedCorrected(resultKeyValues: seq<Int32>, numTris: nat) returns (sorted: bool)
    requires |resultKeyValues| == 2 * numTris
    ensures sorted <==> SortedPermutation(resultKeyValues, numTris)
  {
    sorted := true;
    var keyCounts := new int[numTris](_ => 0);
    var i: nat := 0;
    while i < numTris
      invariant 0 <= i <= numTris
      invariant sorted
      invariant IndicesDistinctBelow(resultKeyValues, numTris, i)
      invariant forall j :: 0 <= j < i && j + 1 < numTris ==> Key(resultKeyValues, j) <= Key(resultKeyValues, j + 1)
      invariant forall k :: 0 <= k < numTris ==> keyCounts[k] == if k in Seen(resultKeyValues, numTris, i) then 1 else 0
    {
      var key := resultKeyValues[i * 2 + 0];
      if !(0 <= key < numTris) {
        sorted := false;
        assert !(0 <= Index(resultKeyValues, i) < numTris);
        break;
      }
      keyCounts[key] := keyCounts[key] + 1;
      if keyCounts[key] > 1 {
        sorted := false;
        SeenHas(resultKeyValues, numTris, i, key);
        ghost var j :| 0 <= j < i && Index(resultKeyValues, j) == key;
        assert Index(resultKeyValues, j) == Index(resultKeyValues, i);
        break;
      }
      if i + 1 < numTris && resultKeyValues[i * 2 + 1] > resultKeyValues[(i + 1) * 2 + 1] {
        sorted := false;
        assert !(Key(resultKeyValues, i) <= Key(resultKeyValues, i + 1));
        break;
      }
      DistinctStep(resultKeyValues, numTris, i);
      i := i + 1;
    }
  }

  /** The intended property implies what the check as written accepts. */
  lemma SortedPermutationPassesAsWritten(kv: seq<Int32>, n: nat)
    requires |kv| == 2 * n && SortedPermutation(kv, n)
    ensures SortedAsWritten(kv, n)
  {}

  /** Two entries with the same index 0 pass the check as written: the last entry's index is never counted. */
  lemma LastIndexUnchecked()
    ensures SortedAsWritten([0, 5, 0, 6], 2)
    ensures !SortedPermutation([0, 5, 0, 6], 2)
  {
    var kv: seq<Int32> := [0, 5, 0, 6];
    assert Index(kv, 0) == Index(kv, 1);
  }
}
