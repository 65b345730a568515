/**
 * A sequential least-significant-digit radix sort: what the eight
 * count / prefix-sum / scatter dispatches of the BVH build compute
 * between them.  Each pass places the entries stably by one 4-bit digit
 * of the key: first every entry whose digit is 0, then every entry whose
 * digit is 1, and so on up to 15.  The device shaders are not part of
 * this model; this is a reference for their result, not a transcription.
 */
module GpuRadixSort {
  import opened JavaInt
  import opened GpuRadix

  /** One key/value pair: the triangle's original index and its sort key. */
  datatype Entry = Entry(index: Int32, key: Int32)

  /** 16 to the power `p`: the weight of digit `p`. */
  function Pow16(p: nat): (r: nat)
    ensures r >= 1
  {
    if p == 0 then 1 else 16 * Pow16(p - 1)
  }

  /** Digit `p` of the key: `(key >> (4 * p)) & 15`. */
  function Digit(key: int, p: nat): (d: nat)
    ensures d < RADIX_NUM_BUCKETS
  {
    RadixConstants();
    (key / Pow16(p)) % 16
  }

  /** The key as the first `p` passes see it: its lowest `p` digits. */
  function Low(key: int, p: nat): (r: nat)
    ensures r < Pow16(p)
  {
    key % Pow16(p)
  }

  /** Adding digit `p` on top of the lowest `p` digits gives the lowest `p + 1`. */
  lemma LowStep(key: int, p: nat)
    ensures Low(key, p + 1) == Digit(key, p) * Pow16(p) + Low(key, p)
  {
    var w := Pow16(p);
    var q, r := key / w, key % w;
    var q2, d := q / 16, q % 16;
    assert key == q * w + r;
    assert q == q2 * 16 + d;
    assert key == q2 * (16 * w) + (d * w + r);
    assert d * w + r < 16 * w by {
      MulMono(d, 16, w);
    }
    MulNonNeg(d, w);
    DivUnique(key, 16 * w, q2, d * w + r);
  }

  /** The entries of `s` whose digit `p` is `d`, in their order in `s`. */
  function Bucket(s: seq<Entry>, p: nat, d: nat): (b: seq<Entry>)
    ensures |b| <= |s|
  {
    if s == [] then []
    else (if Digit(s[0].key, p) == d then [s[0]] else []) + Bucket(s[1..], p, d)
  }

  /** Buckets 0, 1, ..., n-1, one after another. */
  function Buckets(s: seq<Entry>, p: nat, n: nat): seq<Entry>
  {
    if n == 0 then [] else Buckets(s, p, n - 1) + Bucket(s, p, n - 1)
  }

  /** A bucket holds entries of `s` with digit `d` only. */
  lemma {:induction false} BucketMembers(s: seq<Entry>, p: nat, d: nat)
    ensures forall e :: e in Bucket(s, p, d) ==> e in s && Digit(e.key, p) == d
  {
    if s != [] {
      BucketMembers(s[1..], p, d);
    }
  }

  /** The first `n` buckets hold entries of `s` with digit below `n` only. */
  lemma {:induction false} BucketsMembers(s: seq<Entry>, p: nat, n: nat)
    ensures forall e :: e in Buckets(s, p, n) ==> e in s && Digit(e.key, p) < n
  {
    if n > 0 {
      BucketMembers(s, p, n - 1);
      BucketsMembers(s, p, n - 1);
    }
  }

  /** One radix pass over digit `p`: all sixteen buckets. */
  function RadixPass(s: seq<Entry>, p: nat): seq<Entry>
  {
    RadixConstants();
    Buckets(s, p, RADIX_NUM_BUCKETS)
  }

  /** Passes 0 .. passes-1, in order. */
  function RadixSort(s: seq<Entry>, passes: nat): seq<Entry>
  {
    if passes == 0 then s else RadixPass(RadixSort(s, passes - 1), passes - 1)
  }

  /** The entries whose digit `p` is below `n`, in their order in `s`. */
  function Below(s: seq<Entry>, p: nat, n: nat): seq<Entry>
  {
    if s == [] then []
    else (if Digit(s[0].key, p) < n then [s[0]] else []) + Below(s[1..], p, n)
  }

  /** The entries below digit `n + 1` are those below `n` and those in bucket `n`. */
  lemma {:induction false} BelowSplit(s: seq<Entry>, p: nat, n: nat)
    ensures multiset(Below(s, p, n + 1)) == multiset(Below(s, p, n)) + multiset(Bucket(s, p, n))
  {
    if s != [] {
      BelowSplit(s[1..], p, n);
    }
  }

  /** No digit is below 0, and every digit is below the bucket count. */
  lemma {:induction false} BelowEnds(s: seq<Entry>, p: nat)
    ensures Below(s, p, 0) == []
    ensures Below(s, p, RADIX_NUM_BUCKETS) == s
  {
    RadixConstants();
    if s != [] {
      BelowEnds(s[1..], p);
      assert s == [s[0]] + s[1..];
    }
  }

  /** The first `n` buckets together hold exactly the entries whose digit is below `n`. */
  lemma {:induction false} BucketsPermute(s: seq<Entry>, p: nat, n: nat)
    ensures multiset(Buckets(s, p, n)) == multiset(Below(s, p, n))
  {
    if n == 0 {
      BelowEnds(s, p);
    } else {
      BucketsPermute(s, p, n - 1);
      BelowSplit(s, p, n - 1);
    }
  }

  /** A pass only reorders: it keeps every entry, as often as it occurs. */
  lemma RadixPassPermutes(s: seq<Entry>, p: nat)
    ensures multiset(RadixPass(s, p)) == multiset(s)
  {
    BucketsPermute(s, p, RADIX_NUM_BUCKETS);
    BelowEnds(s, p);
  }

  /** Any number of passes only reorders the entries. */
  lemma {:induction false} RadixSortPermutes(s: seq<Entry>, passes: nat)
    ensures multiset(RadixSort(s, passes)) == multiset(s)
  {
    if passes > 0 {
      var before := RadixSort(s, passes - 1);
      RadixSortPermutes(s, passes - 1);
      RadixPassPermutes(before, passes - 1);
      assert RadixSort(s, passes) == RadixPass(before, passes - 1);
    }
  }

  /** The entries are in order of their lowest `p` digits. */
  predicate SortedBy(s: seq<Entry>, p: nat)
  {
    forall i, j :: 0 <= i < j < |s| ==> Low(s[i].key, p) <= Low(s[j].key, p)
  }

  /** A bucket keeps the order of `s`, so it inherits its sortedness. */
  lemma {:induction false} BucketSorted(s: seq<Entry>, p: nat, d: nat)
    requires SortedBy(s, p)
    ensures SortedBy(Bucket(s, p, d), p)
  {
    if s != [] {
      assert SortedBy(s[1..], p) by {
        forall i, j | 0 <= i < j < |s[1..]| ensures Low(s[1..][i].key, p) <= Low(s[1..][j].key, p) {
          assert s[1..][i] == s[i + 1] && s[1..][j] == s[j + 1];
        }
      }
      BucketSorted(s[1..], p, d);
      BucketMembers(s[1..], p, d);
      var rest := Bucket(s[1..], p, d);
      if Digit(s[0].key, p) == d {
        forall j | 0 <= j < |rest| ensures Low(s[0].key, p) <= Low(rest[j].key, p) {
          assert rest[j] in s[1..];
          var k :| 0 <= k < |s[1..]| && s[1..][k] == rest[j];
          assert s[k + 1] == rest[j];
        }
        assert Bucket(s, p, d) == [s[0]] + rest;
      }
    }
  }

  /** Within one bucket digit `p` is the same, so sorted by `p` digits means sorted by `p + 1`. */
  lemma BucketSortedNext(s: seq<Entry>, p: nat, d: nat)
    requires SortedBy(s, p)
    ensures SortedBy(Bucket(s, p, d), p + 1)
  {
    BucketSorted(s, p, d);
    BucketMembers(s, p, d);
    var b := Bucket(s, p, d);
    forall i, j | 0 <= i < j < |b| ensures Low(b[i].key, p + 1) <= Low(b[j].key, p + 1) {
      assert b[i] in b && b[j] in b;
      LowStep(b[i].key, p);
      LowStep(b[j].key, p);
    }
  }

  /** An entry with a smaller digit `p` has smaller lowest `p + 1` digits. */
  lemma DigitBelow(x: Entry, y: Entry, p: nat)
    requires Digit(x.key, p) < Digit(y.key, p)
    ensures Low(x.key, p + 1) < Low(y.key, p + 1)
  {
    LowStep(x.key, p);
    LowStep(y.key, p);
    MulMono(Digit(x.key, p), Digit(y.key, p), Pow16(p));
    MulNonNeg(Digit(y.key, p), Pow16(p));
  }

  /** Two sorted runs, the first entirely below the second, make a sorted run. */
  lemma ConcatSorted(a: seq<Entry>, b: seq<Entry>, p: nat)
    requires SortedBy(a, p) && SortedBy(b, p)
    requires forall x, y :: x in a && y in b ==> Low(x.key, p) <= Low(y.key, p)
    ensures SortedBy(a + b, p)
  {
    var r := a + b;
    forall i, j | 0 <= i < j < |r| ensures Low(r[i].key, p) <= Low(r[j].key, p) {
      if j < |a| {
        assert r[i] == a[i] && r[j] == a[j];
      } else if i >= |a| {
        assert r[i] == b[i - |a|] && r[j] == b[j - |a|];
      } else {
        assert r[i] == a[i] && r[j] == b[j - |a|];
      }
    }
  }

  /** Concatenating the buckets of a pass orders the entries by one more digit. */
  lemma {:induction false} BucketsSorted(s: seq<Entry>, p: nat, n: nat)
    requires SortedBy(s, p)
    ensures SortedBy(Buckets(s, p, n), p + 1)
  {
    if n > 0 {
      var front := Buckets(s, p, n - 1);
      var b := Bucket(s, p, n - 1);
      BucketsSorted(s, p, n - 1);
      BucketSortedNext(s, p, n - 1);
      BucketsMembers(s, p, n - 1);
      BucketMembers(s, p, n - 1);
      forall x, y | x in front && y in b ensures Low(x.key, p + 1) <= Low(y.key, p + 1) {
        DigitBelow(x, y, p);
      }
      ConcatSorted(front, b, p + 1);
    }
  }

  /** Each pass extends the sorted prefix of digits by one. */
  lemma {:induction false} RadixSortSortsDigits(s: seq<Entry>, passes: nat)
    ensures SortedBy(RadixSort(s, passes), passes)
  {
    if passes > 0 {
      RadixSortSortsDigits(s, passes - 1);
      BucketsSorted(RadixSort(s, passes - 1), passes - 1, RADIX_NUM_BUCKETS);
    }
  }

  /** Eight 4-bit digits cover the 32 bits of a key. */
  lemma Pow16Eight()
    ensures Pow16(8) == TWO_32
  {
    assert Pow16(8) == 16 * Pow16(7) == 256 * Pow16(6) == 4096 * Pow16(5) == 65536 * Pow16(4);
    assert Pow16(4) == 16 * Pow16(3) == 256 * Pow16(2) == 4096 * Pow16(1) == 65536;
  }

  /** Sorted by as many digits as the keys have means sorted by key. */
  lemma SortedByAllDigits(r: seq<Entry>, passes: nat)
    requires Pow16(passes) == TWO_32 && SortedBy(r, passes)
    requires forall i :: 0 <= i < |r| ==> r[i].key >= 0
    ensures forall i, j :: 0 <= i < j < |r| ==> r[i].key <= r[j].key
  {
    forall i, j | 0 <= i < j < |r| ensures r[i].key <= r[j].key {
      assert Low(r[i].key, passes) == r[i].key && Low(r[j].key, passes) == r[j].key;
    }
  }

  /** A permutation of entries with non-negative keys has non-negative keys. */
  lemma PermutedNonNegative(s: seq<Entry>, r: seq<Entry>)
    requires multiset(r) == multiset(s)
    requires forall i :: 0 <= i < |s| ==> s[i].key >= 0
    ensures forall i :: 0 <= i < |r| ==> r[i].key >= 0
  {
    forall i | 0 <= i < |r| ensures r[i].key >= 0 {
      assert r[i] in multiset(s);
    }
  }

  /** All eight passes sort the entries by key, when the keys are non-negative (the stub draws are). */
  lemma RadixSortSorts(s: seq<Entry>)
    requires forall i :: 0 <= i < |s| ==> s[i].key >= 0
    ensures var r := RadixSort(s, RADIX_NUM_PASSES);
      forall i, j :: 0 <= i < j < |r| ==> r[i].key <= r[j].key
  {
    var passes := RADIX_NUM_PASSES;
    RadixConstants();
    RadixSortSortsDigits(s, passes);
    RadixSortPermutes(s, passes);
    Pow16Eight();
    PermutedNonNegative(s, RadixSort(s, passes));
    SortedByAllDigits(RadixSort(s, passes), passes);
  }

  /** The two words of each entry, entry after entry: the key/value buffer's layout. */
  function Words(s: seq<Entry>): (kv: seq<Int32>)
    ensures |kv| == 2 * |s|
    ensures forall i :: 0 <= i < |s| ==> Index(kv, i) == s[i].index && Key(kv, i) == s[i].key
  {
    if s == [] then [] else Words(s[..|s| - 1]) + [s[|s| - 1].index, s[|s| - 1].key]
  }

  /** Entry `i` of the stub layout: index `i` and the `i`-th draw. */
  predicate IsStub(s: seq<Entry>)
  {
    forall i :: 0 <= i < |s| ==> s[i].index == i && s[i].key >= 0
  }

  /** An entry that occurs at two places occurs at least twice in the multiset. */
  lemma TwiceInMultiset(s: seq<Entry>, i: nat, j: nat)
    requires i < j < |s| && s[i] == s[j]
    ensures multiset(s)[s[i]] >= 2
  {
    assert s == s[..j] + [s[j]] + s[j + 1..];
    assert s[i] in s[..j];
  }

  /** In the stub layout every entry occurs once. */
  lemma {:induction false} StubOnce(s: seq<Entry>, e: Entry)
    requires IsStub(s) && e in s
    ensures multiset(s)[e] == 1
  {
    var k := |s| - 1;
    assert s == s[..k] + [s[k]];
    assert IsStub(s[..k]);
    if e == s[k] {
      assert e !in s[..k];
    } else {
      StubOnce(s[..k], e);
    }
  }

  /**
   * The reference sort of a stub layout passes the corrected read-back
   * check: the keys come out sorted and the indices are a permutation.
   */
  lemma RadixSortOfStubPassesCheck(s: seq<Entry>)
    requires IsStub(s)
    ensures var r := RadixSort(s, RADIX_NUM_PASSES); |r| == |s| && SortedPermutation(Words(r), |s|)
  {
    var r := RadixSort(s, RADIX_NUM_PASSES);
    RadixSortPermutes(s, RADIX_NUM_PASSES);
    RadixSortSorts(s);
    assert |r| == |multiset(r)| == |multiset(s)| == |s|;
    var kv := Words(r);
    forall i | 0 <= i < |r| ensures 0 <= Index(kv, i) < |s| && r[i] == s[r[i].index] {
      assert r[i] in multiset(s);
    }
    forall i, j | 0 <= i < j < |r| ensures Index(kv, i) != Index(kv, j) {
      if r[i].index == r[j].index {
        assert r[i] == r[j];
        TwiceInMultiset(r, i, j);
        assert r[i] in multiset(s);
        StubOnce(s, r[i]);
      }
    }
  }
}
