/** How `ImageBatcher` counts, trims and slices its image list into batches. */
module Partition {
  import opened PyOps
  import opened Arith

  /** `1 + int((num_images - 1) / batch_size)`: the number of batches. */
  function NumBatches(numImages: int, batchSize: int): int
    requires batchSize != 0
  {
    1 + TruncDiv(numImages - 1, batchSize)
  }

  /** `[images[i * b:(i + 1) * b] for i in range(count)]`: contiguous slices of the list. */
  function Batches<T>(images: seq<T>, b: int, count: int): (bs: seq<seq<T>>)
    ensures |bs| == if count < 0 then 0 else count
  {
    seq(if count < 0 then 0 else count, i => Slice(images, i * b, (i + 1) * b))
  }

  /** `batch_size * (num_images // batch_size)`: the image count exact batching keeps. */
  function ExactCount(numImages: int, batchSize: int): int
    requires batchSize != 0
  {
    batchSize * FloorDiv(numImages, batchSize)
  }

  /** The concatenation of a list of lists, in order. */
  function Flatten<T>(ss: seq<seq<T>>): seq<T> {
    if |ss| == 0 then [] else Flatten(ss[..|ss| - 1]) + ss[|ss| - 1]
  }

  /** For at least one image and a positive batch size, the count is ceil(num_images / batch_size). */
  lemma NumBatchesIsCeiling(n: int, b: int)
    requires n >= 1 && b >= 1
    ensures NumBatches(n, b) == (n + b - 1) / b
    ensures NumBatches(n, b) >= 1
    ensures (NumBatches(n, b) - 1) * b < n <= NumBatches(n, b) * b
  {
    var q := (n - 1) / b;
    assert q * b + (n - 1) % b == n - 1;
    assert NumBatches(n, b) == q + 1;
    assert (q + 1) * b == q * b + b;
    DivIsUnique(n + b - 1, b, q + 1);
  }

  /** The first `m` batches concatenate to the first `m * b` images (or all of them). */
  lemma {:induction false} FlattenPrefix<T>(images: seq<T>, b: int, m: nat)
    requires b >= 1 && (m - 1) * b < |images|
    ensures Flatten(Batches(images, b, m)) == images[..if m * b < |images| then m * b else |images|]
  {
    if m > 0 {
      var n, lo := |images|, (m - 1) * b;
      var hi := if m * b < n then m * b else n;
      var bs := Batches(images, b, m);
      PrefixStep(b, m, n);
      assert Flatten(bs[..m - 1]) == images[..lo] by {
        BatchesSnoc(images, b, m);
        FlattenPrefix(images, b, m - 1);
      }
      assert bs[m - 1] == images[lo..hi] by {
        BatchesSnoc(images, b, m);
      }
      PrefixThenSlice(images, lo, hi);
      assert Flatten(bs) == Flatten(bs[..m - 1]) + bs[m - 1];
    }
  }

  lemma PrefixThenSlice<T>(s: seq<T>, lo: int, hi: int)
    requires 0 <= lo <= hi <= |s|
    ensures s[..lo] + s[lo..hi] == s[..hi]
  {
  }

  lemma PrefixStep(b: int, m: int, n: int)
    requires b >= 1 && m >= 1 && (m - 1) * b < n
    ensures 0 <= (m - 1) * b && m * b == (m - 1) * b + b && (m - 1 - 1) * b == (m - 1) * b - b
  {
    MulNonneg(m - 1, b);
  }

  /** `m` batches are the first `m - 1` followed by the slice that starts at `(m - 1) * b`. */
  lemma BatchesSnoc<T>(images: seq<T>, b: int, m: int)
    requires m >= 1
    ensures Batches(images, b, m)[..m - 1] == Batches(images, b, m - 1)
    ensures Batches(images, b, m)[m - 1] == Slice(images, (m - 1) * b, m * b)
  {
  }

  lemma BatchIsSlice<T>(images: seq<T>, b: int, k: int, i: int)
    requires 0 <= i < k
    ensures Batches(images, b, k)[i] == Slice(images, i * b, (i + 1) * b)
  {
  }

  /** Where batch `i` of `k` starts and ends, when `k` batches of `b` are just enough for `n` images. */
  lemma BatchBounds(b: int, k: int, i: int, n: int)
    requires b >= 1 && 0 <= i < k && (k - 1) * b < n <= k * b
    ensures 0 <= i * b < n && (i + 1) * b == i * b + b
    ensures i < k - 1 ==> (i + 1) * b <= n
    ensures i == k - 1 ==> n <= (i + 1) * b
  {
    MulNonneg(i, b);
    MulLeMono(i, k - 1, b);
    if i < k - 1 {
      MulLeMono(i + 1, k - 1, b);
    }
  }

  /** Batch `i` of `k` starts at `i * b` and is full, except that the last one stops at the end of the list. */
  lemma BatchAt<T>(images: seq<T>, b: int, k: int, i: int)
    requires b >= 1 && 0 <= i < k && (k - 1) * b < |images| <= k * b
    ensures i * b + |Batches(images, b, k)[i]| <= |images|
    ensures Batches(images, b, k)[i] == images[i * b..i * b + |Batches(images, b, k)[i]|]
    ensures i < k - 1 ==> |Batches(images, b, k)[i]| == b
    ensures i == k - 1 ==> |Batches(images, b, k)[i]| == |images| - i * b
  {
    BatchIsSlice(images, b, k, i);
    BatchBounds(b, k, i, |images|);
  }

  /**
   * The batches partition the image list: concatenated they give the list back, all but the
   * last hold `batch_size` images, and the last holds the rest, between 1 and `batch_size`.
   */
  lemma BatchesPartition<T>(images: seq<T>, b: int, k: int)
    requires |images| >= 1 && b >= 1 && k == NumBatches(|images|, b)
    ensures k >= 1 && |Batches(images, b, k)| == k
    ensures Flatten(Batches(images, b, k)) == images
    ensures forall i :: 0 <= i < k - 1 ==> |Batches(images, b, k)[i]| == b
    ensures |Batches(images, b, k)[k - 1]| == |images| - (k - 1) * b
    ensures 1 <= |Batches(images, b, k)[k - 1]| <= b
    ensures forall i :: 0 <= i < k ==> |Batches(images, b, k)[i]| >= 1
  {
    var n := |images|;
    NumBatchesIsCeiling(n, b);
    FlattenPrefix(images, b, k);
    assert images[..n] == images;
    assert k * b == (k - 1) * b + b;
    forall i | 0 <= i < k
      ensures i < k - 1 ==> |Batches(images, b, k)[i]| == b
      ensures i == k - 1 ==> |Batches(images, b, k)[i]| == n - (k - 1) * b
    {
      BatchAt(images, b, k, i);
    }
  }

  /** The partition facts together with the ceiling count and, for a multiple of `b`, full batches throughout. */
  lemma BatchesOfCount<T>(images: seq<T>, n: int, b: int, k: int)
    requires n == |images| >= 1 && b >= 1 && k == NumBatches(n, b)
    ensures k == (n + b - 1) / b
    ensures |Batches(images, b, k)| == k >= 1 && Flatten(Batches(images, b, k)) == images
    ensures forall i :: 0 <= i < k - 1 ==> |Batches(images, b, k)[i]| == b
    ensures 1 <= |Batches(images, b, k)[k - 1]| <= b
    ensures n % b == 0 ==> forall bt :: bt in Batches(images, b, k) ==> |bt| == b
  {
    NumBatchesIsCeiling(n, b);
    BatchesPartition(images, b, k);
    if n % b == 0 {
      ExactBatchesAreFull(images, b, k);
    }
  }

  /** No batch is empty and none holds more than `b` images. */
  lemma BatchFits<T>(images: seq<T>, b: int, k: int, i: int)
    requires |images| >= 1 && b >= 1 && k == NumBatches(|images|, b) && 0 <= i < k
    ensures 1 <= |Batches(images, b, k)[i]| <= b
  {
    BatchesPartition(images, b, k);
  }

  /**
   * Exact batching keeps the largest multiple of the batch size that fits, and keeps none
   * exactly when there are fewer images than one batch.
   */
  lemma ExactCountIsLargestMultiple(n: int, b: int)
    requires n >= 0 && b >= 1
    ensures ExactCount(n, b) % b == 0
    ensures ExactCount(n, b) == b * (n / b)
    ensures 0 <= ExactCount(n, b) <= n < ExactCount(n, b) + b
    ensures ExactCount(n, b) < 1 <==> n < b
  {
    var q := n / b;
    assert q * b + n % b == n;
    var m := q * b;
    assert ExactCount(n, b) == m;
    DivIsUnique(m, b, q);
    assert m % b == 0 by { assert (m / b) * b + m % b == m; }
    if n < b {
      DivIsUnique(n, b, 0);
    } else {
      assert q != 0;
      MulLeMono(1, q, b);
    }
    MulNonneg(q, b);
  }

  /** With a negative batch size, floor division rounds the kept count up: it is never below the image count. */
  lemma ExactCountWithNegativeSize(n: int, b: int)
    requires b < 0
    ensures ExactCount(n, b) >= n
  {
    var q := FloorDiv(n, b);
    assert ExactCount(n, b) == q * b;
  }

  lemma ExactNumBatches(n: int, b: int)
    requires n >= 1 && b >= 1 && n % b == 0
    ensures NumBatches(n, b) == n / b
    ensures (NumBatches(n, b) - 1) * b == n - b
  {
    var q := n / b;
    assert n == q * b by { assert q * b + n % b == n; }
    NumBatchesIsCeiling(n, b);
    DivIsUnique(n + b - 1, b, q);
    assert (q - 1) * b == q * b - b;
  }

  /** When the count is a multiple of the batch size, there are count / b batches and every one is full. */
  lemma ExactBatchesAreFull<T>(images: seq<T>, b: int, k: int)
    requires |images| >= 1 && b >= 1 && |images| % b == 0 && k == NumBatches(|images|, b)
    ensures k == |images| / b
    ensures forall bt :: bt in Batches(images, b, k) ==> |bt| == b
  {
    ExactNumBatches(|images|, b);
    BatchesPartition(images, b, k);
    forall bt | bt in Batches(images, b, k)
      ensures |bt| == b
    {
      var i :| 0 <= i < k && Batches(images, b, k)[i] == bt;
    }
  }
}
