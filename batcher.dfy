/**
 * `ImageBatcher`: built once from an input path and a batch shape, it holds the resolved
 * image list cut into batches, and yields each batch as a zero-filled buffer with one
 * preprocessed sample per image, the batch's paths and one transform record per path.
 */
module Batcher {
  import opened Errors
  import opened PyOps
  import opened Layout
  import opened Partition
  import opened Resolver

  /** What `_find_images` and `_handle_exact_batches` leave in `images` and `num_images`, or the error raised on the way. */
  function Construction(node: Node, input: Path, shape: Shape, exact: bool, shuffle: bool, pick: nat -> nat)
    : Result<(seq<Path>, int)>
    requires RandBelow(pick)
  {
    match Resolution(node, input, shuffle, pick)
    case Err(e) => Err(e)
    case Ok(images) =>
      if shape.n == 0 then Err(ZeroBatchSize)
      else if !exact then Ok((images, |images|))
      else
        var kept := ExactCount(|images|, shape.n);
        if kept < 1 then Err(NotEnoughImages) else Ok((Slice(images, 0, kept), kept))
  }

  /**
   * Construction fails with the resolver's error, with a zero-division error for a zero batch
   * size, or, in exact mode, with "not enough images" exactly when fewer images than one batch
   * were found.
   */
  lemma ConstructionErrors(node: Node, input: Path, shape: Shape, exact: bool, shuffle: bool, pick: nat -> nat)
    requires RandBelow(pick)
    ensures Resolution(node, input, shuffle, pick).Err? ==>
              Construction(node, input, shape, exact, shuffle, pick) == Err(Resolution(node, input, shuffle, pick).error)
    ensures Construction(node, input, shape, exact, shuffle, pick) == Err(ZeroBatchSize) <==>
              Resolution(node, input, shuffle, pick).Ok? && shape.n == 0
    ensures Construction(node, input, shape, exact, shuffle, pick) == Err(NotEnoughImages) <==>
              exact && Resolution(node, input, shuffle, pick).Ok? && 0 < shape.n &&
              |Resolution(node, input, shuffle, pick).value| < shape.n
    ensures Construction(node, input, shape, exact, shuffle, pick).Ok? <==>
              Resolution(node, input, shuffle, pick).Ok? && shape.n != 0 &&
              !(exact && 0 < shape.n && |Resolution(node, input, shuffle, pick).value| < shape.n)
  {
    ResolutionErrors(node, input, shuffle, pick);
    var res := Resolution(node, input, shuffle, pick);
    if res.Ok? && exact {
      var n := |res.value|;
      if shape.n > 0 {
        ExactCountIsLargestMultiple(n, shape.n);
      } else if shape.n < 0 {
        ExactCountWithNegativeSize(n, shape.n);
      }
    }
  }

  /**
   * A successful construction holds at least one image. Without exact batching it holds the
   * resolved list; with it, and a positive batch size, it holds the prefix of the resolved
   * list whose length is the largest multiple of the batch size that fits.
   */
  lemma ConstructedImages(node: Node, input: Path, shape: Shape, exact: bool, shuffle: bool, pick: nat -> nat)
    requires RandBelow(pick)
    requires Construction(node, input, shape, exact, shuffle, pick).Ok?
    ensures Resolution(node, input, shuffle, pick).Ok?
    ensures Construction(node, input, shape, exact, shuffle, pick).value.1 >= 1
    ensures !exact ==> Construction(node, input, shape, exact, shuffle, pick).value ==
                         (Resolution(node, input, shuffle, pick).value, |Resolution(node, input, shuffle, pick).value|)
    ensures exact && shape.n > 0 ==>
              var (images, n) := Construction(node, input, shape, exact, shuffle, pick).value;
              var resolved := Resolution(node, input, shuffle, pick).value;
              n % shape.n == 0 && n == shape.n * (|resolved| / shape.n) && n <= |resolved| &&
              images == resolved[..n]
  {
    ResolutionErrors(node, input, shuffle, pick);
    var resolved := Resolution(node, input, shuffle, pick).value;
    if exact && shape.n > 0 {
      ExactCountIsLargestMultiple(|resolved|, shape.n);
    }
  }

  /** The worked example: five images in batches of two give batches of 2, 2 and 1, or, in exact mode, four images in two full batches. */
  lemma FiveImagesInPairs<T>(images: seq<T>)
    requires |images| == 5
    ensures NumBatches(5, 2) == 3
    ensures |Batches(images, 2, 3)[0]| == 2 && |Batches(images, 2, 3)[1]| == 2 && |Batches(images, 2, 3)[2]| == 1
    ensures ExactCount(5, 2) == 4 && NumBatches(4, 2) == 2
    ensures |Batches(images[..4], 2, 2)[0]| == 2 && |Batches(images[..4], 2, 2)[1]| == 2
  {
    BatchesPartition(images, 2, 3);
    BatchesPartition(images[..4], 2, 2);
  }

  /** One element the iteration yields: the batch buffer's slots, the batch's paths, and one record per path. */
  datatype Yield<S, R> = Yield(data: seq<S>, paths: seq<Path>, records: seq<R>)

  /**
   * The yield for `batch` is right: the buffer has one slot per batch position; slot `i` holds
   * the sample preprocessed from `batch[i]`, and every slot past the batch's end keeps the
   * zero it was allocated with; the paths are the batch, and the records follow it in order.
   */
  ghost predicate Assembled<S, R>(y: Yield<S, R>, batch: seq<Path>, size: int, zero: S, pre: Path -> (S, R)) {
    |y.data| == size && |batch| <= size && y.paths == batch && |y.records| == |batch| &&
    (forall i :: 0 <= i < |batch| ==> y.data[i] == pre(batch[i]).0 && y.records[i] == pre(batch[i]).1) &&
    (forall i :: |batch| <= i < size ==> y.data[i] == zero)
  }

  /** `np.zeros(shape)` raises for a shape with a negative dimension. */
  /** Appending the yield for the next batch keeps every yield so far assembled from its batch. */
  lemma AssembledAppend<S, R>(out: seq<Yield<S, R>>, y: Yield<S, R>, batches: seq<seq<Path>>, size: int, zero: S, pre: Path -> (S, R))
    requires |out| < |batches|
    requires forall i :: 0 <= i < |out| ==> Assembled(out[i], batches[i], size, zero, pre)
    requires Assembled(y, batches[|out|], size, zero, pre)
    ensures forall i :: 0 <= i < |out| + 1 ==> Assembled((out + [y])[i], batches[i], size, zero, pre)
  {
  }

  predicate HasNegativeDimension(shape: Shape) {
    shape.n < 0 || shape.d1 < 0 || shape.d2 < 0 || shape.d3 < 0
  }

  class ImageBatcher {
    var images: seq<Path>
    var numImages: int
    var shape: Shape
    var batchSize: int
    var width: int
    var height: int
    var numBatches: int
    var batches: seq<seq<Path>>

    /** The state `__init__` leaves behind when it returns. */
    ghost predicate Valid()
      reads this
    {
      numImages >= 1 && batchSize == shape.n && batchSize != 0 &&
      (batchSize > 0 ==> numImages == |images|) &&
      (width, height) == HandleTensorShape(shape) &&
      numBatches == NumBatches(numImages, batchSize) &&
      batches == Batches(images, batchSize, numBatches)
    }

    /** The first assignments of `__init__`: the resolved list, its length, the shape and the batch size it starts with. */
    constructor (images: seq<Path>, shape: Shape)
      ensures this.images == images && numImages == |images|
      ensures this.shape == shape && batchSize == shape.n
    {
      this.images := images;
      numImages := |images|;
      this.shape := shape;
      batchSize := shape.n;
    }

    /**
     * What a built batcher promises: `num_batches` is the ceiling of `num_images / batch_size`,
     * the batches concatenate to `images`, all but the last are full and none is empty; in
     * exact mode every batch is full. The requires are the conjuncts of `Valid()` it uses.
     */
    lemma BatchesOfValid()
      requires numImages == |images| >= 1 && batchSize >= 1
      requires numBatches == NumBatches(numImages, batchSize) && batches == Batches(images, batchSize, numBatches)
      ensures numBatches == (numImages + batchSize - 1) / batchSize
      ensures |batches| == numBatches >= 1 && Flatten(batches) == images
      ensures forall k :: 0 <= k < numBatches - 1 ==> |batches[k]| == batchSize
      ensures 1 <= |batches[numBatches - 1]| <= batchSize
      ensures numImages % batchSize == 0 ==> forall bt :: bt in batches ==> |bt| == batchSize
    {
      BatchesOfCount(images, numImages, batchSize, numBatches);
    }

    /** `_handle_exact_batches`: trims the list to a whole number of batches, raising when none is left. */
    method HandleExactBatches(exact: bool) returns (outcome: Outcome)
      requires numImages == |images|
      modifies this`numImages, this`images
      ensures !exact ==> outcome == Pass && numImages == old(numImages) && images == old(images)
      ensures exact && batchSize == 0 ==> outcome == Fail(ZeroBatchSize) && unchanged(this)
      ensures exact && batchSize != 0 ==> numImages == ExactCount(old(numImages), batchSize)
      ensures exact && batchSize != 0 ==> outcome == if numImages < 1 then Fail(NotEnoughImages) else Pass
      ensures exact && outcome.Pass? ==> images == Slice(old(images), 0, numImages)
      ensures exact && outcome.Fail? ==> images == old(images)
    {
      if exact {
        if batchSize == 0 {
          return Fail(ZeroBatchSize);
        }
        numImages := batchSize * FloorDiv(numImages, batchSize);
        if numImages < 1 {
          return Fail(NotEnoughImages);
        }
        images := Slice(images, 0, numImages);
      }
      return Pass;
    }

    /** The end of `__init__`: width and height from the shape, then the count of batches and the batches themselves. */
    method Subdivide()
      requires numImages >= 1 && batchSize == shape.n && batchSize != 0
      requires batchSize > 0 ==> numImages == |images|
      modifies this`width, this`height, this`numBatches, this`batches
      ensures Valid()
    {
      width, height := HandleTensorShape(shape).0, HandleTensorShape(shape).1;
      numBatches := NumBatches(numImages, batchSize);
      batches := Batches(images, batchSize, numBatches);
    }

    /**
     * The body of `__iter__` for one batch: a zero buffer of the full batch size, the batch's
     * images preprocessed in order (the thread pool's `map` keeps input order), then each
     * result copied into its slot and its record appended.
     */
    method AssembleBatch<S, R>(batch: seq<Path>, zero: S, pre: Path -> (S, R)) returns (data: array<S>, records: seq<R>)
      requires 0 <= |batch| <= batchSize
      ensures fresh(data)
      ensures Assembled(Yield(data[..], batch, records), batch, batchSize, zero, pre)
    {
      data := new S[batchSize](_ => zero);
      var results: seq<(S, R)> := [];
      var j := 0;
      while j < |batch|
        invariant 0 <= j <= |batch| && |results| == j
        invariant forall i :: 0 <= i < j ==> results[i] == pre(batch[i])
      {
        results := results + [pre(batch[j])];
        j := j + 1;
      }
      records := [];
      var idx := 0;
      while idx < |results|
        invariant 0 <= idx <= |results| && |records| == idx
        invariant forall i :: 0 <= i < idx ==> data[i] == results[i].0 && records[i] == results[i].1
        invariant forall i :: idx <= i < data.Length ==> data[i] == zero
      {
        data[idx] := results[idx].0;
        records := records + [results[idx].1];
        idx := idx + 1;
      }
    }

    /**
     * `__iter__` run to the end: one yield per batch, in order, each assembled from its batch;
     * the very first batch raises instead when the shape has a negative dimension.
     */
    method Iterate<S, R>(zero: S, pre: Path -> (S, R)) returns (r: Result<seq<Yield<S, R>>>)
      requires Valid()
      ensures r.Err? <==> |batches| >= 1 && HasNegativeDimension(shape)
      ensures r.Err? ==> r.error == NegativeDimension
      ensures r.Ok? ==> |r.value| == |batches|
      ensures r.Ok? ==> forall k :: 0 <= k < |batches| ==> Assembled(r.value[k], batches[k], batchSize, zero, pre)
    {
      var out: seq<Yield<S, R>> := [];
      var k := 0;
      while k < |batches|
        invariant 0 <= k <= |batches| && |out| == k
        invariant k > 0 ==> !HasNegativeDimension(shape)
        invariant forall i :: 0 <= i < k ==> Assembled(out[i], batches[i], batchSize, zero, pre)
      {
        if HasNegativeDimension(shape) {
          return Err(NegativeDimension);
        }
        assert batchSize >= 1 && numImages == |images|;
        BatchFits(images, batchSize, numBatches, k);
        var data, records := AssembleBatch(batches[k], zero, pre);
        AssembledAppend(out, Yield(data[..], batches[k], records), batches, batchSize, zero, pre);
        out := out + [Yield(data[..], batches[k], records)];
        k := k + 1;
      }
      return Ok(out);
    }
  }

  /**
   * `ImageBatcher(input_path, shape, dtype, exact_batches, shuffle_files)`: resolves the
   * images, trims them for exact batching, reads width and height off the shape, and cuts the
   * list into batches; any of the errors on the way is returned instead of an object.
   */
  method Open(node: Node, input: Path, shape: Shape, exact: bool, shuffle: bool, pick: nat -> nat)
    returns (r: Result<ImageBatcher>)
    requires RandBelow(pick)
    ensures r.Err? <==> Construction(node, input, shape, exact, shuffle, pick).Err?
    ensures r.Err? ==> r.error == Construction(node, input, shape, exact, shuffle, pick).error
    ensures r.Ok? ==> fresh(r.value) && r.value.Valid() && r.value.shape == shape
    ensures r.Ok? ==> (r.value.images, r.value.numImages) == Construction(node, input, shape, exact, shuffle, pick).value
  {
    var found := FindImages(node, input, shuffle, pick);
    if found.Err? {
      return Err(found.error);
    }
    var images := found.value;
    // The constructor's own emptiness check never fires: resolution already refused an empty list.
    assert |images| >= 1 by {
      ResolutionErrors(node, input, shuffle, pick);
    }
    var b := new ImageBatcher(images, shape);
    var outcome := b.HandleExactBatches(exact);
    if outcome.Fail? {
      return Err(outcome.error);
    }
    if b.batchSize == 0 {
      return Err(ZeroBatchSize);
    }
    if b.batchSize > 0 && exact {
      assert b.numImages <= |images| by {
        ExactCountIsLargestMultiple(|images|, b.batchSize);
      }
    }
    b.Subdivide();
    return Ok(b);
  }
}
