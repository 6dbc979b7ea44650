# ImageBatcher, modelled in Dafny

This project models the bookkeeping core of `ImageBatcher` (python/infer/batcher.py), the
class that feeds an inference engine with batches of images. Given an input path and a batch
shape `(N, D1, D2, D3)`, the batcher:

- resolves the input into an ordered list of image paths, optionally shuffled;
- optionally trims that list to a whole number of batches ("exact batches");
- reads the target width and height off the shape;
- cuts the list into contiguous batches of `N`;
- yields, for each batch, a zero-filled buffer of `N` slots holding one preprocessed sample
  per image, the batch's paths, and one transform record per image.

The model keeps the source's own form:

- Pure parts are Dafny functions. These are the batch count, the slicing comprehension, the
  layout inference, the extension test and `sorted`.
- Parts that change state are imperative Dafny. `ImageBatcher` is a class with the source's
  fields. `_handle_exact_batches` is a method that reassigns `numImages` and `images`.
  `random.shuffle` is an in-place loop over an array. One step of `__iter__` fills an array
  buffer slot by slot in a loop.
- The constructor's error paths (`ValueError`, `ZeroDivisionError`) are `Result` values.

Modules, one per concern:

- `Errors` (errors.dfy): the exceptions the batcher raises, and `Result` / `Outcome`.
- `PyOps` (pyops.dfy): Python's `//`, `int(a / b)` and clamped slicing `s[lo:hi]`.
- `Arith` (arith.dfy): multiplication and division facts used by the proofs.
- `Names` (names.dfy): `PurePath.suffix`, `str.lower` and the four recognised extensions.
- `Ordering` (ordering.dfy): Python string order, and `sorted` as an insertion sort.
- `Resolver` (resolver.dfy): `_find_images`. The filesystem is a value of type `Node`. The
  shuffle's random draws are a parameter.
- `Layout` (layout.dfy): `_handle_tensor_shape`.
- `Partition` (partition.dfy): batch count, slicing and exact-batch trimming.
- `Batcher` (batcher.dfy): the `ImageBatcher` class, construction (`Open`) and iteration.

Modelling notes:

- A path is the list of its parts. A directory's candidates are `root + [name]`, and
  `PurePath` compares parts lists (case-sensitively on POSIX). Candidates with a common parent
  therefore sort by name, in code point order.
- `sorted` is modelled by an insertion sort. `Ordering.SortedUnique` proves that a sorted
  rearrangement is unique, so any correct sorting algorithm gives the same list.
- `random.shuffle` is its Fisher-Yates loop, run from the last index down. At step `i`,
  `pick(i)` is the value that `randbelow(i + 1)` returned. The only promise about it is
  `pick(i) <= i`.
- The batch size is `shape[0]`, kept as an unbounded integer with Python's semantics. Zero
  raises `ZeroDivisionError` at line 140 in exact mode, or at line 80 otherwise. A negative
  size goes through construction the way Python computes it. `np.zeros` then rejects it when
  the first batch is produced. The partition properties are stated for sizes of at least 1.
- The check at lines 70-71 can never fire, because `_find_images` has already refused an
  empty list. `Batcher.Open` asserts this at the point of the check.
- With a zero batch size and no exact batching, `Batcher.Open` returns the zero-division
  error before it sets width and height, while the code sets them first and raises at line 80.
  The half-built object is discarded either way, so the difference cannot be observed.
- The class docstring (python/infer/batcher.py:44) calls the shape NCHW, but
  `_handle_tensor_shape` (lines 152-161) accepts both layouts and rejects none. The model
  follows the code:
  - A shape whose axes 1 and 3 both have size 3 is read as NCHW (`Layout.ChannelFirstWins`).
  - A shape with neither axis of size 3 is not rejected. Width and height stay at the
    sentinel `(-1, -1)`, and construction goes on.
  - A shape `(N, H, W, 3)` gives `(W, H)` only when `H != 3` (`Layout.ChannelLast`).

## Model

| member | source | states |
|---|---|---|
| PyOps.FloorDiv | python/infer/batcher.py:140 | `n // b` is the floor of the quotient: `q*b <= n < q*b + b` for a positive divisor, mirrored for a negative one |
| PyOps.TruncDiv | python/infer/batcher.py:80 | `int((n - 1) / b)` truncates towards zero for every sign: its magnitude is the largest `m` with `m * abs(b) <= abs(a)`, its sign follows the operands' signs, and it equals floor division for non-negative operands |
| PyOps.Slice | python/infer/batcher.py:81 | a slice within bounds is the Dafny subsequence; past the end it stops at the end; an empty or reversed range gives `[]` |
| Names.Lower | python/infer/batcher.py:117 | `str.lower` keeps the length and lowers each character on its own; ASCII capitals map to their lower-case letter and every other character is unchanged |
| Names.IsImageName | python/infer/batcher.py:116-117 | the test `suffix.lower() in extensions`; `Names.ImageNameByEnding` states which names pass it |
| Names.RFind | python/infer/batcher.py:117 | `rfind` returns an index holding the character with none after it, or -1 when the character is absent |
| Names.Suffix | python/infer/batcher.py:117 | `suffix` is `name[i:]` when the last dot `i` has something before it and after it, and empty otherwise: a non-empty suffix is a tail of the name starting with its only dot |
| Names.ImageNameByEnding | python/infer/batcher.py:116-117 | a name passes `suffix.lower() in extensions` exactly when it ends, ignoring ASCII case, with `.jpg`, `.jpeg`, `.png` or `.bmp` and has at least one character before that ending |
| Ordering.NameLe | python/infer/batcher.py:119 | Python's `<=` on names, code point by code point with a proper prefix first; `Ordering.NameLeTotal`, `Ordering.NameLeTransitive` and `Ordering.NameLeAntisymmetric` prove it a total order |
| Ordering.Insert | python/infer/batcher.py:119 | inserting a name into a sorted list gives a sorted list with one more element and the name added to its multiset |
| Ordering.NameLeTotal | python/infer/batcher.py:119 | any two names are comparable by the order `sorted` uses |
| Ordering.NameLeTransitive | python/infer/batcher.py:119 | the order `sorted` uses is transitive |
| Ordering.NameLeAntisymmetric | python/infer/batcher.py:119 | names that are each at most the other are equal |
| Ordering.SortNames | python/infer/batcher.py:119 | `sorted` returns a sorted permutation of its input (same multiset, same length) |
| Ordering.SortedUnique | python/infer/batcher.py:119 | two sorted lists with the same multiset are equal, so the sorted order of the candidates is unique |
| Resolver.IsImage | python/infer/batcher.py:117 | the filter `is_file() and suffix.lower() in extensions` on one directory entry |
| Resolver.Candidates | python/infer/batcher.py:119 | the list before shuffling: `root / name` for the sorted image names of a directory, or the input path alone; `Resolver.ResolutionOfDirectory` and `Resolver.ResolvedPathsOfDirectory` state its contents |
| Resolver.Shuffled | python/infer/batcher.py:121-122 | what `random.shuffle` leaves for given draws has the same length and multiset as the list it was given |
| Resolver.Resolution | python/infer/batcher.py:102-127 | what `_find_images` returns or raises; `Resolver.ResolutionErrors`, `Resolver.ResolvedCountOfDirectory` and `Resolver.ShuffleIsPermutation` state its properties |
| Resolver.ResolvedCountOfDirectory | python/infer/batcher.py:116-125 | a directory resolves successfully exactly when it has an image entry, and then to one path per image entry, shuffled or not |
| Resolver.ImageNames | python/infer/batcher.py:117-119 | the filter keeps a name exactly when some entry is a regular file with that name and an image extension, and returns one name per image entry |
| Resolver.ShuffleInPlace | python/infer/batcher.py:121-122 | the in-place shuffle leaves the array holding the result of its sequence of swaps |
| Resolver.ShuffleStepsPermute | python/infer/batcher.py:121-122 | the swaps of the shuffle keep the length and the multiset of the list |
| Resolver.FindImages | python/infer/batcher.py:102-127 | `_find_images` returns, or raises, what `Resolver.Resolution` gives for every filesystem, input path, shuffle flag and draw sequence |
| Resolver.ResolutionErrors | python/infer/batcher.py:113-125 | resolution raises "not found" exactly for a missing path, raises "no image files" exactly for a directory without image entries, and otherwise returns at least one path |
| Resolver.ResolutionOfNonDirectory | python/infer/batcher.py:119 | an existing path that is not a directory resolves to itself alone, with no extension check, shuffled or not |
| Resolver.ResolutionOfDirectory | python/infer/batcher.py:116-119 | without shuffling, a directory resolves to the children named by the (unique) sorted rearrangement of its image names |
| Resolver.ResolvedPathsOfDirectory | python/infer/batcher.py:116-119 | without shuffling, a path is in a directory's resolution exactly when it is `root / name` for a regular-file entry with an image extension |
| Resolver.ShuffleIsPermutation | python/infer/batcher.py:121-125 | shuffling never changes whether resolution succeeds, and it returns a list of the same length and multiset as the sorted one |
| Layout.HandleTensorShape | python/infer/batcher.py:152-161 | `(width, height)` from the shape; `Layout.SizeFromAxes`, `Layout.ChannelFirst`, `Layout.ChannelLast`, `Layout.ChannelFirstWins` and `Layout.SentinelMeansNoChannelAxis` state its value |
| Layout.ChannelAxis | python/infer/batcher.py:154-157 | the channel axis is 1 whenever axis 1 has size 3, otherwise 3 if axis 3 has size 3; no axis exactly when neither has size 3 |
| Layout.SpatialAxes | python/infer/batcher.py:154-159 | once the channel axis is known, the spatial axes are the other two non-batch axes, height before width |
| Layout.SizeFromAxes | python/infer/batcher.py:152-161 | `_handle_tensor_shape` returns (size of the width axis, size of the height axis) of the inferred layout, and `(-1, -1)` when there is no channel axis |
| Layout.ChannelFirst | python/infer/batcher.py:154-156 | an NCHW shape `(N, 3, H, W)` gives `(W, H)` |
| Layout.ChannelLast | python/infer/batcher.py:157-159 | an NHWC shape `(N, H, W, 3)` gives `(W, H)` when `H != 3` |
| Layout.ChannelFirstWins | python/infer/batcher.py:154-159 | when axes 1 and 3 both have size 3 the shape is read as NCHW, so `(N, 3, W, 3)` does not give `(W, 3)` |
| Layout.SentinelMeansNoChannelAxis | python/infer/batcher.py:152-161 | for non-negative dimensions, the sentinel `(-1, -1)` comes back exactly when neither axis 1 nor axis 3 has size 3 |
| Partition.NumBatches | python/infer/batcher.py:80 | `1 + int((num_images - 1) / batch_size)`; `Partition.NumBatchesIsCeiling` and `Partition.ExactNumBatches` state its value |
| Partition.Batches | python/infer/batcher.py:81 | the comprehension `[images[i*b:(i+1)*b] for i in range(k)]` has `k` slices (none for a negative `k`); `Partition.BatchesPartition` states how they cut the list |
| Partition.ExactCount | python/infer/batcher.py:140 | `batch_size * (num_images // batch_size)`; `Partition.ExactCountIsLargestMultiple` and `Partition.ExactCountWithNegativeSize` state its value |
| Partition.NumBatchesIsCeiling | python/infer/batcher.py:80 | for at least one image and a positive batch size, `1 + int((n - 1) / b)` is `ceil(n / b)`: at least 1, with `(k - 1) * b < n <= k * b` |
| Partition.FlattenPrefix | python/infer/batcher.py:81 | the first `m` slices concatenate to the first `min(m * b, n)` images |
| Partition.BatchAt | python/infer/batcher.py:81 | batch `i` is the contiguous run of images starting at `i * b`: full for every batch but the last, which ends at the end of the list |
| Partition.BatchesPartition | python/infer/batcher.py:80-81 | the batches concatenate to the image list; all but the last have `b` images; the last has `n - (k - 1) * b`, between 1 and `b`; none is empty |
| Partition.BatchesOfCount | python/infer/batcher.py:80-81 | for `n >= 1` images and size `b >= 1`, the count is `(n + b - 1) / b`; the batches concatenate to the images, all but the last have `b` images, the last has between 1 and `b`, and when `b` divides `n` every batch has `b` |
| Partition.BatchFits | python/infer/batcher.py:80-81 | every batch holds between 1 and `b` images, so it fits the buffer |
| Partition.ExactCountIsLargestMultiple | python/infer/batcher.py:140-142 | exact batching keeps `b * (n // b)` images: a multiple of `b`, at most `n`, more than `n - b`, and below 1 exactly when `n < b` |
| Partition.ExactCountWithNegativeSize | python/infer/batcher.py:140-141 | with a negative batch size the kept count is never below the image count, so exact mode does not raise |
| Partition.ExactNumBatches | python/infer/batcher.py:80 | when `n` is a multiple of `b`, there are exactly `n / b` batches |
| Partition.ExactBatchesAreFull | python/infer/batcher.py:80-81 | when the image count is a multiple of the batch size, there are `n / b` batches and every one of them is full |
| Batcher.Construction | python/infer/batcher.py:67-80 | what the constructor leaves in `images` and `num_images`, or the error it raises; `Batcher.ConstructionErrors` and `Batcher.ConstructedImages` state both |
| Batcher.ConstructionErrors | python/infer/batcher.py:67-80 | construction passes on the resolver's error; it fails with zero division exactly when the batch size is 0; in exact mode it fails with "not enough images" exactly when fewer images than one batch were found; it succeeds in every other case |
| Batcher.ConstructedImages | python/infer/batcher.py:67-76 | a built batcher holds at least one image: the resolved list without exact mode, and in exact mode with a positive size the prefix of length `b * (n // b)`, a multiple of `b` |
| Batcher.FiveImagesInPairs | python/infer/batcher.py:80-81 | five images in batches of two give batches of sizes 2, 2, 1; exact mode keeps four, in two batches of 2 |
| Batcher.ImageBatcher.constructor | python/infer/batcher.py:67-75 | the new object holds the resolved list, its length, the shape and `batch_size = shape[0]` |
| Batcher.ImageBatcher.BatchesOfValid | python/infer/batcher.py:79-81 | a built batcher with a positive batch size has `ceil(num_images / batch_size)` batches; they concatenate to `images`, all but the last are full, the last is non-empty, and all are full when the count is a multiple of the size |
| Batcher.ImageBatcher.HandleExactBatches | python/infer/batcher.py:129-143 | without exact mode nothing changes; with it, a zero size raises zero division, `num_images` becomes `b * (n // b)`, the step raises when that is below 1, and otherwise `images` becomes its prefix of that length |
| Batcher.ImageBatcher.Subdivide | python/infer/batcher.py:77-81 | after the exact-batch step, with a non-zero batch size and at least one image, setting width and height from the shape, the batch count and the slices leaves the batcher in its initialised state |
| Batcher.ImageBatcher.AssembleBatch | python/infer/batcher.py:90-100 | the buffer has `batch_size` slots; slot `i` holds the sample preprocessed from `batch[i]`; slots past the batch stay zero; the paths are the batch; the records follow it in order |
| Batcher.ImageBatcher.Iterate | python/infer/batcher.py:83-100 | iteration yields one assembled batch per slice, in order; it raises at the first batch exactly when there is a batch and the shape has a negative dimension |
| Batcher.Open | python/infer/batcher.py:49-81 | the constructor raises exactly the construction error, or returns a fresh, fully initialised batcher holding the constructed images, the shape, the inferred width and height, and the batches |

## Left out

- `_preprocess_image` (lines 163-185) is not modelled. `cv2.imread`, `letterbox`, the colour
  conversion, the `/ 255.0` normalisation and the transpose are foreign library calls and
  floating-point numerics. Preprocessing is the parameter `pre: Path -> (S, R)`: a total
  function from a path to a sample and a record, of types the model leaves open.
- Batcher.ImageBatcher.AssembleBatch: does not model an image that fails to decode, because
  `pre` is total. In the source that failure propagates out of the thread pool and aborts the batch.
- Batcher.ImageBatcher.AssembleBatch: does not model the NumPy slot assignment, which can
  fail or broadcast when the `(3, H, W)` sample does not fit the slot. This happens for a
  channel-last shape or the `(-1, -1)` sentinel. Those depend on NumPy's broadcasting rules.
- The `ThreadPoolExecutor` (lines 93-94) is modelled as a sequential loop. `executor.map`
  returns results in input order, so only the concurrency is lost.
- Batcher.ImageBatcher.Iterate: runs the generator to its end and returns the list of
  yields, because Dafny here has no generators. Laziness is lost: the source preprocesses a
  batch only when the caller asks for it.
- `dtype` and `np.ascontiguousarray` are not modelled. They are numeric-type and
  memory-layout details with no logical content.
- The real filesystem is not modelled. `exists`, `is_dir`, `iterdir` and `is_file` are
  replaced by a `Node` value: missing, not a directory, or a directory with its entries.
- Resolver.ShuffleInPlace: does not model the randomness of `random.shuffle`. The draws
  are a parameter, and only what holds for every draw sequence is proved.
- Names.Lower: folds ASCII letters only, where Python's `str.lower` folds all of Unicode.
  No non-ASCII character lowers to a letter of the four extensions, so the extension test
  is unaffected.
- Ordering.NameLe: is POSIX path order. On Windows `PurePath` compares case-folded parts,
  and that order is not modelled.
- PyOps.TruncDiv: is exact integer arithmetic. Line 80 divides in floating point, which
  rounds for counts above 2^53.
