/** `ImageBatcher._handle_tensor_shape`: reading the target width and height off the batch shape. */
module Layout {

  /** The 4-tuple `shape` the batcher is built with: batch size first, then three dimensions. */
  datatype Shape = Shape(n: int, d1: int, d2: int, d3: int)

  /** The shape as the Python tuple, so that axes can be indexed. */
  function Dims(shape: Shape): (dims: seq<int>)
    ensures |dims| == 4
  {
    [shape.n, shape.d1, shape.d2, shape.d3]
  }

  /**
   * `_handle_tensor_shape`: `(width, height)`. Axis 1 of size 3 means NCHW, otherwise axis 3 of
   * size 3 means NHWC; with neither, both stay at the sentinel -1.
   */
  function HandleTensorShape(shape: Shape): (size: (int, int))
  {
    if shape.d1 == 3 then (shape.d3, shape.d2)
    else if shape.d3 == 3 then (shape.d2, shape.d1)
    else (-1, -1)
  }

  /** The axis the batcher takes for the colour channels: the first of axes 1 and 3 whose size is 3. */
  function ChannelAxis(shape: Shape): (axis: int)
    ensures axis in {-1, 1, 3}
    ensures axis != -1 ==> Dims(shape)[axis] == 3
    ensures axis == -1 <==> shape.d1 != 3 && shape.d3 != 3
    ensures shape.d1 == 3 ==> axis == 1
  {
    if Dims(shape)[1] == 3 then 1 else if Dims(shape)[3] == 3 then 3 else -1
  }

  /** The two spatial axes once the channel axis is known: the remaining non-batch axes, height first. */
  function SpatialAxes(channel: int): (axes: (nat, nat))
    requires channel in {1, 3}
    ensures {axes.0, axes.1, channel} == {1, 2, 3} && axes.0 < axes.1
  {
    if channel == 1 then (2, 3) else (1, 2)
  }

  /**
   * The width and height are the sizes of the later and the earlier spatial axis, whichever of
   * the two layouts the shape is taken to have; with no channel axis they are the sentinel.
   */
  lemma SizeFromAxes(shape: Shape)
    ensures ChannelAxis(shape) == -1 ==> HandleTensorShape(shape) == (-1, -1)
    ensures ChannelAxis(shape) != -1 ==>
              var (h, w) := SpatialAxes(ChannelAxis(shape));
              HandleTensorShape(shape) == (Dims(shape)[w], Dims(shape)[h])
  {
  }

  /** An NCHW shape gives its own W and H. */
  lemma ChannelFirst(n: int, h: int, w: int)
    ensures HandleTensorShape(Shape(n, 3, h, w)) == (w, h)
  {
  }

  /** An NHWC shape gives its own W and H, provided H is not itself 3. */
  lemma ChannelLast(n: int, h: int, w: int)
    requires h != 3
    ensures HandleTensorShape(Shape(n, h, w, 3)) == (w, h)
  {
  }

  /** When axes 1 and 3 both have size 3, the shape is read as NCHW: an NHWC shape with H == 3 comes out transposed. */
  lemma ChannelFirstWins(n: int, w: int)
    ensures HandleTensorShape(Shape(n, 3, w, 3)) == (3, w)
    ensures w != 3 ==> HandleTensorShape(Shape(n, 3, w, 3)) != (w, 3)
  {
  }

  /** For a shape whose dimensions are sizes, the sentinel comes back exactly when no axis 1 or 3 has size 3. */
  lemma SentinelMeansNoChannelAxis(shape: Shape)
    requires shape.d1 >= 0 && shape.d2 >= 0 && shape.d3 >= 0
    ensures HandleTensorShape(shape) == (-1, -1) <==> shape.d1 != 3 && shape.d3 != 3
  {
  }
}
