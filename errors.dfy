/** Failures the image batcher reports to its caller, and the result type that carries them. */
module Errors {

  /** Each exception `ImageBatcher` can raise while it is built or while it yields a batch. */
  datatype Error =
    | NotFound           // the input path does not exist (ValueError "Directory not found")
    | NoImages           // resolution produced an empty list (ValueError "No image files found")
    | NotEnoughImages    // exact batching left no image (ValueError "Not enough images to create batches")
    | ZeroBatchSize      // shape[0] == 0 reaches an integer division (ZeroDivisionError)
    | NegativeDimension  // np.zeros refuses a shape with a negative dimension (ValueError)

  datatype Result<T> = Ok(value: T) | Err(error: Error)

  /** The outcome of a step that either completes or raises. */
  datatype Outcome = Pass | Fail(error: Error)
}
