/** Optional values and success/failure results.

    `Option.None` stands for JavaScript's `undefined` (an omitted argument, or
    indexing past the end of an array); `Result.Failure` stands for a rejected
    promise, carrying the error it was rejected with.
 */
module Results {

  datatype Option<+T> = None | Some(value: T)

  datatype Result<+T, +E> = Success(value: T) | Failure(error: E)
}
