/** The outcome of an operation that has no real-valued result for some
    inputs: an exception in Python, or a complex number where the model
    keeps to reals. */
module Results {

  datatype Result<+T, +E> = Ok(value: T) | Err(error: E)
}
