/** Values that may be absent, and computations that may fail. */
module Common {

  datatype Option<+T> = None | Some(value: T)

  datatype Result<+T, +E> = Success(value: T) | Failure(error: E)

  /** Labels of a node or node pool. */
  type Labels = map<string, string>
}
