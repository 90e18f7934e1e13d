/** A value that may be absent: the model of `std::optional` and of a null pointer. */
module Options {
  datatype Option<+T> = None | Some(value: T)
}
