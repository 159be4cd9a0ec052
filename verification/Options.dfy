/** A value or nothing: what the source writes as None, a missing row or a refusal. */
module Options {
  datatype Option<T> = None | Some(value: T)
}
