/** Values that may be absent, and positive numbers. */
module Options {
  datatype Option<+T> = None | Some(value: T)

  type Positive = n: nat | n >= 1 witness 1
}
