/** Values that may be absent: a missing Redis key, a null field, a lost reply. */
module Options {
  datatype Option<+T> = None | Some(value: T)
}
