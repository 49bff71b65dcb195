/** Vocabulary shared by every part of the model. */
module Common {
  datatype Option<+T> = None | Some(value: T)

  /** An instant or a duration, in whole microseconds: what Python's datetime and timedelta hold. */
  type Time = int

  type Byte = b: int | 0 <= b < 256
}
