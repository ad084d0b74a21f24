/** Types shared by the models. */
module Prelude {
  type Byte = x: int | 0 <= x < 256

  datatype Option<+T> = None | Some(value: T)
}
