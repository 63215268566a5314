/** Bytes, as file contents and wire text are made of. */
module Bytes {
  newtype byte = x: int | 0 <= x < 256
}
