/** What several parts of the model share. */
module Basics {

  datatype Option<+T> = None | Some(value: T)

  const W: int := 0x1_0000_0000  // unsigned 32-bit arithmetic wraps here
}
