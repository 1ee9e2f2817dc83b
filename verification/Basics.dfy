/** What every module uses: a value that may be absent, and a byte. */
module Basics {

  datatype Option<+T> = None | Some(value: T)

  type Byte = x: int | 0 <= x < 0x100
}
