/** An optional value: Go's nil pointer, nil slice or (value, ok) pair. */
module Prelude {
  datatype Option<+T> = None | Some(value: T)
}
