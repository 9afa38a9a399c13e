/** The nullable values of the admin panel and the map (`T | null`, `T | undefined`). */
module Wrappers {
  datatype Option<+T> = None | Some(value: T)
}
