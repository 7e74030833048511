/** The optional value returned by the elevation lookup. */
module Wrappers {

  /** Either no value (the lookup found no data) or some value. */
  datatype Option<+T> = None | Some(value: T)
}
