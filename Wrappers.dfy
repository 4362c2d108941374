/** The optional value used where the model's search may come back empty-handed. */
module Wrappers {

  datatype Option<+T> = None | Some(value: T)
}
