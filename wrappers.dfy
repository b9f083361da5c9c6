/** The optional value used wherever the widget script gets `null` or `undefined` back. */
module Wrappers {

  datatype Option<+T> = None | Some(value: T)
}
