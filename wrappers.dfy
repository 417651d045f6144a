/** The optional value used throughout the model: a header that may be
    absent, an attribute that may be missing, a decoding that may fail. */
module Wrappers {

  datatype Option<+T> = None | Some(value: T)
}
