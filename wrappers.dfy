/** Small value wrappers shared by every module of the model. */
module Wrappers {

  /** Swift's Optional. */
  datatype Option<+T> = None | Some(value: T) {
    function GetOr(default: T): T {
      match this
      case Some(v) => v
      case None => default
    }
  }

  /** The outcome of reading stored data and decoding it: the file or
      defaults key is absent, it is present but does not decode, or it
      decodes to a value.  JSON encoding and decoding themselves are not
      modelled; only which of these three cases occurred. */
  datatype FileRead<+T> = Missing | Undecodable | Decoded(value: T)
}
