/** Failure-compatible wrappers shared by every stage of the pipeline. */
module Wrappers {

  datatype Option<+T> = None | Some(value: T) {
    function GetOr(default: T): T {
      match this
      case Some(v) => v
      case None => default
    }
  }

  /** The reasons a Python job stops with an uncaught exception. */
  datatype Error =
    | DecodeError                 // json.loads raised JSONDecodeError
    | MissingKey(key: string)     // a dict lookup raised KeyError
    | Unpack(fields: nat)         // tuple unpacking of str.split got the wrong number of fields
    | NotAnInteger(text: string)  // int() raised ValueError
    | ChangedSize                 // a dict lost an entry while it was being iterated
    | Unhashable                  // set() raised TypeError on a list value

  datatype Result<+R> = Success(value: R) | Failure(error: Error)
}
