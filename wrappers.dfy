/** Optional values, results and the failures the tool can run into. */
module Wrappers {

  datatype Option<+T> = None | Some(value: T) {

    /** The value, or `default` when there is none (Python's `d.get(k, default)`). */
    function GetOr(default: T): T
    {
      match this
      case Some(v) => v
      case None => default
    }
  }

  /** The failures that abort an invocation. Nothing catches them: each one ends the command. */
  datatype Error =
    | MissingKey(key: string)         // a dictionary lookup of an absent key (KeyError)
    | InvalidParameter(name: string)  // the client library refusing a None parameter
    | EndOfInput                      // input() with the operator's input exhausted (EOFError)
    | NotIterable(key: string)        // a loop over a key whose YAML value is null (TypeError)

  datatype Result<+T> = Ok(value: T) | Err(error: Error)

  /** Python truthiness of an optional string: None and "" are both false. */
  predicate Truthy(s: Option<string>)
  {
    s.Some? && s.value != ""
  }
}
