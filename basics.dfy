/** Small value types shared by every module of the model. */
module Basics {

  /** A value that may be absent: a dictionary key that is missing, or a
      setting that is not configured. */
  datatype Option<+T> = None | Some(value: T) {
    /** Python's `d.get(key, default)`. */
    function GetOr(default: T): T
    {
      match this
      case Some(v) => v
      case None => default
    }
  }

  /** The outcome of a call into code outside the model: a value, or the
      text of the exception it raised (`str(e)`). */
  datatype Result<+T> = Ok(value: T) | Err(message: string)

  /** One chat request to the language-model service: a system instruction
      and a user message. */
  datatype Chat = Chat(system: string, user: string)

  /** The text content of the first choice the language model returned, or
      the message of whatever went wrong on the way (network, API error,
      missing choice). */
  type LlmReply = Result<string>
}
