/**
 * The interpreter's single failure channel. In the source every failure is an Error whose
 * message starts with "Line N: " when it is attributed to a line; the model keeps the line as
 * an optional field and the rest of the message as a kind.
 */
module Errors {
  import opened Wrappers

  datatype ErrorKind =
    | ExtraCloseBracket           // Found extra ']' without '['
    | MissingCloseBracket         // Missing ']' for a REPEAT loop! Check your brackets.
    | MissingVarName              // Missing name for VAR
    | MissingVarValue(name: string)
    | MissingDefName              // Missing name for DEF
    | MissingEnd(procedure: string)
    | MissingRepeatCount          // Missing count for REPEAT
    | RepeatNeedsNumber(text: string)
    | MissingDistance             // Missing distance for FD
    | ForwardNeedsNumber(text: string)
    | UndefinedVariable(name: string)
    | UnknownCommand(text: string) // I don't know the command "..."
    | ColorTokenMissing           // the TypeError of reading `.value` of an absent token
    | CallStackExhausted          // the host's RangeError when calls nest too deeply

  /** `line` is the N of a "Line N: " prefix, or None for a message without one. */
  datatype Error = Error(line: Option<nat>, kind: ErrorKind)

  function Tagged(line: nat, kind: ErrorKind): Error {
    Error(Some(line), kind)
  }

  /**
   * The catch block of `execute`: a message that does not mention "Line" is prefixed with the
   * current token's line, one that does is rethrown as it is. Every message `execute` builds
   * with a line starts with "Line", and neither the TypeError nor the RangeError text contains
   * it, so "mentions Line" is "has a line" here.
   */
  function Retag(e: Error, line: nat): Error {
    if e.line.Some? then e else Error(Some(line), e.kind)
  }
}
