/** Shared result types of the calculator: an optional value, the four error
    messages the evaluator can produce, and a result that is either a value
    or one of those errors (the source's `Result<_, String>`). */
module Common {

  datatype Option<T> = None | Some(value: T)

  /** The four errors of calculator.rs; `Message` gives the exact text the
      source returns. */
  datatype Error = InvalidToken | InvalidExpression | DivisionByZero | UnknownOperator
  {
    function Message(): string {
      match this
      case InvalidToken => "Invalid token"
      case InvalidExpression => "Invalid expression"
      case DivisionByZero => "Division by zero"
      case UnknownOperator => "Unknown operator"
    }
  }

  datatype Result<T> = Ok(value: T) | Err(error: Error)

  /** The last element of a non-empty sequence: the top of a stack. */
  function Last<T>(s: seq<T>): T
    requires |s| > 0
  {
    s[|s| - 1]
  }

  /** A sequence without its last element: the stack after a pop. */
  function DropLast<T>(s: seq<T>): seq<T>
    requires |s| > 0
  {
    s[..|s| - 1]
  }
}
