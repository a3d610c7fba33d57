/**
 * The exceptions the assemblers can raise, as values.  Python aborts the whole
 * assembly on the first one; the model returns it instead of a program.
 */
module Errors {

  datatype Error =
    /** `raise ValueError(...)` in the final branch of the opcode dispatch. */
    | UnknownOpcode(op: string)
    /** ValueError from unpacking the operand list into a fixed number of names. */
    | WrongOperandCount(op: string, count: nat)
    /** IndexError from reading an operand position that the line does not have. */
    | MissingOperand(position: nat)
    /** ValueError from `int(...)` on a string that is not a decimal numeral. */
    | NotANumber(text: string)
    /** KeyError from looking up a branch target that no label line defines. */
    | UndefinedLabel(name: string)
    /** ZeroDivisionError from a floor division by zero. */
    | DivisionByZero

  datatype Option<+T> = None | Some(value: T)

  /** Either the value a Python expression evaluates to, or the exception it raises. */
  datatype Result<+T> = Ok(value: T) | Err(error: Error) {

    predicate IsFailure() {
      Err?
    }

    function PropagateFailure<U>(): Result<U>
      requires Err?
    {
      Err(error)
    }

    function Extract(): T
      requires Ok?
    {
      value
    }
  }
}
