/** Option and Result types shared by the model. A failing step of the Python
    code raises an exception; the model returns `Raised` with the exception's
    class instead. */
module Outcomes {

  datatype Option<+T> = None | Some(value: T)

  /** A file the code opens by name: missing, present but failing to be read
      (or removed) as text, or read in full. */
  datatype FileState = Absent | Unreadable | Readable(content: string)

  /** The Python exception classes the modelled code can raise, plus the
      exceptions of foreign libraries, which carry only their message. */
  datatype Fault = AttributeError | KeyError | TypeError | External(message: string)

  datatype Result<+T> = Ok(value: T) | Raised(fault: Fault) {

    predicate IsFailure() {
      Raised?
    }

    function PropagateFailure<U>(): Result<U>
      requires Raised?
    {
      Raised(fault)
    }

    function Extract(): T
      requires Ok?
    {
      value
    }
  }
}
