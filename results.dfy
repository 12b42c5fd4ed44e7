/** Failure values, and one fact about logs, shared by the debugger engine and the keyboard input. */
module Results {

  datatype Option<+T> = None | Some(value: T)

  /** The exceptions the modelled code raises, one constructor per exception class. */
  datatype Error =
    | DebuggerError(message: string)    // DebuggerException
    | BreakPointError(message: string)  // BreakPointException
    | Win32Error                        // Win32Exception raised after a short SendInput

  /** Normal completion, or the exception the operation ended with. */
  datatype Outcome = Pass | Fail(error: Error)

  /** Appending to a log in two steps is appending the two parts at once. */
  lemma AppendTwice<T>(log: seq<T>, a: seq<T>, b: seq<T>)
    ensures log + a + b == log + (a + b)
  {
  }
}
