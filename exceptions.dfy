/** The Python exceptions the scripts raise or let through, as values. */
module Exceptions {

  /** A Python exception: its class name and `str(e)`. */
  datatype PyError = PyError(kind: string, message: string)

  function IndexOutOfRange(): PyError {
    PyError("IndexError", "list index out of range")
  }

  function PopFromEmpty(): PyError {
    PyError("IndexError", "pop from empty list")
  }

  /** Reading a local variable that no statement assigned. */
  function UnboundLocal(name: string): PyError {
    PyError("UnboundLocalError", "cannot access local variable '" + name + "' where it is not associated with a value")
  }

  /** `int(s)` on a string that is not an integer literal. */
  function InvalidIntLiteral(s: string): PyError {
    PyError("ValueError", "invalid literal for int() with base 10: '" + s + "'")
  }

  /** Opening a file that is not there. */
  function FileNotFound(path: string): PyError {
    PyError("FileNotFoundError", "[Errno 2] No such file or directory: '" + path + "'")
  }
}
