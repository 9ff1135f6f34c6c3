/** Values shared by every part of the model: optional values, the exceptions
    the program raises (one constructor per Python exception class it uses),
    and the two ways an operation can end. */
module Types {

  datatype Option<+T> = None | Some(value: T)

  /** The exceptions of clnews, by the names the code raises or catches. */
  datatype Error =
    // feed retrieval (clnews/exception.py, exception.py)
    | ChannelDataNotFound
    | ChannelServerError
    | ChannelRetrieveEventsError
    // the newer command set (clnews/commands.py)
    | CommandExecutionError(message: string)
    | CommandDoesNotExist
    | CommandChannelNotFound
    | CommandOutputError
    // the shell (clnews/shell.py)
    | ShellCommandDoesNotExist
    | ShellCommandChannelNotFound
    | ShellCommandOutputError
    // the console (console.py)
    | ConsoleCommandDoesNotExist
    | ConsoleCommandChannelNotFound
    // built-in Python exceptions the code runs into
    | EOFError
    | IndexError
    | KeyError
    | TypeError
    | ValueError
    | ZeroDivisionError
    | NotImplementedError
    | AttributeError
    | NameError

  /** A value, or the exception raised instead of returning it. */
  datatype Result<+T> = Ok(value: T) | Err(error: Error)

  /** A statement that returns nothing: it completes, or raises. */
  datatype Outcome = Pass | Fail(error: Error)
}
