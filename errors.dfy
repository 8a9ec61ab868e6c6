/** The exception classes of SCons.Errors, plus the Python built-in exceptions
    that the modelled code raises or catches, and the Option/Result wrappers
    every other module uses for error returns. */
module Errors {

  datatype Option<T> = None | Some(value: T)

  /** SCons.Errors (BuildError, InternalError, UserError, StopError,
      ExplicitExit), the SConf subclasses of UserError, and the Python
      exceptions that escape the modelled functions. */
  datatype Error =
    | UserError(msg: string)
    | StopError(msg: string)
    | BuildError(node: string, errstr: string)
    | ExplicitExit(node: string, status: int)
    | InternalError(msg: string)
    | ConfigureDryRunError(target: string)
    | ConfigureCacheError(target: string)
    | TypeError(msg: string)
    | ValueError(msg: string)
    | KeyError(key: string)
    | IndexError
    | UnboundLocalError(name: string)
    | NameError(name: string)
    | AttributeError(name: string)
    /** Python's "maximum recursion depth exceeded" */
    | RecursionLimit

  datatype Result<T> = Ok(value: T) | Err(error: Error)
  {
    predicate IsFailure() { Err? }
    function PropagateFailure<U>(): Result<U> requires Err? { Err(error) }
    function Extract(): T requires Ok? { value }
  }

  /** SConfError and its subclasses derive from UserError. */
  predicate IsUserError(e: Error)
  {
    e.UserError? || e.ConfigureDryRunError? || e.ConfigureCacheError?
  }
}
