/** The exception classes of `Configurable::Errors`, and the two shapes a
    call can end in: it returns, or it raises one of those exceptions. */
module Errors {

  /** One constructor per exception class; the messages are not modelled. */
  datatype ConfigError =
    | DefaultConfigNotExists  // `configure` before any default configuration
    | ConfigParamNotFound     // a key outside the declared key set
    | NotConfigured           // `config` before any default configuration

  /** A call that returns a value or raises. */
  datatype Result<+T> = Ok(value: T) | Raised(error: ConfigError)

  /** A call whose return value is of no interest, or that raises. */
  datatype Outcome = Pass | Fail(error: ConfigError)
}
