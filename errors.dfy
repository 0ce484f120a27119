/** The error values of the agent configuration core. Each is returned to the caller, never swallowed. */
module Errors {

  datatype ConfigError =
    /** The text after the host/port separator of a bind address is not a decimal number. */
    | InvalidPort(addr: string)
    /** An event handler specification names no script. */
    | EmptyScript(handler: string)
    /** The configuration source at this path is not a well-formed document of the right shape. */
    | DecodeError(path: string)
    /** Nothing exists at this path. */
    | PathNotFound(path: string)
}
