/** Failure-carrying wrappers and the error values the client library returns. */
module Errors {

  datatype Option<+T> = None | Some(value: T) {
    function GetOr(default: T): T {
      match this
      case Some(v) => v
      case None => default
    }
  }

  datatype Result<+T> = Success(value: T) | Failure(error: Error)

  /** One constructor per distinct error the library can return (or per panic it can hit). */
  datatype Error =
    | MalformedUrl(reference: string)   // url.Parse rejected the relative reference
    | TransportFailure                  // the HTTP round trip itself failed
    | WrongStatus(code: int)            // "Wrong status code"
    | DecodeFailure                     // the XML or JSON decoder rejected the body
    | InvalidCredentials                // ErrInvalidCred
    | SessionExpired                    // ErrExpiredSess
    | NotConnected(ain: string)         // device is not connected
    | Locked(ain: string)               // device is locked; unlock it in the web interface
    | NotFound(ain: string)             // no listed device carries that identifier
    | Unsupported(ain: string)          // the device lacks the capability the command needs
    | OutOfRange                        // set point outside 8..28 degrees
    | DeviceOff(ain: string)            // thermostat reports the off sentinel
    | Mismatch(echo: string)            // echoed set point differs from the one sent
    | Syntax(text: string)              // strconv: invalid syntax
    | Range(text: string)               // strconv: value out of range
    | NilUrl                            // panic: String() called on a nil *url.URL
}
