/** Values standing for Java's null and for the exceptions the driver raises. */
module Outcomes {

  /** A Java reference that may be null: None is null. */
  datatype Option<+T> = None | Some(value: T)

  /** The exceptions the connection-URL handling and the connection raise,
      named after the situation that raises them. */
  datatype Failure =
    | ConnectionClosed         // SQLException from checkClosed on a closed connection
    | FeatureNotSupported      // SQLFeatureNotSupportedException in strict mode
    | ClientInfoRejected       // SQLClientInfoException from setClientInfo when closed
    | ConnectFailed            // SQLException: no node answered while connecting
    | InvalidUrl               // SQLException: more than one path segment after the hosts
    | InvalidPropertiesFormat  // SQLException wrapping InvalidPropertiesFormatException
    | MalformedEscape          // IllegalArgumentException from URLDecoder.decode

  /** A void Java method: it returns normally or throws. */
  datatype Outcome = Pass | Fail(failure: Failure)

  /** A Java method with a result: it returns a value or throws. */
  datatype Result<+T> = Ok(value: T) | Err(failure: Failure)
}
