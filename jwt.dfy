/** The interface of the JSON Web Token library as the middlewares use it. Verification is
    cryptographic and is not modelled: handlers receive it as a function from token to
    outcome, which is all they observe of it. */
module Jwt {

  /** The decoded claims a token carries. */
  datatype Payload = Payload(userId: string)

  /** What `jwt.verify` does with a token: returns the decoded payload, or throws an error
      whose `name` is "TokenExpiredError" or "JsonWebTokenError". */
  datatype Verification = Verified(payload: Payload) | Failed(name: string, message: string)

  /** A verifier: `jwt.verify` with its secret fixed. */
  type Verifier = string -> Verification
}
