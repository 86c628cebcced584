/** The HTTP replies of the server's handlers: a status code with either a JSON value or a message. */
module Http {

  /** The messages the handlers send. The source sends them as localised (Kazakh) text; the
      model keeps one constructor per distinct text. */
  datatype Message =
    | InvalidData             // registration, login and verify-email body rejected by its schema
    | EmailTaken              // registration with an email that is already stored
    | InvalidCredentials      // unknown email or wrong password (one text for both)
    | EmailNotVerifiedLogin   // login of an account whose email is not verified
    | InvalidOrExpiredToken   // no user holds the verification token
    | TokenExpired            // the token's expiry lies in the past
    | AuthRequired            // guard: no authenticated session
    | EmailNotVerified        // guard: the session's user is not verified
    | ModuleNotFound          // GET of an unknown module
    | InvalidQuizData         // quiz submission rejected by its schema
    | NoQuestions             // quiz submission for a module without questions
    | InternalError           // a storage operation threw
    | DeserializeFailed       // passport found no user for the id stored in the session

  /** A reply: `Ok` carries the JSON value of a successful answer, `Fail` the error message. */
  datatype Reply<+T> = Ok(status: int, value: T) | Fail(status: int, message: Message)
}
