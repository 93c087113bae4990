/** The application-wide error handler (src/middleware/errorHandler.ts): a chain of tests on
    the error's `name` and `kind` that overwrites its `message` and `status` in place, then a
    reply built from what the error holds, with a default message and a default status. */
module ErrorHandler {
  import opened Wrappers

  const DefaultMessage := "Something went wrong"
  const DefaultStatus := 500

  /** The reply sent: `res.status(status).json({ message })`. */
  datatype ErrorReply = ErrorReply(status: int, message: string)

  /** The message and status a recognised error is given. */
  datatype Override = Override(message: string, status: int)

  /** An error as it reaches the handler. `name` and `kind` are only read; `message` and
      `status` are overwritten for a recognised error. An absent status is `None`. */
  class CustomError {
    const name: string
    const kind: Option<string>
    var message: string
    var status: Option<int>

    constructor (name: string, kind: Option<string>, message: string, status: Option<int>)
      ensures this.name == name && this.kind == kind
      ensures this.message == message && this.status == status
    {
      this.name := name;
      this.kind := kind;
      this.message := message;
      this.status := status;
    }
  }

  /** The error is one of the four the chain recognises. */
  predicate Recognised(name: string, kind: Option<string>) {
    name == "ValidationError" || (name == "CastError" && kind == Some("ObjectId"))
    || name == "TokenExpiredError" || name == "JsonWebTokenError"
  }

  /** What the chain of tests writes into the error, tested in order; `None` when no
      test applies and the error keeps its own message and status. */
  function Classify(name: string, kind: Option<string>): (r: Option<Override>)
    ensures r.Some? <==> Recognised(name, kind)
    ensures name == "ValidationError" ==> r == Some(Override("Invalid data format", 400))
    ensures name == "CastError" && kind == Some("ObjectId") ==> r == Some(Override("Invalid ID format", 400))
    ensures name == "TokenExpiredError" ==> r == Some(Override("Token has expired", 401))
    ensures name == "JsonWebTokenError" ==> r == Some(Override("Invalid token", 400))
  {
    if name == "ValidationError" then Some(Override("Invalid data format", 400))
    else if name == "CastError" && kind == Some("ObjectId") then Some(Override("Invalid ID format", 400))
    else if name == "TokenExpiredError" then Some(Override("Token has expired", 401))
    else if name == "JsonWebTokenError" then Some(Override("Invalid token", 400))
    else None
  }

  /** `message || "Something went wrong"`: the empty string is falsy. */
  function MessageOrDefault(message: string): (r: string)
    ensures r != ""
    ensures message != "" ==> r == message
  {
    if message == "" then DefaultMessage else message
  }

  /** `status || 500`: an absent status and the status 0 are falsy. */
  function StatusOrDefault(status: Option<int>): (r: int)
    ensures r != 0
    ensures status.Some? && status.value != 0 ==> r == status.value
    ensures status.None? || status.value == 0 ==> r == DefaultStatus
  {
    match status
    case Some(s) => if s == 0 then DefaultStatus else s
    case None => DefaultStatus
  }

  /** The reply the handler sends for an error with these fields. */
  function ReplyFor(name: string, kind: Option<string>, message: string, status: Option<int>): (r: ErrorReply)
    ensures r.message != "" && r.status != 0
    ensures Recognised(name, kind) ==> r == ErrorReply(Classify(name, kind).value.status, Classify(name, kind).value.message)
    ensures !Recognised(name, kind) ==> r == ErrorReply(StatusOrDefault(status), MessageOrDefault(message))
  {
    match Classify(name, kind)
    case Some(o) => ErrorReply(StatusOrDefault(Some(o.status)), MessageOrDefault(o.message))
    case None => ErrorReply(StatusOrDefault(status), MessageOrDefault(message))
  }

  /** `errorHandler`: overwrite the error's message and status when the chain recognises
      it, then reply with the defaults applied. */
  method HandleError(error: CustomError) returns (reply: ErrorReply)
    modifies error
    ensures Recognised(error.name, error.kind) ==>
      error.message == Classify(error.name, error.kind).value.message
      && error.status == Some(Classify(error.name, error.kind).value.status)
    ensures !Recognised(error.name, error.kind) ==>
      error.message == old(error.message) && error.status == old(error.status)
    ensures reply == ReplyFor(error.name, error.kind, old(error.message), old(error.status))
  {
    if error.name == "ValidationError" {
      error.message := "Invalid data format";
      error.status := Some(400);
    } else if error.name == "CastError" && error.kind == Some("ObjectId") {
      error.message := "Invalid ID format";
      error.status := Some(400);
    } else if error.name == "TokenExpiredError" {
      error.message := "Token has expired";
      error.status := Some(401);
    } else if error.name == "JsonWebTokenError" {
      error.message := "Invalid token";
      error.status := Some(400);
    }
    var errMessage := if error.message == "" then DefaultMessage else error.message;
    var errStatus := if error.status == None || error.status == Some(0) then DefaultStatus else error.status.value;
    reply := ErrorReply(errStatus, errMessage);
  }

  /** A recognised error's reply depends only on its name and kind: whatever message and
      status it arrived with are overridden. */
  lemma RecognisedOverrides(name: string, kind: Option<string>, m1: string, s1: Option<int>, m2: string, s2: Option<int>)
    requires Recognised(name, kind)
    ensures ReplyFor(name, kind, m1, s1) == ReplyFor(name, kind, m2, s2)
  {
  }

  /** A recognised error never gets the default message or the default status. */
  lemma RecognisedNeverDefaults(name: string, kind: Option<string>, message: string, status: Option<int>)
    requires Recognised(name, kind)
    ensures ReplyFor(name, kind, message, status).message != DefaultMessage
    ensures ReplyFor(name, kind, message, status).status != DefaultStatus
  {
  }

  /** A cast error of any kind other than ObjectId passes through: it is answered like an
      unrecognised error, with its own message and status. */
  lemma OtherCastErrorPassesThrough(kind: Option<string>, message: string, status: Option<int>)
    requires kind != Some("ObjectId")
    ensures ReplyFor("CastError", kind, message, status) == ErrorReply(StatusOrDefault(status), MessageOrDefault(message))
  {
  }

  /** An unrecognised error with a non-empty message and a non-zero status is answered with
      exactly those. */
  lemma UnrecognisedKeepsOwn(name: string, kind: Option<string>, message: string, status: int)
    requires !Recognised(name, kind) && message != "" && status != 0
    ensures ReplyFor(name, kind, message, Some(status)) == ErrorReply(status, message)
  {
  }

  /** An unrecognised error without a message or status gets both defaults. */
  lemma UnrecognisedBare(name: string, kind: Option<string>)
    requires !Recognised(name, kind)
    ensures ReplyFor(name, kind, "", None) == ErrorReply(DefaultStatus, DefaultMessage)
    ensures ReplyFor(name, kind, "", Some(0)) == ErrorReply(DefaultStatus, DefaultMessage)
  {
  }
}
