/** The account handlers of src/controllers/user.ts over a table of users: `createAccount`,
    `verifyEmailToken` and `login`. The table is a sequence of records in storage order,
    so that `findOne` is "the first record that matches". Hashing, token signing and
    verification, and the mail transport are inputs of the model. */
module Accounts {
  import opened Wrappers
  import opened Seqs
  import opened Jwt
  import opened UserModel
  import Token
  import ErrorHandler

  const EmailInUseMessage := "Email already in used. fff"
  const SuccessMessage := "Success"
  const BadLinkMessage := "Error verifying the token "
  const AlreadyUsedMessage := "Token has already been used."
  const NoAccountMessage := "No account linked to this token."
  const VerifiedMessage := "Congrats your account is verified."
  const WrongCredentialsMessage := "Wrong creadentils. "

  /** A stored user; `password` holds the hash. */
  datatype UserRecord = UserRecord(id: string, name: string, email: string, password: string, verified: bool)

  /** How a handler ends: a JSON reply `{ message }` with a status; the sign-up reply
      `{ message, user }` with the created record; a successful login with the user and a
      signed token; or an error handed to `next` (and so to the error handler) with its
      name and message. `crashesAfterReply` marks a login whose un-awaited password check
      rejects with nothing to catch it: the reply is sent, and Node (version 15 or later,
      with no `unhandledRejection` listener) then ends the process. */
  datatype Response =
    | Answer(status: int, message: string)
    | Created(status: int, message: string, user: UserRecord)
    | LoggedIn(user: UserRecord, token: string, crashesAfterReply: bool)
    | Forward(name: string, message: string)

  /** Record ids are unique, as MongoDB guarantees for `_id`. */
  predicate UniqueIds(users: seq<UserRecord>) {
    forall i, j :: 0 <= i < j < |users| ==> users[i].id != users[j].id
  }

  /** The record matches an email filter, restricted to verified users when asked. */
  predicate EmailMatch(u: UserRecord, email: string, verifiedOnly: bool) {
    u.email == email && (verifiedOnly ==> u.verified)
  }

  /** `findOne({ email })` (with `verified: true` when `verifiedOnly`): the index of the
      first matching record. The filter's email goes through the schema's `lowercase` and
      `trim` setters; a filter without an email matches no record, since every stored
      record has one. */
  function FindByEmail(users: seq<UserRecord>, email: Option<string>, verifiedOnly: bool): (r: Option<nat>)
    ensures r.Some? <==> email.Some? && exists j :: 0 <= j < |users| && EmailMatch(users[j], NormaliseEmail(email.value), verifiedOnly)
    ensures r.Some? ==> r.value < |users| && EmailMatch(users[r.value], NormaliseEmail(email.value), verifiedOnly)
    ensures r.Some? ==> forall j :: 0 <= j < r.value ==> !EmailMatch(users[j], NormaliseEmail(email.value), verifiedOnly)
  {
    if email.None? then None
    else
      var wanted := NormaliseEmail(email.value);
      FindFirst((u: UserRecord) => EmailMatch(u, wanted, verifiedOnly), users, 0)
  }

  /** `findById(id)`: the index of the record with that id. */
  function FindById(users: seq<UserRecord>, id: string): (r: Option<nat>)
    ensures r.Some? ==> r.value < |users| && users[r.value].id == id
    ensures r.Some? ==> forall j :: 0 <= j < r.value ==> users[j].id != id
    ensures r.None? <==> forall j :: 0 <= j < |users| ==> users[j].id != id
  {
    FindFirst((u: UserRecord) => u.id == id, users, 0)
  }

  /** `createAccount`: refused when a verified user has the email; otherwise the body is
      validated and stored with its password hashed (the record stays even when the
      confirmation mail then fails). `mailError` is the mail transport's failure, if any. */
  function CreateAccountOutcome(users: seq<UserRecord>, body: UserBody, newId: string,
                                hash: string -> string, mailError: Option<string>): (r: (Response, seq<UserRecord>))
    ensures r.0 == Answer(400, EmailInUseMessage) <==> FindByEmail(users, body.email, true).Some?
    ensures r.0.Forward? && r.0.name == "ValidationError" <==> FindByEmail(users, body.email, true).None? && ValidateUser(body).Err?
    ensures r.1 == users || |r.1| == |users| + 1
    ensures |r.1| == |users| + 1 <==> FindByEmail(users, body.email, true).None? && ValidateUser(body).Ok?
    ensures r.1 != users ==> r.1[..|users|] == users && r.1[|users|].id == newId
    ensures FindByEmail(users, body.email, true).None? && ValidateUser(body).Ok? ==>
      r.0 == (if mailError.None? then Created(200, SuccessMessage, r.1[|users|]) else Forward("Error", mailError.value))
  {
    if FindByEmail(users, body.email, true).Some? then (Answer(400, EmailInUseMessage), users)
    else match ValidateUser(body)
      case Err(_) => (Forward("ValidationError", "User validation failed"), users)
      case Ok(f) =>
        var record := UserRecord(newId, f.name, f.email, hash(f.password), f.verified);
        var reply := if mailError.None? then Created(200, SuccessMessage, record) else Forward("Error", mailError.value);
        (reply, users + [record])
  }

  /** `verifyEmailToken`: check the link's token, then mark the user it names as verified,
      once. A token the verifier rejects is passed on as the verifier's error. */
  function VerifyEmailTokenOutcome(users: seq<UserRecord>, token: string, verify: Verifier): (r: (Response, seq<UserRecord>))
    ensures r.0 == Answer(200, VerifiedMessage) <==> r.1 != users
    ensures r.1 != users ==> exists i :: 0 <= i < |users| && !users[i].verified && r.1 == users[i := users[i].(verified := true)]
    ensures Token.VerifyTokenEmail(token, verify).NoToken? ==> r == (Answer(400, BadLinkMessage), users)
    ensures Token.VerifyTokenEmail(token, verify).Thrown? ==>
      r == (Forward(Token.VerifyTokenEmail(token, verify).name, Token.VerifyTokenEmail(token, verify).message), users)
    ensures Token.VerifyTokenEmail(token, verify).Decoded? ==>
      var found := FindById(users, Token.VerifyTokenEmail(token, verify).payload.userId);
      && (found.None? ==> r == (Answer(400, NoAccountMessage), users))
      && (found.Some? && users[found.value].verified ==> r == (Answer(400, AlreadyUsedMessage), users))
      && (found.Some? && !users[found.value].verified ==>
            r == (Answer(200, VerifiedMessage), users[found.value := users[found.value].(verified := true)]))
  {
    match Token.VerifyTokenEmail(token, verify)
    case NoToken => (Answer(400, BadLinkMessage), users)
    case Thrown(name, message) => (Forward(name, message), users)
    case Decoded(payload) =>
      match FindById(users, payload.userId)
      case None => (Answer(400, NoAccountMessage), users)
      case Some(i) =>
        if users[i].verified then (Answer(400, AlreadyUsedMessage), users)
        else (Answer(200, VerifiedMessage), users[i := users[i].(verified := true)])
  }

  /** `login`: the first user with the email must exist and be verified. The password does
      not decide the reply: `comparePassword` is called without `await`, so its result is a
      Promise, which is truthy, and the wrong-password branch is never taken. The call
      still runs: with no password (absent, or not a string) `bcrypt.compare` rejects,
      `comparePassword` rethrows, and the rejection is never handled. */
  function LoginOutcome(users: seq<UserRecord>, email: Option<string>, password: Option<string>,
                        sign: Payload -> string): (r: Response)
    ensures r.LoggedIn? || r == Answer(400, WrongCredentialsMessage)
    ensures r.LoggedIn? ==> r.user in users && r.user.verified && r.token == sign(Payload(r.user.id))
    ensures r.LoggedIn? <==> FindByEmail(users, email, false).Some? && users[FindByEmail(users, email, false).value].verified
    ensures r.LoggedIn? ==> r.user == users[FindByEmail(users, email, false).value]
    ensures r.LoggedIn? ==> (r.crashesAfterReply <==> password.None?)
  {
    match FindByEmail(users, email, false)
    case None => Answer(400, WrongCredentialsMessage)
    case Some(i) =>
      if !users[i].verified then Answer(400, WrongCredentialsMessage)
      else LoggedIn(users[i], sign(Payload(users[i].id)), password.None?)
  }

  /** The user collection and the handlers that read and change it. */
  class UserTable {
    var users: seq<UserRecord>

    predicate Valid()
      reads this
    {
      UniqueIds(users)
    }

    constructor ()
      ensures Valid() && users == []
    {
      users := [];
    }

    /** `createAccount`; `newId` is the id the database gives the new record. */
    method CreateAccount(body: UserBody, newId: string, hash: string -> string, mailError: Option<string>)
      returns (response: Response)
      requires Valid()
      requires forall j :: 0 <= j < |users| ==> users[j].id != newId
      modifies this
      ensures Valid()
      ensures (response, users) == CreateAccountOutcome(old(users), body, newId, hash, mailError)
    {
      var existing := FindByEmail(users, body.email, true);
      if existing.Some? {
        return Answer(400, EmailInUseMessage);
      }
      var validated := ValidateUser(body);
      if validated.Err? {
        return Forward("ValidationError", "User validation failed");
      }
      var f := validated.value;
      var record := UserRecord(newId, f.name, f.email, hash(f.password), f.verified);
      users := users + [record];
      if mailError.Some? {
        return Forward("Error", mailError.value);
      }
      response := Created(200, SuccessMessage, record);
    }

    /** `verifyEmailToken` with the token from the link. */
    method VerifyEmailToken(token: string, verify: Verifier) returns (response: Response)
      requires Valid()
      modifies this
      ensures Valid()
      ensures (response, users) == VerifyEmailTokenOutcome(old(users), token, verify)
    {
      var data := Token.VerifyTokenEmail(token, verify);
      if data.NoToken? {
        return Answer(400, BadLinkMessage);
      }
      if data.Thrown? {
        return Forward(data.name, data.message);
      }
      var found := FindById(users, data.payload.userId);
      if found.Some? && users[found.value].verified {
        return Answer(400, AlreadyUsedMessage);
      } else if found.None? {
        return Answer(400, NoAccountMessage);
      }
      var i := found.value;
      users := users[i := users[i].(verified := true)];
      response := Answer(200, VerifiedMessage);
    }

    /** `login`; it reads the table and changes nothing. */
    method Login(email: Option<string>, password: Option<string>, sign: Payload -> string) returns (response: Response)
      ensures response == LoginOutcome(users, email, password, sign)
      ensures response.LoggedIn? ==> response.user.verified && response.user in users
      ensures response.LoggedIn? ==> (response.crashesAfterReply <==> password.None?)
    {
      var found := FindByEmail(users, email, false);
      if found.None? || !users[found.value].verified {
        return Answer(400, WrongCredentialsMessage);
      }
      var user := users[found.value];
      response := LoggedIn(user, sign(Payload(user.id)), password.None?);
    }
  }

  /** Only a VERIFIED user with the email blocks a new account: unverified records with the
      same email do not, so several may share it. */
  lemma CreateBlockedOnlyByVerifiedDuplicate(users: seq<UserRecord>, body: UserBody, newId: string,
                                             hash: string -> string, mailError: Option<string>)
    requires body.email.Some?
    ensures CreateAccountOutcome(users, body, newId, hash, mailError).0 == Answer(400, EmailInUseMessage)
      <==> exists j :: 0 <= j < |users| && users[j].verified && users[j].email == NormaliseEmail(body.email.value)
  {
    var e := NormaliseEmail(body.email.value);
    if exists j :: 0 <= j < |users| && users[j].verified && users[j].email == e {
      var j :| 0 <= j < |users| && users[j].verified && users[j].email == e;
      assert EmailMatch(users[j], e, true);
    }
  }

  /** A successful creation adds exactly one record at the end, with the new id, the
      normalised email, the hashed password and `verified` as the body gives it (false
      when absent); every existing record is unchanged. When the mail goes out, the reply
      carries that record. */
  lemma CreateAppendsOneRecord(users: seq<UserRecord>, body: UserBody, newId: string,
                               hash: string -> string, mailError: Option<string>)
    requires FindByEmail(users, body.email, true).None? && ValidateUser(body).Ok?
    ensures var after := CreateAccountOutcome(users, body, newId, hash, mailError).1;
      && after == users + [UserRecord(newId, body.name.value, NormaliseEmail(body.email.value),
                                      hash(body.password.value), body.verified.GetOr(false))]
    ensures var r := CreateAccountOutcome(users, body, newId, hash, mailError);
      mailError.None? ==> r.0 == Created(200, SuccessMessage, r.1[|users|])
  {
  }

  /** The record is stored before the mail goes out: a failed mail is reported as an
      error, yet the new account stays in the table. */
  lemma MailFailureKeepsRecord(users: seq<UserRecord>, body: UserBody, newId: string,
                               hash: string -> string, failure: string)
    requires FindByEmail(users, body.email, true).None? && ValidateUser(body).Ok?
    ensures var r := CreateAccountOutcome(users, body, newId, hash, Some(failure));
      r.0.Forward? && |r.1| == |users| + 1 && r.1[|users|].id == newId
  {
  }

  /** The body's own `verified` field is stored: a request can create an account that is
      verified from the start. */
  lemma BodyCanPreVerify(users: seq<UserRecord>, body: UserBody, newId: string,
                         hash: string -> string, mailError: Option<string>)
    requires FindByEmail(users, body.email, true).None? && ValidateUser(body).Ok?
    requires body.verified == Some(true)
    ensures CreateAccountOutcome(users, body, newId, hash, mailError).1[|users|].verified
  {
  }

  /** Creation keeps record ids unique when the new id is fresh. */
  lemma CreatePreservesUniqueIds(users: seq<UserRecord>, body: UserBody, newId: string,
                                 hash: string -> string, mailError: Option<string>)
    requires UniqueIds(users)
    requires forall j :: 0 <= j < |users| ==> users[j].id != newId
    ensures UniqueIds(CreateAccountOutcome(users, body, newId, hash, mailError).1)
  {
  }

  /** A verification that does not answer 200 changes nothing; one that does sets
      `verified` on the one record the token names and leaves every other record as it was. */
  lemma VerifyTouchesOnlyTarget(users: seq<UserRecord>, token: string, verify: Verifier)
    requires UniqueIds(users)
    ensures var r := VerifyEmailTokenOutcome(users, token, verify);
      && (r.0 != Answer(200, VerifiedMessage) ==> r.1 == users)
      && (r.0 == Answer(200, VerifiedMessage) ==>
            && token != "" && verify(token).Verified?
            && |r.1| == |users|
            && forall j :: 0 <= j < |users| ==>
                 (users[j].id == verify(token).payload.userId ==> r.1[j] == users[j].(verified := true))
                 && (users[j].id != verify(token).payload.userId ==> r.1[j] == users[j]))
  {
    var r := VerifyEmailTokenOutcome(users, token, verify);
    if r.0 == Answer(200, VerifiedMessage) {
      var i := FindById(users, verify(token).payload.userId).value;
      assert r.1 == users[i := users[i].(verified := true)];
    }
  }

  /** Verification happens at most once: after a successful verification the same token
      answers "Token has already been used." and changes nothing. */
  lemma VerifyAtMostOnce(users: seq<UserRecord>, token: string, verify: Verifier)
    requires VerifyEmailTokenOutcome(users, token, verify).0 == Answer(200, VerifiedMessage)
    ensures var after := VerifyEmailTokenOutcome(users, token, verify).1;
      VerifyEmailTokenOutcome(after, token, verify) == (Answer(400, AlreadyUsedMessage), after)
  {
    var id := verify(token).payload.userId;
    var i := FindById(users, id).value;
    var after := users[i := users[i].(verified := true)];
    assert after[i].id == id;
    assert forall j :: 0 <= j < i ==> after[j] == users[j];
  }

  /** A rejected link is passed to the error handler, which answers an expired token with
      401 "Token has expired". */
  lemma ExpiredLinkAnswered401(users: seq<UserRecord>, token: string, verify: Verifier)
    requires token != "" && verify(token).Failed? && verify(token).name == "TokenExpiredError"
    ensures var r := VerifyEmailTokenOutcome(users, token, verify);
      && r.1 == users
      && r.0 == Forward("TokenExpiredError", verify(token).message)
      && ErrorHandler.ReplyFor(r.0.name, None, r.0.message, None) == ErrorHandler.ErrorReply(401, "Token has expired")
  {
  }

  /** A body that fails validation is passed to the error handler as a validation error,
      which answers 400 "Invalid data format"; the table is unchanged. */
  lemma InvalidBodyAnswered400(users: seq<UserRecord>, body: UserBody, newId: string,
                               hash: string -> string, mailError: Option<string>)
    requires FindByEmail(users, body.email, true).None? && ValidateUser(body).Err?
    ensures var r := CreateAccountOutcome(users, body, newId, hash, mailError);
      && r.1 == users
      && ErrorHandler.ReplyFor(r.0.name, None, r.0.message, None) == ErrorHandler.ErrorReply(400, "Invalid data format")
  {
  }

  /** Login succeeds exactly when the FIRST user with the email is verified. */
  lemma LoginIffFirstMatchVerified(users: seq<UserRecord>, email: Option<string>, password: Option<string>,
                                   sign: Payload -> string)
    ensures LoginOutcome(users, email, password, sign).LoggedIn?
      <==> FindByEmail(users, email, false).Some? && users[FindByEmail(users, email, false).value].verified
  {
  }

  /** The password plays no part in the reply: any two passwords get the same answer, the
      same user and the same token, and only a missing password differs, by the crash
      that follows the reply. */
  lemma LoginIgnoresPassword(users: seq<UserRecord>, email: Option<string>, p1: Option<string>, p2: Option<string>,
                             sign: Payload -> string)
    ensures var r1 := LoginOutcome(users, email, p1, sign);
      var r2 := LoginOutcome(users, email, p2, sign);
      && (r1.LoggedIn? <==> r2.LoggedIn?)
      && (r1.LoggedIn? ==> r1.user == r2.user && r1.token == r2.token)
      && (!r1.LoggedIn? ==> r1 == r2)
      && (p1.Some? == p2.Some? ==> r1 == r2)
  {
  }

  /** A verified user whose login body lacks a password is logged in, and the process then
      ends on the unhandled rejection; with any string password it keeps running. */
  lemma MissingPasswordCrashesAfterLogin(users: seq<UserRecord>, email: string, password: string,
                                         sign: Payload -> string, i: nat)
    requires i < |users| && users[i].verified && users[i].email == NormaliseEmail(email)
    requires forall k :: 0 <= k < i ==> users[k].email != NormaliseEmail(email)
    ensures LoginOutcome(users, Some(email), None, sign)
      == LoggedIn(users[i], sign(Payload(users[i].id)), true)
    ensures LoginOutcome(users, Some(email), Some(password), sign)
      == LoggedIn(users[i], sign(Payload(users[i].id)), false)
  {
    assert EmailMatch(users[i], NormaliseEmail(email), false);
    assert FindByEmail(users, Some(email), false) == Some(i);
  }

  /** An earlier unverified record shadows a later verified one with the same email: login
      then fails although a verified account with that email exists. */
  lemma UnverifiedDuplicateShadowsLogin(users: seq<UserRecord>, email: string, password: Option<string>,
                                        sign: Payload -> string, i: nat, j: nat)
    requires i < j < |users|
    requires users[i].email == NormaliseEmail(email) && !users[i].verified
    requires forall k :: 0 <= k < i ==> users[k].email != NormaliseEmail(email)
    requires users[j].email == NormaliseEmail(email) && users[j].verified
    ensures LoginOutcome(users, Some(email), password, sign) == Answer(400, WrongCredentialsMessage)
  {
    assert EmailMatch(users[i], NormaliseEmail(email), false);
  }

  /** The table does not keep emails unique among verified users: two sign-ups with the
      same email, before either is verified, can both be verified afterwards. */
  lemma TwoVerifiedAccountsCanShareEmail(body: UserBody, a: string, b: string, hash: string -> string,
                                         ta: string, tb: string, verify: Verifier)
    requires ValidateUser(body).Ok? && body.verified != Some(true) && a != b
    requires ta != "" && verify(ta) == Verified(Payload(a))
    requires tb != "" && verify(tb) == Verified(Payload(b))
    ensures var t1 := CreateAccountOutcome([], body, a, hash, None).1;
      var t2 := CreateAccountOutcome(t1, body, b, hash, None).1;
      var t3 := VerifyEmailTokenOutcome(t2, ta, verify).1;
      var t4 := VerifyEmailTokenOutcome(t3, tb, verify).1;
      && |t4| == 2 && t4[0].verified && t4[1].verified && t4[0].email == t4[1].email
  {
    var f := ValidateUser(body).value;
    var ra := UserRecord(a, f.name, f.email, hash(f.password), false);
    var rb := UserRecord(b, f.name, f.email, hash(f.password), false);
    TwoSignUps(body, a, b, hash);
    VerifyBoth(ra, rb, ta, tb, verify);
  }

  /** Two sign-ups with one email into an empty table store two unverified records. */
  lemma TwoSignUps(body: UserBody, a: string, b: string, hash: string -> string)
    requires ValidateUser(body).Ok? && body.verified != Some(true)
    ensures var f := ValidateUser(body).value;
      var t1 := CreateAccountOutcome([], body, a, hash, None).1;
      CreateAccountOutcome(t1, body, b, hash, None).1
        == [UserRecord(a, f.name, f.email, hash(f.password), false),
            UserRecord(b, f.name, f.email, hash(f.password), false)]
  {
    var f := ValidateUser(body).value;
    var ra := UserRecord(a, f.name, f.email, hash(f.password), false);
    var t1 := CreateAccountOutcome([], body, a, hash, None).1;
    assert t1 == [ra];
    assert FindByEmail(t1, body.email, true).None? by {
      assert !EmailMatch(t1[0], NormaliseEmail(body.email.value), true);
    }
  }

  /** Verifying two unverified records with distinct ids, one link each, verifies both. */
  lemma VerifyBoth(ra: UserRecord, rb: UserRecord, ta: string, tb: string, verify: Verifier)
    requires ra.id != rb.id && !ra.verified && !rb.verified
    requires ta != "" && verify(ta) == Verified(Payload(ra.id))
    requires tb != "" && verify(tb) == Verified(Payload(rb.id))
    ensures var t3 := VerifyEmailTokenOutcome([ra, rb], ta, verify).1;
      VerifyEmailTokenOutcome(t3, tb, verify).1 == [ra.(verified := true), rb.(verified := true)]
  {
    assert FindById([ra, rb], ra.id) == Some(0);
    var t3 := VerifyEmailTokenOutcome([ra, rb], ta, verify).1;
    assert t3 == [ra.(verified := true), rb];
    assert t3[0].id == ra.id && t3[1] == rb;
    assert FindById(t3, rb.id) == Some(1);
  }
}
