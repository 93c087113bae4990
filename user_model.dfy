/** The user schema (src/models/user.ts): the constraints a new user document must meet,
    the normalisation of its email, the default of `verified`, and the pre-save hook that
    hashes the password only when it was set or changed. Hashing (bcrypt with a fresh salt)
    is a function the model is given. */
module UserModel {
  import opened Wrappers
  import opened JsText
  import Seqs
  import opened Schema

  const MinPasswordLength := 6

  /** The fields of a request body offered to `User.create`; `None` is an absent field. */
  datatype UserBody = UserBody(name: Option<string>, email: Option<string>, password: Option<string>, verified: Option<bool>)

  /** The fields of a document that passed validation, before the password is hashed. */
  datatype UserFields = UserFields(name: string, email: string, password: string, verified: bool)

  /** One failed constraint: the path of the field and the schema's message for it. */
  datatype FieldError = FieldError(path: string, message: string)

  /** The `lowercase` and `trim` setters of the email path: the lower-cased email with the
      white space at both of its ends cut off. */
  function NormaliseEmail(email: string): (r: string)
    ensures IsTrimmedSlice(LowerAscii(email), r)
    ensures |r| <= |email|
    ensures forall i :: 0 <= i < |r| ==> !IsAsciiUpper(r[i])
    ensures r == [] || (!IsJsWhitespace(r[0]) && !IsJsWhitespace(r[|r| - 1]))
  {
    LowerAsciiHasNoUpper(email);
    Trim(LowerAscii(email))
  }

  /** The error of the name path, if any. */
  function NameErrors(name: Option<string>): (errs: seq<FieldError>)
    ensures errs == [] <==> Present(name)
  {
    if Present(name) then [] else [FieldError("name", "Name is required")]
  }

  /** The error of the email path, if any: required after the setters have run. */
  function EmailErrors(email: Option<string>): (errs: seq<FieldError>)
    ensures errs == [] <==> email.Some? && NormaliseEmail(email.value) != ""
  {
    if email.Some? && NormaliseEmail(email.value) != "" then [] else [FieldError("email", "Email is required")]
  }

  /** The error of the password path, if any: required first, then at least six characters. */
  function PasswordErrors(password: Option<string>): (errs: seq<FieldError>)
    ensures errs == [] <==> password.Some? && |password.value| >= MinPasswordLength
    ensures |errs| <= 1
  {
    if !Present(password) then [FieldError("password", "Password is required")]
    else if |password.value| < MinPasswordLength then [FieldError("password", "Password must be at least 6 characters long")]
    else []
  }

  /** Validation of a new document: every failed path is reported, in schema order, with its
      first failing constraint; a valid body gives the stored fields, with the email
      normalised and `verified` defaulting to false. */
  function ValidateUser(body: UserBody): (r: Result<UserFields, seq<FieldError>>)
    ensures r.Ok? <==> (Present(body.name) && body.email.Some? && NormaliseEmail(body.email.value) != ""
                        && body.password.Some? && |body.password.value| >= MinPasswordLength)
    ensures r.Ok? ==> r.value == UserFields(body.name.value, NormaliseEmail(body.email.value),
      body.password.value, body.verified.GetOr(false))
    ensures r.Err? ==> r.error != [] && r.error == NameErrors(body.name) + EmailErrors(body.email) + PasswordErrors(body.password)
  {
    var errors := NameErrors(body.name) + EmailErrors(body.email) + PasswordErrors(body.password);
    if errors == [] then
      Ok(UserFields(body.name.value, NormaliseEmail(body.email.value), body.password.value, body.verified.GetOr(false)))
    else Err(errors)
  }

  /** Without a `verified` field a new user is unverified. */
  lemma VerifiedDefaultsToFalse(body: UserBody)
    requires body.verified.None? && ValidateUser(body).Ok?
    ensures !ValidateUser(body).value.verified
  {
  }

  /** A body missing any of name, email or password is refused with that field's message. */
  lemma MissingFieldRefused(body: UserBody)
    requires body.name.None? || body.email.None? || body.password.None?
    ensures ValidateUser(body).Err?
    ensures body.name.None? ==> FieldError("name", "Name is required") in ValidateUser(body).error
    ensures body.email.None? ==> FieldError("email", "Email is required") in ValidateUser(body).error
    ensures body.password.None? ==> FieldError("password", "Password is required") in ValidateUser(body).error
  {
  }

  /** A password shorter than six characters is refused with the length message. */
  lemma ShortPasswordRefused(body: UserBody)
    requires body.password.Some? && 0 < |body.password.value| < MinPasswordLength
    ensures ValidateUser(body).Err?
    ensures FieldError("password", "Password must be at least 6 characters long") in ValidateUser(body).error
  {
  }

  /** Normalising an email twice changes nothing more. */
  lemma {:induction false} NormaliseEmailIdempotent(email: string)
    ensures NormaliseEmail(NormaliseEmail(email)) == NormaliseEmail(email)
  {
    var once := NormaliseEmail(email);
    assert LowerAscii(once) == once by { LowerAsciiNoUpper(once); }
    assert Trim(once) == once by { TrimTrimmed(once); }
  }

  /** Trimming a string without white space at its ends changes nothing. */
  lemma TrimTrimmed(s: string)
    requires s == [] || (!IsJsWhitespace(s[0]) && !IsJsWhitespace(s[|s| - 1]))
    ensures Trim(s) == s
  {
    if s != [] {
      assert Seqs.PrefixLength(IsJsWhitespace, s) == 0;
    }
  }

  /** The email is stored as typed apart from case and surrounding white space: an email
      given in lower case without surrounding white space is stored unchanged. */
  lemma CleanEmailStoredUnchanged(email: string)
    requires forall i :: 0 <= i < |email| ==> !IsAsciiUpper(email[i])
    requires email == [] || (!IsJsWhitespace(email[0]) && !IsJsWhitespace(email[|email| - 1]))
    ensures NormaliseEmail(email) == email
  {
    LowerAsciiNoUpper(email);
    TrimTrimmed(email);
  }

  /** A user document as the pre-save hook sees it: its stored password and whether that
      path was set or changed since the last save. */
  class UserDocument {
    var password: string
    var passwordModified: bool

    /** A new document: its password path counts as modified. */
    constructor (password: string)
      ensures this.password == password && passwordModified
    {
      this.password := password;
      passwordModified := true;
    }

    /** Assigning the password marks the path as modified. */
    method SetPassword(password: string)
      modifies this
      ensures this.password == password && passwordModified
    {
      this.password := password;
      passwordModified := true;
    }

    /** Saving: the pre-save hook replaces the password by its hash only when the path was
      modified, and the save then clears the modified mark. */
    method Save(hash: string -> string)
      modifies this
      ensures old(passwordModified) ==> password == hash(old(password))
      ensures !old(passwordModified) ==> password == old(password)
      ensures !passwordModified
    {
      if passwordModified {
        password := hash(password);
      }
      passwordModified := false;
    }
  }

  /** A password is hashed once, however often the document is saved afterwards. */
  method SaveTwiceHashesOnce(doc: UserDocument, hash: string -> string)
    requires doc.passwordModified
    modifies doc
    ensures doc.password == hash(old(doc.password))
  {
    doc.Save(hash);
    doc.Save(hash);
  }
}
