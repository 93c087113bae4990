# food-hub backend: a Dafny model of its request-handling logic

food-hub is an Express/Mongoose service for recipes. Users sign up, confirm their email
through a link, log in, and then browse, add and update recipes attached to "posters"
(dishes). It also offers an ingredient search that forwards to the Spoonacular API. This
project models the parts of that service that hold logic of their own, and proves what
they promise:

- **Ingredient search** (`IngredientSearch`, built on `Seqs` and `JsText`). The normaliser
  of `getGeneratedRecipe` runs four steps:
  - it deletes every character except ASCII letters, comma and space;
  - it lower-cases the text;
  - it splits on runs of white space and commas;
  - it drops empty words.

  The comma-joined `ingredients` parameter it sends on is modelled too. Proved: the words
  are non-empty lower-case words; they keep the input's order; deleted characters do not
  separate words; the result is empty exactly when the input has no ASCII letter; and
  join-then-normalise is a round trip.
- **Error handler** (`ErrorHandler`). A `CustomError` class has `message` and `status`
  fields, which the handler overwrites in place. `HandleError` is proved against the
  decision table `Classify` and the reply function `ReplyFor`, which applies the defaults.
- **Upload** (`Upload`). The file filter is an unanchored pattern test on the lower-cased
  extension and on the raw MIME type. The stored filename is `<timestamp>-<uuid>-<original>`.
- **Bearer tokens** (`Jwt`, `Bearer`, `Auth`, `Token`).
  - Extraction removes the first "Bearer " from the header.
  - An empty or missing token is refused without calling the verifier.
  - `authMiddleware` and `verifyToken` are methods that set `req.user`.
  - `verifyTokenEmail` rethrows the verifier's error.
- **User schema** (`UserModel`, `Schema`). Required fields and their messages, email
  normalisation, the password minimum length and the `verified` default are modelled. A
  document class models the pre-save hook, which hashes the password only when it was
  modified.
- **Account handlers** (`Accounts`). `createAccount`, `verifyEmailToken` and `login` are
  methods of a `UserTable` class. Each is proved against an outcome function on the
  table's contents; the lifecycle properties are lemmas on those functions.
- **Recipe schema and handlers** (`RecipeModel`, `Recipes`). The sub-schema validators are
  modelled. `addRecipe` and `updateRecipe` are methods that change a `RecipeStore`. The
  lookups are read-only methods. The recipe/poster merge is a map union in which the
  poster wins.

Foreign code is modelled as a function the caller passes in:

- bcrypt hashing is `hash: string -> string`;
- JWT verification is a `Verifier` from token to payload-or-error;
- JWT signing is `sign: Payload -> string`;
- mail delivery is a possible failure (`mailError`);
- the clock, the UUID generator and the ids the database assigns are plain values.

Points where the code's behaviour is easy to misread, each stated by a lemma:

- Nothing stops two verified users from holding one email. Sign-up is refused only
  when a verified user already has it (`Accounts.TwoVerifiedAccountsCanShareEmail`).
- A duplicate email is answered with 400, not 409.
- `login` never awaits `comparePassword`, so the password plays no part in the reply
  (`Accounts.LoginIgnoresPassword`). The un-awaited call still runs. Without a password it
  rejects, and nothing handles the rejection, so the process ends after the reply is sent
  (`Accounts.MissingPasswordCrashesAfterLogin`).
- The request body's own `verified` field reaches `User.create`
  (`Accounts.BodyCanPreVerify`).

## Model

| member | source | states |
|---|---|---|
| Seqs.ConcatSplitRuns | src/controllers/spoonacular.ts:38 | splitting on separator runs loses exactly the separators: the pieces, concatenated, are the word characters in order |
| Seqs.SplitRunsElements | src/controllers/spoonacular.ts:38 | every piece of the split holds only word characters, and only characters the input had |
| Seqs.SplitRunsInterleave | src/controllers/spoonacular.ts:38-39 | split on separator runs, then drop the empty pieces: words with separator runs around them come back exactly |
| Seqs.FindFirst | src/controllers/user.ts:41 | the first index at or after k whose element matches, or none exactly when no element from k on matches |
| Seqs.SplitRunsJoin | src/controllers/spoonacular.ts:18 | splitting non-empty words joined by one separator gives the words back |
| JsText.LowerAscii | src/controllers/spoonacular.ts:34 | `toLowerCase` on ASCII: same length, upper-case letters lowered, everything else kept |
| JsText.Trim | src/models/user.ts:26 | `trim`: the result is the middle slice of the input, everything cut off is white space, and its own ends are not white space |
| JsText.IndexOf | src/middleware/upload.ts:23-25 | the first index at which the pattern occurs, or none when it occurs nowhere |
| JsText.ReplaceFirstAt | src/middleware/auth.ts:13 | `replace` with a string pattern replaces the first occurrence only; later occurrences stay |
| JsText.ReplaceFirstAbsent | src/middleware/auth.ts:13 | a string without the pattern is returned unchanged |
| IngredientSearch.SplitOnSeparatorRuns | src/controllers/spoonacular.ts:38 | `split(/[\s,]+/)` always yields at least one piece ("" gives [""]) |
| IngredientSearch.GeneratedRecipeReply | src/controllers/spoonacular.ts:30-47 | no search text gives 500 "Internal server error"; otherwise 200, and the ingredients sent are the normalised words joined with ","; that parameter holds only lower-case letters and commas, and normalises to the same words as the search |
| IngredientSearch.CleanedTextAlphabet | src/controllers/spoonacular.ts:32-34 | after cleaning only a-z, comma and space remain: digits, tabs, newlines, punctuation and accented letters are gone |
| IngredientSearch.PiecesOfCleanText | src/controllers/spoonacular.ts:37-38 | every piece of a cleaned text is lower-case letters only |
| IngredientSearch.WordsAreSearchWords | src/controllers/spoonacular.ts:32-39 | every returned word is non-empty and made only of the letters a-z |
| IngredientSearch.WordsSpellCleanedText | src/controllers/spoonacular.ts:32-39 | the words keep input order: concatenated, they equal the cleaned lower-cased text without spaces and commas |
| IngredientSearch.DeletedCharsDoNotSeparate | src/controllers/spoonacular.ts:32-38 | removing a deleted character from the input changes nothing, because deletion comes before the split |
| IngredientSearch.DeletedCharVanishes | src/controllers/spoonacular.ts:32-33 | a character other than an ASCII letter, comma or space leaves no trace in the cleaned text |
| IngredientSearch.NoWordsIffNoLetters | src/controllers/spoonacular.ts:32-39 | the word list is empty exactly when the input has no ASCII letter |
| IngredientSearch.JoinedWordsAlphabet | src/controllers/spoonacular.ts:18 | the joined parameter holds only lower-case letters and commas |
| IngredientSearch.SplitJoined | src/controllers/spoonacular.ts:18-38 | splitting the comma-joined words gives the word list back |
| IngredientSearch.NormaliseJoined | src/controllers/spoonacular.ts:18-39 | normalising a comma-joined list of search words gives the list back |
| IngredientSearch.NormaliseRoundTrip | src/controllers/spoonacular.ts:18-39 | join with "," then normalise again: the same word list |
| IngredientSearch.SeparatedWords | src/controllers/spoonacular.ts:32-39 | search words with runs of spaces and commas before, between and after them normalise to exactly those words: any run ends a word, and the runs at either end give no word |
| IngredientSearch.SpaceExample | src/controllers/spoonacular.ts:32-39 | " salt, pepper " yields ["salt", "pepper"] |
| IngredientSearch.HyphenAndDigitExample | src/controllers/spoonacular.ts:32-39 | "to-ma2to" yields ["tomato"] |
| IngredientSearch.TabExample | src/controllers/spoonacular.ts:32-39 | a tab is deleted, not split on: "salt\tpepper" yields ["saltpepper"] |
| ErrorHandler.Classify | src/middleware/errorHandler.ts:15-31 | the four recognised errors and the message/status each is given; `Some` exactly for a recognised error |
| ErrorHandler.MessageOrDefault | src/middleware/errorHandler.ts:35 | an empty message becomes "Something went wrong"; any other is kept |
| ErrorHandler.StatusOrDefault | src/middleware/errorHandler.ts:36 | a missing or zero status becomes 500; any other is kept |
| ErrorHandler.ReplyFor | src/middleware/errorHandler.ts:15-41 | the reply always has a non-empty message and a non-zero status: the override for a recognised error, the defaulted own values otherwise |
| ErrorHandler.HandleError | src/middleware/errorHandler.ts:8-44 | overwrites message and status exactly for a recognised error, leaves them otherwise, and replies `ReplyFor` of the error as it arrived |
| ErrorHandler.RecognisedOverrides | src/middleware/errorHandler.ts:15-31 | a recognised error's reply ignores the message and status it arrived with |
| ErrorHandler.RecognisedNeverDefaults | src/middleware/errorHandler.ts:15-41 | a recognised error never gets "Something went wrong" or 500 |
| ErrorHandler.OtherCastErrorPassesThrough | src/middleware/errorHandler.ts:20-23 | a CastError of a kind other than ObjectId is answered like an unrecognised error |
| ErrorHandler.UnrecognisedKeepsOwn | src/middleware/errorHandler.ts:35-36 | an unrecognised error with a message and a non-zero status is answered with exactly those |
| ErrorHandler.UnrecognisedBare | src/middleware/errorHandler.ts:35-36 | an unrecognised error without message or status (or status 0) gets 500 "Something went wrong" |
| Upload.FileFilter | src/middleware/upload.ts:18-32 | accepted iff the lower-cased extension and the raw MIME type both contain one of jpeg, jpg, png, img, svg; otherwise the error "File type not supported" |
| Upload.MissingCharNotContained | src/middleware/upload.ts:23 | a string lacking a character of a pattern does not contain it |
| Upload.UnanchoredMatch | src/middleware/upload.ts:23 | any text around one of the five patterns still matches |
| Upload.SvgAccepted | src/middleware/upload.ts:23-25 | ".svg" with MIME type "image/svg+xml" is accepted |
| Upload.UpperCaseExtensionAccepted | src/middleware/upload.ts:24 | ".PNG" passes, since the extension is lower-cased |
| Upload.UpperCasePngMimeTypeNoMatch | src/middleware/upload.ts:25 | "image/PNG" contains none of the five patterns |
| Upload.UpperCaseMimeTypeRejected | src/middleware/upload.ts:24-31 | MIME type "image/PNG" fails, since the MIME type is not lower-cased |
| Upload.PdfRejected | src/middleware/upload.ts:23-31 | ".pdf" is rejected whatever the MIME type |
| Upload.DecimalString | src/middleware/upload.ts:12 | the timestamp as text: at least one character, all decimal digits |
| Upload.DecimalRoundTrip | src/middleware/upload.ts:12 | reading the timestamp's digits back gives the timestamp |
| Upload.StoredFilename | src/middleware/upload.ts:11-14 | the stored name is the decimal timestamp, "-", the uuid, "-" and the original name: each segment stated at its position, and the length is the sum of the parts |
| Upload.FirstDashAfterDigits | src/middleware/upload.ts:12-13 | in digits followed by "-", the first "-" is right after the digits |
| Upload.StoredFilenameTimestamp | src/middleware/upload.ts:11-14 | the text before the stored name's first "-" is the timestamp, and parses back to it |
| Bearer.ExtractToken | src/middleware/auth.ts:13 | the token is absent exactly when the header is |
| Bearer.Guard | src/middleware/auth.ts:13-26 | always 401 on refusal, with one of the two messages; "No token provided" iff the token is absent or empty; "Invalid token" iff the token is non-empty and the verifier rejects it; passes on iff the token is non-empty and verifies, with the verifier's payload |
| Bearer.NoTokenIgnoresVerifier | src/middleware/auth.ts:15-17 | without a token the answer does not depend on the verifier |
| Bearer.SchemeOnlyHeaderRefused | src/middleware/auth.ts:13-17 | the header "Bearer " leaves an empty token and gets "No token provided" |
| Bearer.StandardHeader | src/middleware/auth.ts:13 | "Bearer " + t gives t, even when t itself contains "Bearer " |
| Bearer.UnanchoredRemoval | src/middleware/auth.ts:13 | "xBearer y" gives "xy" |
| Bearer.HeaderWithoutScheme | src/middleware/auth.ts:13-26 | a header without "Bearer " goes to the verifier unchanged; "Invalid token" on failure, the payload on success |
| Auth.AuthMiddleware | src/middleware/auth.ts:8-27 | the outcome is `Guard`'s: 401 "No token provided" for an absent or empty token, 401 "Invalid token" for one the verifier rejects, otherwise passed on; `req.user` is set to the payload exactly when the request is passed on |
| Token.VerifyToken | src/helper/token.ts:17-31 | the same extraction and guard as `authMiddleware` (the outcome is `Guard`'s, with both 401 replies), setting `req.user` exactly on success |
| Token.VerifyTokenEmail | src/helper/token.ts:33-44 | null exactly for the empty token; the payload when it verifies; the verifier's error rethrown otherwise |
| Token.EmptyEmailTokenIgnoresVerifier | src/helper/token.ts:35-37 | the empty token gets null whatever the verifier would say |
| Token.RejectedTokenHandledDifferently | src/helper/token.ts:28-43 | on a rejected token `verifyToken` answers 401 "Invalid token" while `verifyTokenEmail` throws |
| Token.VerifiedTokenSamePayload | src/helper/token.ts:24-40 | on a valid token both helpers yield the verifier's payload |
| UserModel.NormaliseEmail | src/models/user.ts:25-26 | the stored email is the ASCII-lower-cased input with the white space at both ends cut off: a slice of it whose surroundings are all white space; it has no ASCII upper-case letter and no white space at either end |
| UserModel.NameErrors | src/models/user.ts:14-17 | "Name is required" exactly when the name is absent or empty |
| UserModel.EmailErrors | src/models/user.ts:22-27 | "Email is required" exactly when the email is absent or empty after lower-casing and trimming |
| UserModel.PasswordErrors | src/models/user.ts:28-32 | no error iff the password has at least 6 characters; at most one error for the path |
| UserModel.ValidateUser | src/models/user.ts:12-37 | valid iff name, email and password constraints all hold; then the stored fields have the normalised email and `verified` defaulting to false; otherwise the errors of each failing path in schema order |
| UserModel.VerifiedDefaultsToFalse | src/models/user.ts:18-21 | without a `verified` field the new user is unverified |
| UserModel.MissingFieldRefused | src/models/user.ts:14-30 | a missing name, email or password fails with that field's message |
| UserModel.ShortPasswordRefused | src/models/user.ts:31 | a password of 1 to 5 characters fails with "Password must be at least 6 characters long" |
| UserModel.NormaliseEmailIdempotent | src/models/user.ts:25-26 | normalising a stored email again changes nothing |
| UserModel.TrimTrimmed | src/models/user.ts:26 | trimming a string with no white space at its ends changes nothing |
| UserModel.CleanEmailStoredUnchanged | src/models/user.ts:22-27 | an email without upper case or surrounding white space is stored exactly as given |
| UserModel.UserDocument.Save | src/models/user.ts:40-53 | the password is replaced by its hash exactly when the path was modified; the modified mark is then cleared |
| UserModel.UserDocument.SetPassword | src/models/user.ts:42 | assigning the password marks the path as modified |
| UserModel.SaveTwiceHashesOnce | src/models/user.ts:40-49 | a second save does not hash the hash again |
| Accounts.FindByEmail | src/controllers/user.ts:12-15 | the first record whose email equals the normalised filter email (verified only when asked); found iff one exists |
| Accounts.FindById | src/controllers/user.ts:41 | the first record with the id; none exactly when no record has it |
| Accounts.CreateAccountOutcome | src/controllers/user.ts:6-30 | 400 "Email already in used. fff" iff a verified user has the email; a validation error iff none does and the body is invalid; otherwise exactly one record appended with the new id, answered 200 "Success" with that record when the mail goes out and passed on as the mail error when it fails |
| Accounts.VerifyEmailTokenOutcome | src/controllers/user.ts:31-65 | every branch: empty token gives 400 "Error verifying the token "; a rejected token passes on the verifier's error; no record with the token's id gives 400 "No account linked to this token."; an already verified one gives 400 "Token has already been used."; otherwise that record alone becomes verified, with 200 "Congrats your account is verified."; only this last case changes the table |
| Accounts.LoginOutcome | src/controllers/user.ts:66-81 | a login iff the first record with the normalised email exists and is verified, and then for exactly that record, with the token signed for its id, and marked as ending the process after the reply exactly when the password is missing; "Wrong creadentils. " (400) otherwise |
| Accounts.UserTable.CreateAccount | src/controllers/user.ts:6-30 | keeps ids unique; response and new table are `CreateAccountOutcome` of the old table |
| Accounts.UserTable.VerifyEmailToken | src/controllers/user.ts:31-65 | keeps ids unique; response and new table are `VerifyEmailTokenOutcome` of the old table |
| Accounts.UserTable.Login | src/controllers/user.ts:66-81 | changes nothing; the response is `LoginOutcome`: a login is for a verified stored user, and it ends the process after the reply exactly when the password is missing |
| Accounts.CreateBlockedOnlyByVerifiedDuplicate | src/controllers/user.ts:12-18 | creation is refused iff a VERIFIED user has the normalised email; unverified duplicates do not block |
| Accounts.CreateAppendsOneRecord | src/controllers/user.ts:19 | a successful creation appends exactly one record: new id, normalised email, hashed password, `verified` from the body or false; when the mail goes out the reply carries that record |
| Accounts.MailFailureKeepsRecord | src/controllers/user.ts:19-28 | a mail failure is passed on as an error, yet the new record stays |
| Accounts.BodyCanPreVerify | src/controllers/user.ts:19 | a body with `verified: true` creates an already verified account |
| Accounts.CreatePreservesUniqueIds | src/controllers/user.ts:19 | creation with a fresh id keeps record ids unique |
| Accounts.VerifyTouchesOnlyTarget | src/controllers/user.ts:51-57 | a failed verification changes nothing; a successful one sets `verified` on the record with the token's id and on no other |
| Accounts.VerifyAtMostOnce | src/controllers/user.ts:42-57 | after a successful verification the same token answers "Token has already been used." and changes nothing |
| Accounts.ExpiredLinkAnswered401 | src/controllers/user.ts:37-64 | an expired link token is passed on, and the error handler answers 401 "Token has expired" |
| Accounts.InvalidBodyAnswered400 | src/controllers/user.ts:19-28 | an invalid sign-up body changes nothing, and the error handler answers 400 "Invalid data format" |
| Accounts.LoginIffFirstMatchVerified | src/controllers/user.ts:68-71 | login succeeds iff the first user with the email exists and is verified |
| Accounts.LoginIgnoresPassword | src/controllers/user.ts:72-77 | the password plays no part in the reply: the same answer, user and token for any two passwords, since the un-awaited comparison is always truthy; only whether one is present changes the crash mark |
| Accounts.MissingPasswordCrashesAfterLogin | src/models/user.ts:56-65 | a verified user logging in without a password gets the login reply, and then the rejected comparison ends the process; with a string password it does not |
| Accounts.UnverifiedDuplicateShadowsLogin | src/controllers/user.ts:68-71 | an earlier unverified record with the email makes login fail although a later one is verified |
| Accounts.TwoVerifiedAccountsCanShareEmail | src/controllers/user.ts:12-57 | two sign-ups with one email, both then verified, leave two verified records with that email |
| RecipeModel.IngredientOf | src/models/recipe.ts:24-36 | an ingredient keeps exactly the name, quantity and unit keys of the request object |
| RecipeModel.DirectionOf | src/models/recipe.ts:37-46 | a direction keeps exactly the title and description keys |
| RecipeModel.IngredientRequirements | src/models/recipe.ts:24-36 | an ingredient is valid iff it has a non-empty name and quantity; unit is optional |
| RecipeModel.DirectionRequirements | src/models/recipe.ts:37-46 | a direction is valid iff it has a non-empty title and description |
| RecipeModel.MisspeltTitleRejected | src/models/recipe.ts:37-41 | a direction spelt with `tittle`, as the interface has it, fails validation |
| RecipeModel.NewRecipe | src/controllers/recipe.ts:16-20 | the new recipe has the poster as `dishId`, the request's arrays (empty when absent) and no other field set |
| RecipeModel.NewRecipeValidity | src/models/recipe.ts:68-81 | a new recipe is valid iff every given ingredient and direction is |
| RecipeModel.OptionalFieldsFree | src/models/recipe.ts:49-67 | the optional text fields and `userId` never affect validity |
| Recipes.With | src/controllers/recipe.ts:88 | a document gets the key only when the value is present; other keys are untouched |
| Recipes.RecipeDoc | src/controllers/recipe.ts:88 | a recipe's fields include its `_id`, its two arrays, and its name when it has one |
| Recipes.PosterDoc | src/controllers/recipe.ts:88 | a poster's fields include its `_id`, have no arrays, and have a name iff the poster has one |
| Recipes.Merge | src/controllers/recipe.ts:88 | the spread merge has every key of both documents; the poster's value wins on shared keys |
| Recipes.FindRecipeIndex | src/controllers/recipe.ts:34 | the first recipe with the id; none exactly when no recipe has it |
| Recipes.FindByDish | src/controllers/recipe.ts:80-82 | `findOne({ dishId })`: the first recipe of the dish; none exactly when no recipe has that `dishId` |
| Recipes.FindPoster | src/controllers/recipe.ts:10 | `findPoster`: a poster with the id; none exactly when no poster has it |
| Recipes.AddRecipeOutcome | src/controllers/recipe.ts:6-25 | unknown poster gives 400 "No poster in this Id. " and no change; a known poster with a valid new recipe gives 201 "Add successfully. " and the table with that recipe appended; an invalid one passes on the validation error and changes nothing |
| Recipes.UpdateRecipeOutcome | src/controllers/recipe.ts:27-54 | unknown id gives 400 "No recipe found with this id." and no change; an absent list gives 200 with the recipe unchanged; an invalid list passes on the validation error; a valid list replaces that recipe's `ingredients`, answered 200 "Updated successfully" with the updated recipe |
| Recipes.FindRecipeOutcome | src/controllers/recipe.ts:56-66 | the recipe with the id (200) iff one exists, else 400 "No recipe in this Id. " |
| Recipes.RecipeByDishIdOutcome | src/controllers/recipe.ts:67-92 | always status 200; "No poster in this id. " when the poster is missing |
| Recipes.RecipeStore.AddRecipe | src/controllers/recipe.ts:6-25 | posters unchanged; response and new recipes are `AddRecipeOutcome` of the old table |
| Recipes.RecipeStore.UpdateRecipe | src/controllers/recipe.ts:27-54 | posters unchanged; response and new recipes are `UpdateRecipeOutcome` of the old table |
| Recipes.RecipeStore.FindRecipe | src/controllers/recipe.ts:56-66 | read-only; a found recipe is in the table and has the id |
| Recipes.RecipeStore.GetRecipeByDishId | src/controllers/recipe.ts:67-92 | read-only; `RecipeByDishIdOutcome`, always with status 200 |
| Recipes.RecipeStore.FindAllRecipes | src/controllers/recipe.ts:93-104 | every recipe is returned, with status 200 |
| Recipes.AddedRecipeFields | src/controllers/recipe.ts:16-20 | an added recipe is appended after the old ones, belongs to an existing poster, has the request's arrays and nothing else set |
| Recipes.UpdateReplacesOnlyIngredients | src/controllers/recipe.ts:38-47 | an update changes only the `ingredients` of the one recipe with the id, and only to a valid list; a missing recipe or absent list changes nothing |
| Recipes.PosterFieldsWin | src/controllers/recipe.ts:88 | the merged dish has the poster's `_id` and name, and the recipe's arrays |
| Recipes.FirstRecipeOfDishShown | src/controllers/recipe.ts:80-88 | the dish is merged with the first recipe whose `dishId` matches |
| RecipeModel.NewRecipeAsWritten | src/controllers/recipe.ts:16-20 | the recipe stored as written has no `dishId`, and the request's arrays |
| Recipes.AsWrittenAddedRecipeNotFound | src/controllers/recipe.ts:16-20 | as written, a recipe just added under an existing poster is not found by that poster's id: "No recipe in this id. " |
| Recipes.AddedRecipeFoundByDish | src/controllers/recipe.ts:80-88 | with `dishId` stored, a recipe added under a poster that had none is the one merged into that poster's reply |
| Recipes.DishWithoutRecipeIsNotAnError | src/controllers/recipe.ts:84-86 | a dish without recipes gets 200 "No recipe in this id. ", not an error status |

## Left out

- Transport and I/O are outside the model: HTTP, `console` logging, and the `next()` call after the error reply. Mongoose timestamps are out too.
- Spoonacular calls: the model does not include the `axios` requests, the result count of 20, the API key or `getRecipeInformation`. Only the `ingredients` parameter is modelled. A body whose `search` is not a string would also throw and get 500; the model treats `search` as a string or absent.
- JWT: the model does not cover signing with a 7-day expiry, the secrets, or the two middlewares using different secrets. Verification is the `Verifier` function and signing is the `sign` function.
- bcrypt: the model does not include salt generation or a hashing failure passed to `next`. Hashing is the `hash` function.
- Accounts.LoginOutcome: the un-awaited `comparePassword` is modelled only by whether it rejects. It rejects when the password is missing; a body value that is not a string counts as missing. Its result, match or no match, never reaches the reply. The crash is a mark on the reply: the model does not cover the requests that are lost when the process ends, and it assumes Node 15 or later.
- Mail: the template and transport in src/email/sendEmail.ts are out. Only whether sending fails is modelled.
- Mongoose behaviour the model assumes rather than re-specifies:
  - a `required` string fails on the empty string;
  - a `required` array passes when empty, and a missing array defaults to empty;
  - each path reports its first failing validator;
  - a query filter's email goes through the schema's `lowercase`/`trim` setters;
  - an `undefined` key in an update is dropped.
- Unique-index enforcement is out: `directions` is declared `unique` in the recipe schema.
- Malformed ids are out. A `findById` or `findPoster` with a malformed id throws a CastError; the model treats ids as opaque keys. Database failures passed to `next` are out too.
- Strict mode beyond `dishId` is left out: the handlers store and filter only declared paths. For `dishId` see "## Findings".
- Accounts.FindByEmail: a filter without an email (the request has no `email`) is taken to match no record. The driver's treatment of an `undefined` filter value is not modelled.
- UserModel.NormaliseEmail: only ASCII letters are lower-cased, while the schema's `lowercase` setter lowers all of Unicode ("É" becomes "é"). Two emails that differ only in the case of a non-ASCII letter are one email in the program and two in the model. This affects the duplicate check of `createAccount` and the lookup of `login`.
- JsText.LowerAscii: only ASCII letters are lower-cased. In the search this is exact, because non-ASCII characters are deleted first. In the upload filter, no non-ASCII character lowers into one of the five ASCII patterns.
- JsText.Trim: characters are modelled as code points, not UTF-16 code units. This also affects the password length count in UserModel.PasswordErrors.
- Upload.DecimalString: `Date.now()` is taken as a natural number written in plain decimal. `path.extname` is not modelled: the extension is an input.
- The upload size limit of 5 MB and the disk destination are left out; multer enforces them.
- The following are not part of this model:
  - the paginated listing and the save/unsave operations;
  - the poster and article controllers and src/services.ts/poster.ts;
  - the routers, the database and Cloudinary configuration, and src/index.ts.

## Findings

| source | as written | input that shows it | evidently intended | confidence | as-written member | corrected member |
|---|---|---|---|---|---|---|
| src/controllers/recipe.ts:16-20 | `addRecipe` creates the recipe with `dishId`, but the recipe schema (src/models/recipe.ts:48-84) declares no `dishId`, so strict mode drops it. `findOne({ dishId: id })` at src/controllers/recipe.ts:80-82 then matches no stored recipe. Under `strictQuery` the filter would instead be dropped, and the first recipe of any dish would be returned. | add a recipe under an existing poster P, then ask `getRecipeByDishId` for P: the reply is "No recipe in this id. " | the recipe stores the poster's id as `dishId`, and the lookup by dish returns the poster's first recipe | medium; not executed | Recipes.AsWrittenAddedRecipeNotFound | Recipes.AddedRecipeFoundByDish |
