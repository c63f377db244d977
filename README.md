# Notes-App: a verified model of the account, note and reset-code handlers

This project models three pieces of the Notes-App repository, and proves what they promise:

- **Account handlers** (`back-end/Controllers/userController.js`). These are registration, e-mail verification, login, logout, the reset-code request, reset-code verification and the password change. Each handler is a transition over three stores:
  - the user collection, keyed by id, with unique e-mail addresses;
  - the session collection, a bag of user ids;
  - the mail sent so far.
- **Note handlers** (`back-end/Controllers/noteController.js`). These are create, list, fetch, update and delete. Each one works only on notes whose owner is the authenticated caller.
- **Reset-code entry form** (`front-end/src/pages/VerifyOTP.jsx`). This is six one-character boxes, the form field that joins them, the focused box, and the six-digit rule the form applies.

Module layout:

- `options.dfy`: `Options.Option`, the absent-or-present value used for nullable fields.
- `digits.dfy`: `Digits`. Decimal digit strings and the number-to-string conversion used for reset codes.
- `auth.dfy`: `Auth`. It holds:
  - the user, token and store types;
  - the store invariant `Valid`;
  - one function per account handler. The function gives the store after the request and the reply (status code and which message).
- `user_controller.dfy`: `UserController.Controller`. This class has the three stores and the id generator as fields, updated in place. Each method follows its handler's checks in order and is proved to end in the state, and send the reply, that the matching `Auth` function gives, while keeping `Auth.Valid`.
- `auth_properties.dfy`: `AuthProperties`. Lemmas about the account handlers: the invariant is kept, the checks run in order, a reset code is single-use, logout is idempotent, a second login leaves one session, and a whole sign-up sequence.
- `note_controller.dfy`: `NoteController`. The note store class and its three changing handlers, the two queries as functions, and lemmas on owner isolation and frames.
- `verify_otp_page.dfy`: `VerifyOtpPage`. The entry form as a class over a six-element array.

Stand-ins for what the repository does not contain:

- **bcrypt.** `Auth.Hash` stands for the salted hash. It is modelled as an injective wrapper, so distinct passwords have distinct hashes. A password check succeeds when the stored hash equals `Hash(password)`.
- **JSON web tokens.** A signed token is its claims, `Token(id, expiresAt)`. A token whose signature or format fails is `Unverifiable`. The token library treats a token as expired once `now >= expiresAt`.
- **`Date.now()`.** The parameter `now`, in milliseconds. Lifetimes are 10 minutes for the registration token and the reset code, 10 days for the access token and 30 days for the refresh token.
- **`Math.random()`.** The generated reset code is any integer in 100000..999999, rendered as a decimal string.
- **Absent request fields.** A field that is absent, `null` or `""` is falsy in every handler. The model writes all three as `""`.
- **Mongoose defaults.** The model files are not part of this model. A new user is assumed to start with `isVerified = false` and `isLoggedIn = false`, and with no reset code and no expiry.

## Model

| member | source | states |
|---|---|---|
| `Digits.Decimal` | back-end/Controllers/userController.js:240 | `toString` of a number is a non-empty string of decimal digits |
| `Digits.DecimalRoundTrip` | back-end/Controllers/userController.js:240 | reading the decimal rendering back gives the number |
| `Digits.SixDigitCode` | back-end/Controllers/userController.js:240 | every generated code in 100000..999999 renders as exactly six digits, denoting the drawn number |
| `Auth.FindByEmail` | back-end/Controllers/userController.js:19 | the lookup finds a user holding the address, or none exists |
| `Auth.ReplaceSession` | back-end/Controllers/userController.js:159-165 | deleting one session of the user when one exists, then creating one, leaves the user one session if there were none or one; other users' sessions are unchanged |
| `Auth.Register` | back-end/Controllers/userController.js:8-61 | 201 exactly when all three fields are present and the address is new; otherwise 400 with the stores unchanged |
| `Auth.VerifyUser` | back-end/Controllers/userController.js:63-118 | checks in order, each failure leaving the stores unchanged: no Bearer header gives 400, an unverifiable token 400, an expired token 400, an unknown id 404. 200 exactly for a live bearer token of an existing user; then only that user's record changes, to verified with no stored token |
| `Auth.Verification` | back-end/Controllers/userController.js:74-111 | after the header check: an unverifiable token gives 400, an expired one 400, an unknown id 404, all with nothing changed; a live token of a known user gives 200 and saves only that user's record, verified and without its token |
| `Auth.Login` | back-end/Controllers/userController.js:120-198 | a missing field gives 400, an unknown address 401, a wrong password 402, an unverified user 403; every failure changes nothing and issues no tokens. 200 exactly for a verified user with the right password; then the user gets a 10-day and a 30-day token, only that user's record changes (`isLoggedIn` set), and the user's session is replaced |
| `Auth.Logout` | back-end/Controllers/userController.js:200-220 | always 200; the user has no session left and other sessions are untouched; only the user's record changes, to logged out; an unknown id leaves the users unchanged; ids and mail are unchanged |
| `Auth.ForgetPassword` | back-end/Controllers/userController.js:222-259 | a missing address gives 402 and an unknown one 401, changing nothing. 200 exactly for a present, registered address; then only that user's record changes (code and ten-minute expiry set), sessions are unchanged, and the code is mailed to the address |
| `Auth.VerifyOtp` | back-end/Controllers/userController.js:261-319 | checks in order, each failure changing nothing: a missing code gives 400, an unknown address 404, no pending code 401, an expired code 401 (checked before the comparison), a different code 400. 200 exactly when a code is pending, not expired at `now`, and equal; then only that user's record changes, with code and expiry cleared |
| `Auth.ChangePassword` | back-end/Controllers/userController.js:321-362 | a missing field gives 400, differing passwords 400, an unknown address 404, each changing nothing. 200 exactly when the passwords are present and equal and the address is registered; then only that user's record changes, to `Hash(newPassword)` |
| `Auth.VerifyUserAsWritten` | back-end/Controllers/userController.js:63-118 | verifyUser as written: a Bearer header is handled exactly as by the corrected handler; any other header gets 400. With no header nothing is stored. With a non-Bearer header whose second word is a live token of a known user, that user's record is still saved as verified and tokenless; otherwise nothing changes |
| `AuthProperties.FindsTheOwner` | back-end/Controllers/userController.js:19 | with unique addresses, the lookup returns the one user holding the address |
| `AuthProperties.SameEmailKeepsUnique` | back-end/Controllers/userController.js:179-181 | saving a user record whose address is unchanged keeps addresses unique |
| `AuthProperties.InitialValid` | back-end/Controllers/userController.js:1-6 | the empty user and session collections of a fresh database meet the invariant |
| `AuthProperties.RegisterKeepsValid` | back-end/Controllers/userController.js:19-48 | registration keeps ids fresh, addresses unique and non-empty, reset-code fields paired, and sessions consistent |
| `AuthProperties.VerifyUserKeepsValid` | back-end/Controllers/userController.js:103-106 | e-mail verification keeps the invariant |
| `AuthProperties.LoginKeepsValid` | back-end/Controllers/userController.js:159-181 | login keeps at most one session per user, and `isLoggedIn` agrees with the session store |
| `AuthProperties.LogoutKeepsValid` | back-end/Controllers/userController.js:205-208 | logout keeps the invariant |
| `AuthProperties.ForgetPasswordKeepsValid` | back-end/Controllers/userController.js:240-246 | the code and its expiry are set together, and the code is six digits |
| `AuthProperties.VerifyOtpKeepsValid` | back-end/Controllers/userController.js:305-307 | the code and its expiry are cleared together |
| `AuthProperties.ChangePasswordKeepsValid` | back-end/Controllers/userController.js:348-350 | the password change keeps the invariant |
| `AuthProperties.RegisterAddsOneUser` | back-end/Controllers/userController.js:29-48 | success adds exactly one user, under a fresh id, holding the address, `Hash(password)`, unverified, with a 10-minute token for the new id that is also mailed; nothing else changes |
| `AuthProperties.RegisterTwiceFails` | back-end/Controllers/userController.js:19-26 | registering the same address again gives 400 "already exists" and changes nothing |
| `AuthProperties.ExpiredTokenRefused` | back-end/Controllers/userController.js:78-86 | an expired token gives 400 "expired" and changes nothing, whether or not its user exists |
| `AuthProperties.VerifyUserMarksVerified` | back-end/Controllers/userController.js:94-111 | a live token of a known user sets `isVerified = true` and clears the stored token for that user only |
| `AuthProperties.LoginWrongPasswordBeforeUnverified` | back-end/Controllers/userController.js:142-156 | an unverified user with a wrong password gets 402, not 403, and nothing changes |
| `AuthProperties.LoginUnverifiedForbidden` | back-end/Controllers/userController.js:150-156 | the right password still gives 403 while unverified |
| `AuthProperties.LoginOpensOneSession` | back-end/Controllers/userController.js:158-181 | success returns a 10-day access token and a 30-day refresh token for the user; only that record changes, with `isLoggedIn` set; a user with at most one session ends with exactly one; other sessions and users are unchanged |
| `AuthProperties.LoginTwiceOneSession` | back-end/Controllers/userController.js:158-165 | logging in twice leaves exactly one session |
| `AuthProperties.LogoutIdempotent` | back-end/Controllers/userController.js:205-208 | logging out twice gives the same stores and reply as logging out once |
| `AuthProperties.ForgetPasswordIssuesCode` | back-end/Controllers/userController.js:240-247 | success stores the six-digit rendering of the drawn number, whose value is the draw, with expiry `now + 600000`; no other record or session changes; the same code is mailed |
| `AuthProperties.OtpSingleUse` | back-end/Controllers/userController.js:284-307 | once a code is accepted, any further attempt for the address gets 401 "not generated or already verified" |
| `AuthProperties.OtpAcceptedAtExpiry` | back-end/Controllers/userController.js:291-296 | a matching code is still accepted at the exact expiry instant |
| `AuthProperties.ResetCodeRoundTrip` | back-end/Controllers/userController.js:240-307 | the code a successful reset request mails is accepted for the same address at any time from the request up to ten minutes later |
| `AuthProperties.OtpRefusedAfterExpiry` | back-end/Controllers/userController.js:291-296 | after expiry a matching code gets 401 "expired" and nothing changes |
| `AuthProperties.OtpAcceptedClearsBoth` | back-end/Controllers/userController.js:305-307 | acceptance clears both the code and its expiry, and touches nothing else |
| `AuthProperties.ChangePasswordIgnoresOtp` | back-end/Controllers/userController.js:339-350 | for a registered address, matching passwords replace the hash whatever the reset-code state; that state, every other user and the sessions are left as they were |
| `AuthProperties.RegisteredUnverified` | back-end/Controllers/userController.js:19-156 | a fresh registration mails a 10-minute token for the new id, keeps the invariant, and a login with the right password then gets 403 and changes nothing |
| `AuthProperties.VerifiedLogin` | back-end/Controllers/userController.js:142-181 | a verified user logs in with the right password (200, two tokens) and a wrong password afterwards gets 402 |
| `AuthProperties.SignupScenario` | back-end/Controllers/userController.js:8-198 | register gives 201, login gives 403, verifying with the mailed token gives 200, login gives 200 with tokens, and a wrong password gives 402 |
| `AuthProperties.VerifyUserAsWrittenVerifiesDespite400` | back-end/Controllers/userController.js:67-106 | as written, a non-Bearer header carrying a live token gets 400 yet marks the user verified; the corrected handler changes nothing |
| `UserController.Controller.constructor` | back-end/Controllers/userController.js:1-6 | starts from empty collections, which meet the invariant |
| `UserController.Controller.RegisterUser` | back-end/Controllers/userController.js:8-61 | the stores and the reply are those of `Auth.Register`, and the invariant is kept |
| `UserController.Controller.VerifyUser` | back-end/Controllers/userController.js:63-118 | the stores and the reply are those of `Auth.VerifyUser`, and the invariant is kept |
| `UserController.Controller.LoginUser` | back-end/Controllers/userController.js:120-198 | the stores, reply and tokens are those of `Auth.Login`, and the invariant is kept |
| `UserController.Controller.LogoutUser` | back-end/Controllers/userController.js:200-220 | the stores and the reply are those of `Auth.Logout`, and the invariant is kept |
| `UserController.Controller.ForgetPassword` | back-end/Controllers/userController.js:222-259 | for some code drawn in 100000..999999, the stores and the reply are those of `Auth.ForgetPassword`, and the invariant is kept |
| `UserController.Controller.VerifyOtp` | back-end/Controllers/userController.js:261-319 | the stores and the reply are those of `Auth.VerifyOtp`, and the invariant is kept |
| `UserController.Controller.ChangePassword` | back-end/Controllers/userController.js:321-362 | the stores and the reply are those of `Auth.ChangePassword`, and the invariant is kept |
| `NoteController.GetSingleNote` | back-end/Controllers/noteController.js:39-50 | a note is returned exactly when the id exists and belongs to the caller, and it is the stored note |
| `NoteController.Newest` | back-end/Controllers/noteController.js:30-32 | picks the note that sorts first: newest, with ties broken by the larger id |
| `NoteController.Listing` | back-end/Controllers/noteController.js:30-32 | one entry per given id, each the stored note |
| `NoteController.ListingCovers` | back-end/Controllers/noteController.js:30-32 | every given id appears in the listing |
| `NoteController.ListingOrdered` | back-end/Controllers/noteController.js:30-32 | no id is listed twice, and each entry sorts before every later one (newer first, larger id first on a tie) |
| `NoteController.OwnedBy` | back-end/Controllers/noteController.js:30 | exactly the ids of the caller's notes |
| `NoteController.GetNotes` | back-end/Controllers/noteController.js:28-37 | exactly the caller's notes, each once, none of another user, sorted by `createdAt` descending |
| `NoteController.Created` | back-end/Controllers/noteController.js:13-17 | the store after `Note.create`: exactly one id added, holding the caller's note with the name, empty content and creation time; every other note unchanged |
| `NoteController.Updated` | back-end/Controllers/noteController.js:55-59 | the store after `findOneAndUpdate({ _id, userId }, { content })`: same ids; the matching owned note gets the new content; without a match the store is unchanged; no other note changes |
| `NoteController.Deleted` | back-end/Controllers/noteController.js:70-73 | the store after `findOneAndDelete({ _id, userId })`: exactly the matching owned note is removed, without a match the store is unchanged, and every remaining note is as before |
| `NoteController.NoteStore.constructor` | back-end/Controllers/noteController.js:1 | an empty note collection |
| `NoteController.NoteStore.CreateNote` | back-end/Controllers/noteController.js:3-26 | a missing name gives 400 and adds nothing; otherwise 201, and exactly one note is added under a fresh id, owned by the caller, with the name and empty content; existing notes are unchanged |
| `NoteController.NoteStore.UpdateNote` | back-end/Controllers/noteController.js:52-66 | 200 and only that note's content replaced when the caller owns the id; otherwise 404 with the store unchanged |
| `NoteController.NoteStore.DeleteNote` | back-end/Controllers/noteController.js:68-92 | 200 and exactly that note removed when the caller owns the id; otherwise 404 with the store unchanged |
| `NoteController.ForeignNoteLooksMissing` | back-end/Controllers/noteController.js:41-45 | another user's note is answered exactly as a nonexistent id |
| `NoteController.UpdateFrame` | back-end/Controllers/noteController.js:55-61 | update keeps the note's name, owner, creation time and every other note; a later fetch shows the new content; with no match the store is unchanged |
| `NoteController.DeleteFrame` | back-end/Controllers/noteController.js:70-80 | delete removes exactly the matching note, changes no other, and a later fetch of that id finds nothing |
| `NoteController.ListingLocal` | back-end/Controllers/noteController.js:30-32 | the listing of a set of ids depends only on those notes |
| `NoteController.SameOwnedNotesSameListing` | back-end/Controllers/noteController.js:30-32 | two stores that agree on a user's notes list the same for that user |
| `NoteController.CreateIsolated` | back-end/Controllers/noteController.js:13-17 | a note one user creates under a fresh id never changes another user's listing |
| `NoteController.UpdateIsolated` | back-end/Controllers/noteController.js:55-59 | an update by one user, of any id, existing or not, never changes another user's listing |
| `NoteController.DeleteIsolated` | back-end/Controllers/noteController.js:70-73 | a delete by one user, of any id, existing or not, never changes another user's listing |
| `NoteController.NoteLifecycle` | back-end/Controllers/noteController.js:13-80 | create gives a note with empty content; update then fetch shows the content; delete restores the store, and a fetch then finds nothing |
| `VerifyOtpPage.JoinOfSlots` | front-end/src/pages/VerifyOTP.jsx:68-69 | joining boxes that are empty or one digit gives a digit string with one digit per filled box |
| `VerifyOtpPage.SchemaAcceptsIffAllFilled` | front-end/src/pages/VerifyOTP.jsx:11-16 | the joined value matches `^\d{6}$` exactly when all six boxes are filled |
| `VerifyOtpPage.JoinOfSingles` | front-end/src/pages/VerifyOTP.jsx:90-100 | boxes holding a digit string's characters in order join back to that string |
| `VerifyOtpPage.JoinOfEmpty` | front-end/src/pages/VerifyOTP.jsx:21 | six empty boxes join to the empty string |
| `VerifyOtpPage.AcceptedIsSlot` | front-end/src/pages/VerifyOTP.jsx:58-61 | `handleChange` writes a value exactly when it is empty or one digit |
| `VerifyOtpPage.DigitsOf` | front-end/src/pages/VerifyOTP.jsx:86-88 | removing non-digits leaves only digits, no longer than the text, and leaves a digit string unchanged |
| `VerifyOtpPage.DigitsOfKeepsDigits` | front-end/src/pages/VerifyOTP.jsx:86-88 | every digit of the text survives as often as it occurs, and nothing else survives |
| `VerifyOtpPage.DigitsOfAppend` | front-end/src/pages/VerifyOTP.jsx:86-88 | sanitising a concatenation is the concatenation of the sanitised parts, so the digits keep their order in the text |
| `VerifyOtpPage.PastedDigits` | front-end/src/pages/VerifyOTP.jsx:86-89 | at most six digits, the first ones of the sanitised text |
| `VerifyOtpPage.FocusAfterPaste` | front-end/src/pages/VerifyOTP.jsx:103 | focus goes to the box after the pasted ones, and to the last box once five or more digits were pasted |
| `VerifyOtpPage.PastingIssuedCode` | front-end/src/pages/VerifyOTP.jsx:86-89 | a mailed six-digit code pastes in whole and passes the form's rule |
| `VerifyOtpPage.PasteOutcome` | front-end/src/pages/VerifyOTP.jsx:90-100 | writing pasted digits over the first boxes keeps every box empty or one digit; the joined value passes the rule exactly when all boxes are filled, and six pasted digits join to themselves |
| `VerifyOtpPage.OtpForm.constructor` | front-end/src/pages/VerifyOTP.jsx:21 | six empty boxes; the form is not yet valid |
| `VerifyOtpPage.OtpForm.HandleChange` | front-end/src/pages/VerifyOTP.jsx:56-75 | a value longer than one character, or a non-empty non-digit, changes nothing; otherwise only box `index` is set (an empty value clears it); a typed digit below box 5 moves focus to `index + 1`; every box stays empty or one digit, and the form is valid exactly when all are filled |
| `VerifyOtpPage.OtpForm.HandleKeyDown` | front-end/src/pages/VerifyOTP.jsx:77-82 | Backspace in an empty box other than the first moves focus back one box; the boxes are unchanged |
| `VerifyOtpPage.OtpForm.HandlePaste` | front-end/src/pages/VerifyOTP.jsx:84-105 | boxes `0..n-1` receive the first `n <= 6` pasted digits in order and boxes `n..5` keep their contents; focus goes to `min(n, 5)`; pasting six digits makes the form value those digits and valid |

## Findings

| source | as written | input that shows it | evidently intended | confidence | as-written member | corrected member |
|---|---|---|---|---|---|---|
| back-end/Controllers/userController.js:67-74 | the handler sends 400 for a header without the "Bearer " prefix but does not return. It goes on to verify the header's second word and marks that user verified before the second reply fails | `Authorization: Token <live registration token>` for an unverified user | return after the 400 and change nothing | medium, not executed | `AuthProperties.VerifyUserAsWrittenVerifiesDespite400` | `Auth.VerifyUser` |

## Left out

- E-mail delivery (`verifyMail`, `sendOTP`, their templates and transport) is modelled only as appending to the outbox. The registration mail is not awaited (userController.js:45), so a delivery failure does not fail the request; the model appends in both cases.
- bcrypt's salt and cost factor are not modelled: `Hash` is deterministic. Only the password check's outcome matters.
- Auth.Hash: is injective over whole passwords. bcrypt only looks at the first 72 bytes of a password, so in the source a different password sharing those 72 bytes passes login; the model answers 402 for it.
- JSON web token signing, the shared secret and second-granularity expiry are not modelled. The registration token's `username` claim is left out because no handler reads it.
- The `isAuthenticated` middleware is not part of this model. Logout and the note handlers receive the user id it resolved.
- The route validator `back-end/Validators/userValidate.js` runs before `registerUser`; its length and e-mail format rules are not part of this model.
- Every 500 reply is left out: store failures, a malformed note id (a cast error), and a throw inside a handler.
- Reply bodies other than the login tokens are not modelled; a reply is its status and message. This hides a disclosure: the 201 of registration returns the saved user record (userController.js:47-54), which at that point holds the verification token, so a caller could verify without reading the mail; the 200 of login returns the user record with its stored hash (userController.js:186-190). Whether these fields reach the client depends on the user schema's JSON output, which is not part of this model.
- Concurrency is left out. Each request is one atomic transition, so the race between two logins (userController.js:159-165) that can briefly leave two sessions is not modelled. `Auth.ReplaceSession` still states what one login does to a user who already has two.
- Auth.VerifyUser: models the missing or malformed header branch as ending the request with 400. The code falls through (userController.js:67-74); that behaviour is `Auth.VerifyUserAsWritten`, which keeps only the first reply the client receives.
- Request fields of types other than strings are not modelled. For example, a numeric reset code never equals the stored string.
- NoteController.NoteStore.UpdateNote: an absent `content` in the request body is treated as a string. Mongoose would drop the undefined field and still answer 200.
- `updatedAt` and the other timestamps the note model may keep are not modelled. `createdAt` is the `now` passed to creation.
- NoteController.GetNotes: notes with equal `createdAt` are listed larger id first. MongoDB leaves their order unspecified.
- UserController.Controller.ForgetPassword: the code is any value in 100000..999999. The distribution of `Math.random()` is not modelled.
- In the entry form, React rendering, toasts, navigation and the request the form submits are left out. Focus is an index, starting at box 0. `e.key` is reduced to whether it is Backspace.
