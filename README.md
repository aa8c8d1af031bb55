# giftlist credential lifecycle, in Dafny

This project models the credential-lifecycle core of giftlist, a SvelteKit +
Prisma wish-list application, and proves properties of that model.

The model has four parts.

- **Record store.** Users, login sessions, password-reset sessions,
  email-verification requests and lists are held in one `Database` object
  (`store.dfy`). Each table is a map from id to row. `Valid()` states what the
  database schema enforces: every row sits under its own id, every row points
  at an existing user, and no two users share an email.
  A Prisma call that throws is modelled as a returned `Throws` or `false`.
  Such calls are a delete or update of a missing row, a duplicate key, a
  dangling foreign key, or a taken email.
- **Record managers.**
  - `session.dfy`: login sessions. Issuing, validation with expiry and
    rolling renewal, and invalidation.
  - `password_reset.dfy`: password-reset sessions and their cookie.
  - `email_verification.dfy`: email-verification requests and their cookie.
  - `user.dfy`: user rows.
  - `email.dfy`: email input checks.
  - `auth.dfy`: the Bearer-header parser.

  Each manager is a method or a function over the `Database`. Its contract states
  exactly what it deletes, inserts or updates and what it leaves alone.
- **Route handlers.** These are methods that run the source's guards in the
  same order and with the same status codes and messages.
  - `verify_email_route.dfy`: `load`, `verify` and `resend` of the
    verify-email page.
  - `reset_password_route.dfy`: the reset-password page.
  - `login_route.dfy`, `register_route.dfy`, `logout_route.dfy`,
    `profile_route.dfy` and `lists_route.dfy`: the other routes.

  Their contracts state, branch by branch, the answer and the new state of
  each table, the cookie jar (`Http.Cookies`) and the rate-limit buckets.
- **Pure helpers.**
  - `base32.dfy`: the RFC 4648 base32 encoding of tokens and ids.
  - `currency.dfy`: the currency table and price layout.
  - `toast.dfy`: the toast list store.

Inputs the source takes from the environment are parameters of the model:

- the SHA-256-and-hex token hash (`hashToken`);
- the password hash;
- the random bytes;
- the one-time codes;
- new row ids;
- the clock, read once per handler call as `now`, in milliseconds.

The `ExpiringTokenBucket` rate limiter is an object with opaque memory. Two
oracle functions stand for its `check` and `consume`. Emails that the code
would send are returned as a `Mail` value.

In these places the code departs from the usual design of this flow; the
model follows the code:

- Creating a password-reset session does not delete the user's earlier reset
  sessions; `PasswordReset.SecondResetKeepsFirst` shows the first one still
  validates.
- A completed password reset does not invalidate the user's login sessions
  (`ResetPasswordRoute.ResetPassword` keeps `sessions` unchanged).
- Deleting a missing session throws, so a delete is not silent
  (`Sessions.InvalidateSession`).
- Sessions carry no two-factor flag.
- In the email branch of `verify`, a refused consume answers 400, not 429.

## Model

| member | source | states |
|---|---|---|
| Base32.EncodeBase32LowerCaseNoPadding | src/lib/server/session.ts:97-102 | the unpadded lower-case encoding has ceil(8n/5) characters, all from the lower-case base32 alphabet |
| Base32.EncodeBase32 | src/lib/server/email-verification.ts:37-39 | the padded encoding is a whole number of 8-character groups, at most 7 longer than the unpadded length, made of upper-case letters and '=' |
| Base32.ToLowerCase | src/lib/server/email-verification.ts:39 | lower-casing keeps the length and maps each character by ASCII lower-casing |
| Base32.UpperLetterLowers | src/lib/server/email-verification.ts:39 | lower-casing an upper-case base32 letter gives the lower-case letter at the same position |
| Base32.LowerLetterStays | src/lib/server/email-verification.ts:39 | lower-casing leaves the lower-case alphabet unchanged |
| Base32.WholeBlocksFillWholeGroups | src/lib/server/email-verification.ts:37-39 | a whole number of 5-byte blocks encodes to a whole number of 8-character groups, so nothing is padded |
| Base32.LowercasedEncodingIsUnpadded | src/lib/server/email-verification.ts:37-39 | for whole 5-byte blocks, lower-casing the padded encoding equals the unpadded lower-case encoding, so request ids and session tokens share one form |
| Base32.LowerEncodingIsLowerCase | src/lib/server/session.ts:97-102 | lower-casing the lower-case encoding changes nothing |
| Base32.TwentyBytesAreThirtyTwoCharacters | src/lib/server/session.ts:97-102 | 20 random bytes encode to exactly 32 characters in either form, with no padding |
| Store.FindUserByEmail | src/lib/server/user.ts:140-144 | the lookup by the unique email finds a user exactly when one has that email, and that user is the only one with it |
| Store.SessionsWithoutUser | src/lib/server/session.ts:69-75 | deleteMany by user keeps exactly the sessions of other users, unchanged |
| Store.ResetSessionsWithoutUser | src/lib/server/password-reset.ts:99-105 | deleteMany by user keeps exactly the reset sessions of other users, unchanged |
| Store.RequestsWithoutUser | src/lib/server/email-verification.ts:64-70 | deleteMany by user keeps exactly the verification requests of other users, unchanged |
| Users.ViewOf | src/lib/server/user.ts:150-155 | the public view copies id, email and name, and emailVerified is true only when the stored flag is true (null counts as false) |
| Users.TrimStart | src/lib/server/user.ts:6-8 | the result is the input without its leading JavaScript whitespace: everything dropped is whitespace and the result does not start with whitespace |
| Users.TrimEnd | src/lib/server/user.ts:6-8 | the result is the input without its trailing JavaScript whitespace: everything dropped is whitespace and the result does not end with whitespace |
| Users.Trim | src/lib/server/user.ts:6-8 | trimming changes nothing exactly when the text is empty or neither starts nor ends with whitespace |
| Users.VerifyUsernameInput | src/lib/server/user.ts:6-8 | a username is accepted exactly when 3 < length < 32 and it neither starts nor ends with whitespace |
| Users.IsTrimmed | src/lib/server/user.ts:7 | a name equals its own trim exactly when it is empty or has whitespace at neither end |
| Users.CreateUser | src/lib/server/user.ts:10-33 | the insert succeeds exactly when the id is new and the email is free; the row holds the password hash, an unverified flag and the encrypted recovery code; the view has no password; a throw changes nothing |
| Users.UpdateUserPassword | src/lib/server/user.ts:35-45 | only that user's password hash changes; an unknown user throws with no change |
| Users.UpdateUserEmailAndSetEmailAsVerified | src/lib/server/user.ts:47-67 | succeeds exactly when the user exists and no other user holds the email; sets email and emailVerified, and the name only when a truthy username is given; otherwise nothing changes |
| Users.SetUserAsEmailVerifiedIfEmailMatches | src/lib/server/user.ts:69-87 | returns true exactly when a row with that id and email exists, and then only its emailVerified flag is set; otherwise nothing changes |
| Users.GetUserPasswordHash | src/lib/server/user.ts:89-104 | returns the stored hash of an existing user and throws for an unknown id |
| Users.GetUserRecoverCode | src/lib/server/user.ts:106-121 | throws when the user is missing or the recovery code is empty; otherwise returns the decrypted code |
| Users.ResetUserRecoveryCode | src/lib/server/user.ts:123-137 | for an existing user, stores the encrypted new code and returns the plain one; an unknown user throws with no change |
| Users.GetUserFromEmail | src/lib/server/user.ts:139-156 | null exactly when no user has the email, else the view of the user holding it |
| Emails.FirstAt | src/lib/server/email.ts:3-5 | finds the first '@' at or after a position, or proves there is none |
| Emails.LastDot | src/lib/server/email.ts:3-5 | finds the last '.' up to a position, or proves there is none |
| Emails.PatternByScan | src/lib/server/email.ts:3-5 | the regular expression `^.+@.+\..+$` (no `s` flag) matches exactly when there is no line terminator and the first '@' after position 0 comes before a later '.' that is not the last character |
| Emails.VerifyEmailInput | src/lib/server/email.ts:3-5 | accepted exactly when the pattern matches and the length is below 256; every line terminator or length ≥ 256 is refused; an accepted address has a non-empty local part, an '@', a '.' after it and a character after the '.' |
| Emails.CheckEmailAvailability | src/lib/server/email.ts:7-15 | available exactly when no user holds the email |
| Auth.ExtractTokenFromHeader | src/lib/server/auth.ts:49-54 | null for a missing or empty header; a token exactly when the header starts with the case-sensitive "Bearer ", and then the header is "Bearer " followed by the token, 7 characters longer |
| Auth.ExtractTokenRoundTrip | src/lib/server/auth.ts:49-54 | extracting from "Bearer " + t gives back t for every t, the empty one included |
| Http.AsString | src/routes/verify-email/+page.server.ts:148-156 | the `typeof code === 'string'` test: a value exactly for a text field, and it is that text |
| Http.ToStringOrNone | src/routes/profile/+page.server.ts:24-26 | `?.toString()`: none exactly for a missing field; text as itself; a file as "[object File]" |
| RateLimit.ExpiringTokenBucket.constructor | src/routes/verify-email/+page.server.ts:64 | a bucket holds its capacity, window and algorithm, with the given memory |
| RateLimit.ExpiringTokenBucket.Consume | src/routes/verify-email/+page.server.ts:164-170 | a consume answers and replaces the bucket memory exactly as the consume algorithm does |
| Sessions.GenerateSessionToken | src/lib/server/session.ts:97-102 | a token is the lower-case unpadded base32 of 20 random bytes: 32 lower-case alphabet characters |
| Sessions.ValidateSessionToken | src/lib/server/session.ts:8-59 | an unknown id gives {null, null} with no change; an expired session (now ≥ expiresAt) is deleted and gives {null, null}; a live one gives both session and user; within 15 days of expiry it is renewed to now + 30 days and saved, otherwise its expiry is unchanged |
| Sessions.InvalidateSession | src/lib/server/session.ts:61-67 | the row is gone afterwards; the delete succeeds exactly when the row existed |
| Sessions.InvalidateUserSessions | src/lib/server/session.ts:69-75 | every session of the user is deleted and every other session is kept unchanged |
| Sessions.CreateSession | src/lib/server/session.ts:104-123 | stores the session under the hash of the token with expiry now + 30 days; a duplicate id or unknown user throws with no change |
| Sessions.CreatedSessionValidates | src/lib/server/session.ts:8-123 | a session created from a token is found by validating that token before it expires, for the same user, since both derive the id by the same hash |
| PasswordReset.ResetLookup | src/lib/server/password-reset.ts:41-85 | a reset session is found exactly when its id is stored and not yet expired; it comes back unchanged (no renewal) with its user |
| PasswordReset.ResetsAfterLookup | src/lib/server/password-reset.ts:74-84 | validation deletes the looked-up row only when it has expired, and keeps every other row |
| PasswordReset.ResetRequestLookup | src/lib/server/password-reset.ts:107-119 | without the cookie there is no reset session; with it, the lookup of the hash of its value |
| PasswordReset.ResetsAfterRequest | src/lib/server/password-reset.ts:107-119 | without the cookie the table is untouched; otherwise only rows are deleted, never changed or added |
| PasswordReset.JarAfterRequest | src/lib/server/password-reset.ts:110-117 | the reset cookie is cleared exactly when it was present and did not validate |
| PasswordReset.CreatePasswordResetSession | src/lib/server/password-reset.ts:9-39 | stores id = hash(token), the code, expiry now + 10 minutes and an unverified flag; every earlier reset session is kept; a duplicate id or unknown user throws with no change |
| PasswordReset.ValidatePasswordResetSessionToken | src/lib/server/password-reset.ts:41-85 | answers the reset lookup on the old state, and deletes the row only when it has expired |
| PasswordReset.SetPasswordResetSessionAsEmailVerified | src/lib/server/password-reset.ts:87-96 | only that reset session's emailVerified flag is set; an unknown id throws with no change; users are not touched |
| PasswordReset.InvalidateUserPasswordResetSessions | src/lib/server/password-reset.ts:99-105 | deletes all and only the user's reset sessions |
| PasswordReset.ValidatePasswordResetSessionRequest | src/lib/server/password-reset.ts:107-119 | without a cookie: {null, null} and nothing changes; otherwise the cookie's lookup; the cookie is cleared only when it does not validate; a found session is left stored |
| PasswordReset.SetPasswordResetSessionTokenCookie | src/lib/server/password-reset.ts:121-133 | sets the reset cookie to the token with the given expiry, and changes no other cookie |
| PasswordReset.DeletePasswordResetSessionTokenCookie | src/lib/server/password-reset.ts:135-143 | overwrites the reset cookie with an empty, expired value, and changes no other cookie |
| PasswordReset.SecondResetKeepsFirst | src/lib/server/password-reset.ts:9-85 | after a second reset session for the same user, the first token still validates with its own code, unverified |
| EmailVerification.RequestIdOf | src/lib/server/email-verification.ts:37-39 | a request id is 32 lower-case base32 characters of 20 random bytes |
| EmailVerification.NewSendVerificationEmailBucket | src/lib/server/email-verification.ts:116 | the send bucket has capacity 3 and a 600-second window |
| EmailVerification.CreatedRequest | src/lib/server/email-verification.ts:32-62 | the insert after the delete succeeds exactly when the new id is free and the user exists; the row has the user, email, code and expiry now + 10 minutes |
| EmailVerification.RequestsAfterCreate | src/lib/server/email-verification.ts:32-62 | afterwards the user has at most one request, the created one; every other user's request is kept unchanged; nothing else is added |
| EmailVerification.GetUserEmailVerificationRequest | src/lib/server/email-verification.ts:8-30 | a request is returned exactly when both its id and its user id match |
| EmailVerification.RequestFromJar | src/lib/server/email-verification.ts:99-114 | null without a user or without the cookie; otherwise the request the cookie names, if it belongs to the user, with no expiry check |
| EmailVerification.JarAfterLookup | src/lib/server/email-verification.ts:99-114 | the cookie is cleared exactly when a signed-in user's cookie names no request of theirs |
| EmailVerification.DeleteUserEmailVerificationRequest | src/lib/server/email-verification.ts:64-70 | deletes all and only the user's requests |
| EmailVerification.CreateEmailVerificationRequest | src/lib/server/email-verification.ts:32-62 | deletes the user's requests, then inserts the new one; the result and the new table are those of the creation above |
| EmailVerification.SetEmailVerificationRequestCookie | src/lib/server/email-verification.ts:76-87 | sets the cookie to the request id with the request's expiry, and changes no other cookie |
| EmailVerification.DeleteEmailVerificationRequestCookie | src/lib/server/email-verification.ts:89-97 | overwrites the cookie with an empty, expired value, and changes no other cookie |
| EmailVerification.GetUserEmailVerificationRequestFromRequest | src/lib/server/email-verification.ts:99-114 | returns the cookie's request of the user (expired or not), and clears the cookie only when a signed-in user's cookie names none |
| VerifyEmailRoute.NewVerifyBucket | src/routes/verify-email/+page.server.ts:64 | the page bucket has capacity 5 and a 30-minute window |
| VerifyEmailRoute.LoadSignedIn | src/routes/verify-email/+page.server.ts:44-61 | a live request is shown unchanged; a missing or expired one sends a verified user to / and gives an unverified user a new request, a mail with its code and its cookie |
| VerifyEmailRoute.Load | src/routes/verify-email/+page.server.ts:22-62 | a live reset session goes to /reset-password when code-verified, else shows its email as a reset, and no verification request or cookie is touched; otherwise /login without a user, else the signed-in behaviour above |
| VerifyEmailRoute.VerifyResetCode | src/routes/verify-email/+page.server.ts:76-122 | through `ResetBranch`: a refused check is 429 before the form is read and leaves the bucket memory alone; then 400 for a missing or empty code; otherwise one unit is consumed, and a refused consume is 429 before the comparison; a wrong code is 400 and changes no reset session; a matching code marks only that reset session verified and redirects to /reset-password; a redirect happens exactly when the check and consume admit and the code matches |
| VerifyEmailRoute.ReplaceExpiredRequestAsWritten | src/routes/verify-email/+page.server.ts:171-182 | as written: the user's requests are replaced and the new code is mailed, but the cookie still names the old id, so the next lookup finds nothing unless the new id equals it |
| VerifyEmailRoute.ReplaceExpiredRequest | src/routes/verify-email/+page.server.ts:171-182 | corrected: as above, and the new request's cookie is set, so the next lookup finds exactly the created request |
| VerifyEmailRoute.MailedCodeRefusedAsWritten | src/routes/verify-email/+page.server.ts:140-182 | as written, submitting the mailed code for a replaced request answers 401 or 429, never success |
| VerifyEmailRoute.MailedCodeAccepted | src/routes/verify-email/+page.server.ts:140-194 | with the cookie set, the mailed code verifies the user's email on the next verify |
| VerifyEmailRoute.CheckRequestCode | src/routes/verify-email/+page.server.ts:171-194 | an expired request is replaced and the new code mailed without comparing the code, and the cookie is left as it was; a wrong code changes nothing; a matching code deletes the user's requests and reset sessions, sets email and emailVerified, clears the cookie and redirects to /; success happens exactly on a live, matching request whose email is free |
| VerifyEmailRoute.VerifyEmailCode | src/routes/verify-email/+page.server.ts:132-194 | in order: 429 when the check refuses; 401 (clearing the cookie) without a request; 400 for a missing or empty code; a refused consume is 400, not 429; an expired request is replaced and mailed with the cookie unchanged; "Incorrect code."; else the matching code deletes the user's requests and reset sessions, verifies the email and clears the cookie; every refusal changes no table; a redirect to / happens exactly for an admitted, live, matching code whose email is free |
| VerifyEmailRoute.VerifySignedIn | src/routes/verify-email/+page.server.ts:125-194 | without a session or user: 401 with nothing changed; otherwise every outcome of the email branch as listed for `VerifyEmailCode` (429, 401, the 400s, the expired replacement with the cookie unchanged, "Incorrect code.", success) |
| VerifyEmailRoute.VerifyCode | src/routes/verify-email/+page.server.ts:71-195 | a live reset session takes the reset branch, with every outcome listed for `VerifyResetCode` (its 429s, 400s, bucket memory and the redirect of an admitted matching code), and leaves users, requests and cookies alone; otherwise 401 without a session; otherwise, from the state the reset lookup leaves, every outcome of the email branch as listed for `VerifyEmailCode`, the expired replacement with the cookie unchanged included |
| VerifyEmailRoute.ResendResetCode | src/routes/verify-email/+page.server.ts:202-227 | after check and consume, the same reset code is mailed again; 429 on either refusal; nothing is stored |
| VerifyEmailRoute.ResendVerificationCode | src/routes/verify-email/+page.server.ts:237-284 | through `ResendBranch`: 429 on a refused check; 403 for a verified user without a request, before the send bucket is consumed; otherwise one unit is consumed, and a refused consume is 429; every refusal leaves the requests as they were, the cookie as the lookup left it and sends no mail; otherwise a new request replaces the old, keeping the old request's email, is mailed and gets the cookie; users and reset sessions are never touched |
| VerifyEmailRoute.ResendEmail | src/routes/verify-email/+page.server.ts:197-285 | the reset branch never touches requests, cookies or the send bucket, mails the same code exactly when the check and consume admit, and leaves the page bucket's memory as its consume does; otherwise 401 without a session; otherwise, from the state the reset lookup leaves, every outcome listed for `ResendVerificationCode` (the 429s, the 403 before the send bucket is consumed, and the replaced request with its cookie and mail); a sent verification code is the one the next lookup finds |
| ResetPasswordRoute.CheckNewPassword | src/routes/reset-password/+page.server.ts:48-70 | the fields are checked in order: non-text fields, an empty password, fewer than 8 characters, a mismatched confirmation; no error exactly when both are text, at least 8 long and equal |
| ResetPasswordRoute.Load | src/routes/reset-password/+page.server.ts:11-24 | /forgot-password without a live reset session, /verify-email when its code is not verified, else its email |
| ResetPasswordRoute.ResetPassword | src/routes/reset-password/+page.server.ts:30-77 | 401 and 403 before the form is read, then the password errors; every refusal leaves the password and reset sessions as the lookup left them; success updates only the password hash, deletes the user's reset sessions, clears the cookie, redirects to /login?passwordReset=true and keeps login sessions |
| LoginRoute.Login | src/routes/api/auth/login/+server.ts:6-47 | 400 for a falsy email or password before any lookup; an unknown email and a wrong password give the same 401; success holds a token for the user's id and only id, email and name; any throw gives 500; nothing is written |
| RegisterRoute.Register | src/routes/api/auth/register/+server.ts:6-47 | 400 for a falsy field and for a taken email, with no change; success inserts exactly one user holding the email, name and password hash and answers without the password; a failed insert is 500 |
| LogoutRoute.Logout | src/routes/api/logout/+server.ts:5-24 | without a session nothing changes and the answer is success; with one, exactly that row is deleted and the session cookie is cleared only when the delete succeeded |
| ProfileRoute.Load | src/routes/profile/+page.server.ts:6-15 | redirect to /login exactly when signed out, else the user |
| ProfileRoute.UpdateProfile | src/routes/profile/+page.server.ts:18-51 | not authenticated, then missing fields, each with no change; otherwise name and email are set and emailVerified becomes true with no code check; a taken email is "Failed to update profile" with no change |
| ListsRoute.Limit | src/routes/api/lists/+server.ts:13-15 | the limit defaults to 10 |
| ListsRoute.OrDefault | src/routes/api/lists/+server.ts:16-17 | sort and order default to 'updatedAt' and 'desc' when absent or empty |
| ListsRoute.DirectionOf | src/routes/api/lists/+server.ts:35 | descending exactly for the text 'desc' |
| ListsRoute.GetLists | src/routes/api/lists/+server.ts:5-52 | 404 unless a user named 'user1' exists; else the first `limit` rows of the ordered query, all of them when fewer, each projected to its id, title and description without the owner; 500 on a failed query |
| ListsRoute.CreateList | src/routes/api/lists/+server.ts:54-83 | 401 and 400 insert nothing; otherwise exactly one list owned by the signed-in user, with a null description when none is truthy; a failed insert is 500 |
| Currency.ConfigOf | src/lib/utils/currency.ts:2-9 | the symbol goes first exactly for USD and GBP |
| Currency.ConfigTable | src/lib/utils/currency.ts:2-9 | each of the six entries has the table's locale, symbol and position |
| Currency.SymbolsAndLocalesIdentifyCurrencies | src/lib/utils/currency.ts:2-9 | no two currencies share a symbol or a locale |
| Currency.ParseCurrency | src/lib/utils/currency.ts:2-9 | a code is parsed to the currency with that code, or to none when no currency has it |
| Currency.CodeRoundTrip | src/lib/utils/currency.ts:2-9 | parsing a currency's code gives that currency back |
| Currency.IsValidCurrency | src/lib/utils/currency.ts:13-15 | valid exactly for the six table codes |
| Currency.SupportedIndex | src/lib/utils/currency.ts:52 | every currency appears in the supported list |
| Currency.SupportedCurrenciesAreTheTable | src/lib/utils/currency.ts:52 | the supported list has exactly the six currencies, each once, and its codes are exactly the valid ones |
| Currency.GetDefaultCurrency | src/lib/utils/currency.ts:17-19 | the default is EUR, a valid code |
| Currency.Resolve | src/lib/utils/currency.ts:24-27 | a valid code resolves to its currency, any other to EUR |
| Currency.GetCurrencySymbol | src/lib/utils/currency.ts:44-50 | the table symbol for a valid code, '€' otherwise |
| Currency.FractionDigits | src/lib/utils/currency.ts:33-34 | 0 fraction digits for HUF, 2 for every other currency |
| Currency.FormatPrice | src/lib/utils/currency.ts:21-42 | the empty string for a null price; otherwise the symbol before the number for USD and GBP and after it for the other four; an invalid code is formatted as EUR |
| Toasts.WithoutId | src/lib/stores/toast.ts:36-38 | filtering keeps exactly the toasts with another id, in order, and changes nothing when the id is absent |
| Toasts.WithoutIdDistributes | src/lib/stores/toast.ts:36-38 | filtering a concatenation filters each part |
| Toasts.RemoveUndoesAdd | src/lib/stores/toast.ts:17-38 | removing a just-added toast whose id was unused gives the list back |
| Toasts.ToastStore.constructor | src/lib/stores/toast.ts:15 | the store starts empty |
| Toasts.ToastStore.AddToast | src/lib/stores/toast.ts:17-34 | appends exactly one toast at the end, keeps the others in order and returns its id; defaults are info, 3000 and top-center |
| Toasts.ToastStore.RemoveToast | src/lib/stores/toast.ts:36-38 | the list becomes its filter by id |
| Toasts.ToastStore.AddInfo | src/lib/stores/toast.ts:42-43 | adds an info toast |
| Toasts.ToastStore.AddSuccess | src/lib/stores/toast.ts:44-45 | adds a success toast |
| Toasts.ToastStore.AddWarning | src/lib/stores/toast.ts:46-47 | adds a warning toast |
| Toasts.ToastStore.AddError | src/lib/stores/toast.ts:48-49 | adds an error toast |
| Toasts.ToastStore.AddThenRemove | src/lib/stores/toast.ts:17-38 | adding a toast with a fresh id and then removing it leaves the list as it was |

## Left out

- The token-bucket algorithm of `src/lib/server/rate-limit.ts` is not part of this model. `check` and `consume` are oracle functions over opaque memory. So the capacities 5 and 3 are recorded but not enforced by anything the model proves.
- Cryptography and randomness are parameters:
  - SHA-256 with hex encoding, the password hash and comparison, and JWT generation;
  - the encryption of recovery codes;
  - `crypto.getRandomValues`, the one-time codes and new row ids.
- The mailing functions only write to the console. The model returns the mail as a value instead.
- Session and reset cookie attributes (`httpOnly`, `path`, `secure`, `sameSite`) are left out; a cookie keeps only its value, its expiry and whether it was cleared. `setSessionTokenCookie` and `deleteSessionTokenCookie` in `src/lib/server/session.ts` are called by no handler and are not modelled; logout clears the session cookie itself, which `Http.Cookies.Delete` models.
- Each handler reads the clock once, as `now`. The source reads it again for each expiry it computes or compares, which differs only when time passes within one request.
- `Locals` is an input of every handler, and its `None` stands for `null` only. `src/hooks.server.ts` sets only `locals.userId` and leaves `locals.user` and `locals.session` `undefined`. The `=== null` guards let `undefined` through, so the verify-email `load`, `getUserEmailVerificationRequestFromRequest` and the `verify` and `resend` actions go on as if signed in and then throw a TypeError (a 500) at `locals.user.id` or `locals.user.emailVerified`. The `!locals.user` guards of the profile and lists routes treat `undefined` as signed out. The model does not represent `undefined`.
- Currency.IsValidCurrency: a JavaScript `in` test also accepts inherited property names such as "toString". The model accepts only the six table codes.
- Currency.FormatPrice: `Intl.NumberFormat` and the floating-point price are a parameter `formatNumber` of locale, fraction digits and price.
- Toast ids (`Math.random`) are a parameter, and the `setTimeout` auto-removal is not modelled.
- ListsRoute.Limit: the `limit` parameter arrives already parsed as a natural number. `parseInt` returning NaN or a negative number is not modelled.
- ListsRoute.GetLists: the database's ordering is a parameter `findMany` of the table, column and direction. GET's hard-coded `userId` has no other use and is not modelled. The selected `createdAt` and `updatedAt` timestamps are not modelled, so a `ListSummary` holds only the id, title and description.
- Request bodies are given as already-parsed fields. A JSON value that is present but not a string (a number, say) is not modelled.
- Emails.VerifyEmailInput and ResetPasswordRoute.CheckNewPassword measure length in characters, while `email.length < 256` and `password.length < 8` count UTF-16 code units. A character outside the Basic Multilingual Plane counts 2 there, so four such characters are a valid 8-unit password in the source and a too-short one in the model.
- Users.Trim and Users.VerifyUsernameInput count characters, not UTF-16 code units, and use JavaScript's whitespace set.
- Base32.ToLowerCase lowers ASCII letters only, which is all that a base32 encoding contains.
- RegisterRoute.Register: the stored row's `emailVerified` and `recoveryCode` are left null (`None`), because the database schema default is not part of this model.
- Users.SetUserAsEmailVerifiedIfEmailMatches: the `catch` path that returns false on a database error is modelled only through the no-match result.
- PasswordReset.ResetLookup: the user that reset validation returns carries the stored `emailVerified` as it is, so it may be null; the model's view turns null into false, as session validation does. No handler reads that flag.
- Concurrency between requests, and the database transactions around them, are not modelled.

## Findings

| source | as written | input that shows it | evidently intended | confidence | as-written member | corrected member |
|---|---|---|---|---|---|---|
| src/routes/verify-email/+page.server.ts:171-182 | the expired request is replaced by a new one and its code is mailed, but the email-verification cookie is not set, so it still names the deleted request | a signed-in user whose request has expired submits any non-empty code, then submits the code from the new mail (a page `load` run in between replaces the request once more and mails a second code, so that first mailed code is still refused) | set the cookie to the new request, as `load` (line 55) and `resend` (line 279) do, so the mailed code verifies the email | not executed | VerifyEmailRoute.MailedCodeRefusedAsWritten | VerifyEmailRoute.MailedCodeAccepted |
