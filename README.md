# One-time codes and admin accounts of the paymongo-server backend

This project models, in Dafny, the two one-time-code stores and the admin
account table of the server's Express routes. It also proves what the routes
do with them.

- **Email verification codes** (`send_verification.js`). The module-level `Map`
  from `user_id` to a six-digit code string becomes the class
  `EmailVerification.CodeStore`.
  - `POST /api/send-verification` checks that `email` and `user_id` are present.
    It then stores a fresh code for the user, overwriting any earlier one, and
    only afterwards tries to mail it.
  - `POST /api/verify-code` reports "No code found." when the user has no entry.
    It consumes the entry when the code is the stored string under strict
    equality (`===`), and otherwise rejects the code and keeps the entry.
  - The pure functions `SendStep` and `VerifyStep` specify both methods. Lemmas
    over these functions state what happens across several calls: a code
    verifies once, a wrong guess keeps the entry, a numeric code never matches,
    a failed mail keeps the code, and a resend invalidates the previous code.
- **Admin accounts** (`index.js`). The `users` collection becomes a sequence of
  `User` records in query order. The `admin_password_resets/admin` document
  becomes an optional number, `resetSlot`. Both live in the class
  `AdminAccounts.AdminStore`.
  - `/login` and `/admin/verify-code` only read. They are the functions `Login`
    and `VerifyResetCode` of a snapshot.
  - `/admin/forgot-password` mails first and writes the slot only after the mail
    is sent. It is the method `ForgotPassword`, specified by `ForgotStep`.
  - `/admin/change-password` rewrites the password of the first user with the
    given email. It is the method `ChangePassword`, specified by
    `ChangePasswordStep`.
  - `/admin/verify-code` compares the decimal string forms of the stored number
    and of the request's `code`. It never consumes the code.
  - `/admin/change-password` does not look at the reset slot at all.
- **JavaScript runtime** (module `Js`):
  - request values (`undefined`, `null`, booleans, integral numbers, strings);
  - truthiness, as tested by `if (!x)`;
  - `toString()` on numbers, booleans and strings;
  - the code formula `Math.floor(100000 + Math.random() * 900000)`.

  Decimal notation has an inverse, `ParseDecimal`. The round-trip lemma that
  connects the two gives injectivity, and the string comparisons rest on it.

Nondeterminism and I/O become parameters:
- `rnd` is the value `Math.random()` returned. It lies in [0, 1) and is an
  exact real.
- `mailSent` says whether nodemailer's `sendMail` resolved.

## Model

| member | source | states |
|---|---|---|
| `Js.Decimal` | send_verification.js:19 | the string `toString()` gives for a non-negative integer is non-empty and all decimal digits |
| `Js.DecimalRoundTrip` | send_verification.js:19 | reading a number's decimal notation back gives the number again |
| `Js.DecimalInjective` | index.js:187 | two numbers with the same decimal notation are equal |
| `Js.DecimalNoLeadingZero` | send_verification.js:19 | a number's notation starts with '0' only when the number is zero |
| `Js.DecimalLength` | send_verification.js:19 | a number from 10^k up to 10^(k+1)-1 has k+1 digits |
| `Js.NumberToString` | index.js:187 | a number's string form starts with a digit exactly when the number is non-negative, and is its decimal notation then |
| `Js.ToString` | index.js:187 | `toString()` of a non-negative number is all digits and reads back as the number; that of a negative number starts with '-' and that of a boolean with a letter, never a digit; a string is its own string form |
| `Js.ToStringMatchesDecimal` | index.js:187 | a value's string form equals a stored number's notation only when the value is that number or exactly the string of its digits |
| `Js.GenerateCode` | send_verification.js:19 | for a random value in [0,1) the generated code lies in [100000, 999999] |
| `Js.GeneratedCodeString` | send_verification.js:18-19 | the code string has six digits, no leading zero, and reads back as the generated number |
| `EmailVerification.SendStep` | send_verification.js:12-48 | a missing or falsy `email` or `user_id` gives 400 and no change; otherwise the user's entry becomes the new code, other users' entries stay as they were, and the reply is 200 if the mail went out and 500 if it did not |
| `EmailVerification.VerifyStep` | send_verification.js:51-64 | success exactly when the user has an entry equal under `===` to the given code, and then the entry is deleted; "No code found." when there is no entry; every failure leaves the map unchanged |
| `EmailVerification.StepsPreserveValidCodes` | send_verification.js:15-20 | both handlers keep every key a truthy user id and every value a six-digit code |
| `EmailVerification.FalsyUserHasNoCode` | send_verification.js:54-55 | verifying a falsy user id always answers "No code found." |
| `EmailVerification.VerifyConsumesCode` | send_verification.js:57-60 | after a successful verification the same request finds no code |
| `EmailVerification.WrongCodeKeepsEntry` | send_verification.js:58-63 | a wrong code answers "Invalid code." and the right code still succeeds afterwards |
| `EmailVerification.NumericCodeNeverMatches` | send_verification.js:58 | a code sent as a JSON number never verifies |
| `EmailVerification.CodeStoredEvenWhenMailFails` | send_verification.js:19-47 | when the mail fails the reply is 500, but the new code is stored and verifies |
| `EmailVerification.ResendInvalidatesOldCode` | send_verification.js:19-20 | after a resend with a different code, the previous code answers "Invalid code." |
| `EmailVerification.CodeStore.constructor` | send_verification.js:10 | the code map starts empty |
| `EmailVerification.CodeStore.SendVerification` | send_verification.js:12-48 | updates the map and replies as `SendStep` says, and keeps the map's invariant |
| `EmailVerification.CodeStore.VerifyCode` | send_verification.js:51-64 | deletes the entry on a match and changes nothing otherwise, as `VerifyStep` says |
| `AdminAccounts.FirstWhere` | index.js:45-55 | gives no position exactly when no user satisfies the query, and otherwise the first position that does |
| `AdminAccounts.Login` | index.js:39-66 | a missing field gives 400; otherwise success exactly when some user has both that email and that password, answering with the first such user's id and email and its role, where a falsy role is reported as "user" (`RoleOrDefault`); otherwise 401 |
| `AdminAccounts.LoginValidationIgnoresUsers` | index.js:41-42 | a request with a missing field gets the same answer whatever the users table holds |
| `AdminAccounts.ForgotStep` | index.js:149-175 | the reply is 200 exactly when the mail was sent, and only then does the slot hold the new code; a failed mail gives 500 and leaves the slot as it was |
| `AdminAccounts.VerifyResetCode` | index.js:178-196 | a falsy code gives 400 "Code required"; an empty slot gives 400 "No code found"; otherwise 200 exactly when the string forms match, and 401 otherwise |
| `AdminAccounts.VerifyResetCodeAccepts` | index.js:186-191 | the stored code is accepted both as a number and as the string of its digits, and nothing else is accepted |
| `AdminAccounts.ForgotThenVerify` | index.js:163-191 | after a successful forgot-password the new code verifies as a number and as a string, keeps verifying, and survives a later forgot-password whose mail fails |
| `AdminAccounts.ChangePasswordStep` | index.js:198-225 | a missing field gives 400 and no user with that email gives 404, both with no change; with both fields present it succeeds exactly when some user has that email, and then only the first such user changes, and only its password |
| `AdminAccounts.ChangeThenLogin` | index.js:212-218 | after a password change, logging in with that email and the new password succeeds as the changed user |
| `AdminAccounts.AdminStore.ForgotPassword` | index.js:149-175 | sets the slot as `ForgotStep` says and keeps it a six-digit code; a failed mail leaves it unchanged |
| `AdminAccounts.AdminStore.ChangePassword` | index.js:198-225 | rewrites the users as `ChangePasswordStep` says, after which login with the new password succeeds |

## Left out

- PayMongo webhook handling and reward fulfilment are not in index.js, send_verification.js or paymongo.js and are not modelled.
- `paymongo.js` is not part of this model. It makes a single outbound call to create a checkout session.
- `GET /users/players` (index.js:106-135) is not modelled. It is a concurrent read fan-out with no decision logic.
- The health check, Express/CORS/dotenv setup, the OpenAI client and the routers mounted from gameMode, paymongo, notif, item, offer, feedback and players (index.js:76-98) are not modelled.
- Mail delivery through nodemailer is a boolean outcome, `mailSent`. Addresses, subjects and message bodies are not modelled.
- `Math.random()` is a parameter in [0, 1). The code formula is computed over exact reals, so floating-point rounding is not modelled.
- Request values are `undefined`, `null`, booleans, integral numbers up to 2^53-1 in magnitude, and strings. Objects, arrays, `NaN` and fractional numbers are not modelled. This includes `Map` keys compared by reference and the exponent notation of very large numbers.
- Firestore's `createdAt` and `updatedAt` server timestamps are not modelled.
- The order of query results is the order of the `users` sequence.
- Firestore's numeric equality between integer and floating-point values is not modelled.
- The generic `catch` paths answering 500 are not modelled. Examples are a failed Firestore read or write, including a slot write that fails after the mail was sent. The one exception is a failed mail, which is modelled.
- The codes never expire, in either store. The source gives them no expiry, so the model has none.
- `EmailVerification.CodeStore` keeps its map in memory, as the source does. Process restarts and multiple server instances are not modelled.
- Each handler is one atomic step. Interleaving of concurrent requests at the `await`s (index.js:163-165, 207-215) is not modelled. Each handler changes state with a single write (send_verification.js:20 and 59, index.js:165 and 215), so concurrent requests end as some sequential order of these steps would. No modelled handler changes a user's email, so the user that change-password found by its query is still the first with that email when it writes.
