# website_backend: authentication, profiles and storage helpers, modelled in Dafny

This project models the core of a NestJS back end.

- **Authentication service.** It covers register, login, token refresh, e-mail verification, forgotten and reset passwords, profile read and update, and the two user validators. It runs over a repository of `User` rows.
- **User entity.** This covers its column defaults, its password-hashing hook, `fullName` and `toJSON`.
- **Profile service.** Read, update and delete.
- **`ValidationUtil` predicates.**
- **`CryptoUtil` generators**, and the salt-round choice used when hashing.
- **Pure parts of the storage adapters**:
  - the local file service's MIME table and file classifier;
  - the Google Cloud Storage and S3 adapters' object naming, URLs, key extraction, signed-URL expiry and presigned-post policy.
- **WhatsApp service.** Its template substitution, and the messages it hands to Twilio.
- **`ApiResponseDto` envelope.**

## How the model is organised

**State-changing code.**
- The repository is the class `UserStore.UserRepository`. It holds a map from id to row (`UserRecord`).
- Each lookup materialises a fresh `UserEntity.User` object. The service mutates that object and saves it back. `save` first compares the entity with its stored row. When no column differs it writes nothing, so no hook runs and `updatedAt` keeps its stored value. Otherwise it runs the `@BeforeInsert`/`@BeforeUpdate` hook, stamps `updatedAt` and writes the row.
- `Auth.AuthService` and `Profile.ProfileService` are classes. Each method is proved to leave the repository and the outbox exactly as a pure function of `AuthSpec`/`ProfileSpec` prescribes, and to keep the table invariant `DbValid`:
  - emails are unique;
  - verification and reset tokens are unique;
  - a reset token and its expiry are set together;
  - every stored password is a bcrypt hash or a string the hook leaves alone.
- The properties the source promises are lemmas about those functions: outcomes as if-and-only-ifs, single use of tokens, preservation of `DbValid`, and whole flows such as register → login → refresh and forgot → reset.

**Parameters instead of effects.**
- Random values (uuids, salts, `Math.random` draws), the clock and every external call are parameters:
  - the mail service is a function returning no failure, or a render or send failure with its message;
  - Twilio `create` is a function returning an optional error message;
  - S3 and GCS SDK calls are functions returning a result or an error message.
- Errors are the datatype `ServiceError`: `Conflict`, `Unauthorized`, `NotFound` or `Internal`, each with the message the source throws.

**External libraries.** bcrypt and JWT signing are modelled by small concrete stand-ins:
- `Bcrypt.Hash` yields a 60-character string: `$2b$`, the two-digit cost, `$`, the 22-character salt and a 31-character digest of the cost, salt and password.
- `Bcrypt.Verify` refuses any stored string that is not 60 UTF-16 code units long, as `bcrypt.compare` does. Otherwise it recomputes the digest from the stored cost and salt.
- Only the first 72 UTF-8 bytes of a password reach the digest, as in bcrypt.
- The digest is a positional code, not a one-way function.
- A JWT is a datatype carrying its secret, claims, issue time and expiry in seconds. Verification succeeds exactly when the secret matches and the token is not yet expired.

## Model

| member | source | states |
|---|---|---|
| Auth.AuthService.constructor | src/auth/auth.service.ts:17-24 | The service is wired to the given repository, mailer and JWT configuration. |
| Auth.AuthService.Register | src/auth/auth.service.ts:26-55 | The new repository, outbox and answer are those of `AuthSpec.Register`, and the table stays valid. |
| Auth.AuthService.Login | src/auth/auth.service.ts:57-94 | The new repository and answer are those of `AuthSpec.Login`, and the table stays valid. |
| Auth.AuthService.RefreshToken | src/auth/auth.service.ts:96-122 | The answer is `AuthSpec.Refresh`, with every failure "Invalid refresh token"; the repository is not modified. |
| Auth.AuthService.VerifyEmail | src/auth/auth.service.ts:124-136 | The repository and answer follow `AuthSpec.VerifyEmail`, and the table stays valid. |
| Auth.AuthService.ForgotPassword | src/auth/auth.service.ts:138-157 | The repository, outbox and answer follow `AuthSpec.ForgotPassword`, and the table stays valid. |
| Auth.AuthService.ResetPassword | src/auth/auth.service.ts:159-174 | The repository and answer follow `AuthSpec.ResetPassword`, and the table stays valid. |
| Auth.AuthService.GetProfile | src/auth/auth.service.ts:176-185 | The answer is `AuthSpec.GetProfile`, and a returned user has no password field. |
| Auth.AuthService.UpdateProfile | src/auth/auth.service.ts:187-199 | The repository and answer follow `AuthSpec.UpdateProfile`, and the table stays valid. |
| Auth.AuthService.ValidateUser | src/auth/auth.service.ts:201-210 | A user view is returned exactly when the id is stored and its status is ACTIVE. |
| Auth.AuthService.ValidateUserByCredentials | src/auth/auth.service.ts:212-230 | The answer is `AuthSpec.ValidateUserByCredentials`. |
| AuthSpec.NewUser | src/auth/auth.service.ts:36-43 | A registered row has the request's email, the fresh verification token, role USER, status ACTIVE, is not verified, and has no reset pair or last login. |
| AuthSpec.Register | src/auth/auth.service.ts:26-55 | The register outcome: table, mails sent and answer. `RegisterConflict`, `RegisterAddsUser` and `RegisterMails` state what it does. |
| AuthSpec.Login | src/auth/auth.service.ts:57-94 | The login outcome. `LoginInvalidCredentials`, `LoginStatusGate` and `LoginSuccess` state what it does. |
| AuthSpec.Refresh | src/auth/auth.service.ts:96-122 | The refresh answer. `RefreshOutcome` states it. |
| AuthSpec.VerifyEmail | src/auth/auth.service.ts:124-136 | The verification outcome. `VerifyEmailSingleUse` states it. |
| AuthSpec.ForgotPassword | src/auth/auth.service.ts:138-157 | The forgot-password outcome. `ForgotPasswordOutcome` states it. |
| AuthSpec.ResetPassword | src/auth/auth.service.ts:159-174 | The reset outcome. `ResetPasswordOutcome` states it. |
| AuthSpec.GetProfile | src/auth/auth.service.ts:176-185 | The profile answer. `GetProfileOutcome` states it. |
| AuthSpec.UpdateProfile | src/auth/auth.service.ts:187-199 | The profile-update outcome. `UpdateProfileOutcome` states it. |
| AuthSpec.ValidateUser | src/auth/auth.service.ts:201-210 | The id validator's answer. `ValidateUserOutcome` states it. |
| AuthSpec.ValidateUserByCredentials | src/auth/auth.service.ts:212-230 | The credential validator's answer. `ValidateUserByCredentialsOutcome` states it. |
| AuthSpec.RegisterConflict | src/auth/auth.service.ts:29-33 | Register answers Conflict exactly when the email is already stored, and then changes nothing and sends nothing. |
| AuthSpec.RegisterAddsUser | src/auth/auth.service.ts:35-45 | Otherwise exactly one row is added, under the fresh id, with the new email, token and defaults; other rows are untouched. A non-empty password shorter than 60 UTF-16 code units is stored as a 60-unit hash that verifies against it; any other password is stored as given. |
| AuthSpec.RegisterStores | src/auth/auth.service.ts:35-45 | For a new email the row written is the new user, whatever the mail transport then does. |
| AuthSpec.RegisterMails | src/auth/auth.service.ts:45-54 | The row is saved before any mail. A failed welcome mail fails the call with nothing sent; a failed verification mail fails it after the welcome mail. With both delivered, the answer lacks `password` and carries the verification token. |
| AuthSpec.RegisterPreservesValid | src/auth/auth.service.ts:26-55 | Register keeps the table invariant. |
| AuthSpec.LoginInvalidCredentials | src/auth/auth.service.ts:60-67 | "Invalid credentials" is answered exactly when no stored user with that email has a verifying password, whether the email is unknown or the password wrong. A failed login changes nothing. |
| AuthSpec.LoginStatusGate | src/auth/auth.service.ts:65-72 | "Account is not active" is answered exactly when the password verifies and the account is not ACTIVE. |
| AuthSpec.LoginSuccess | src/auth/auth.service.ts:74-93 | Login succeeds exactly when credential validation does. It then changes only `lastLoginAt` and `updatedAt`, or nothing when `lastLoginAt` already holds that instant. It mints both tokens from the stored user's id, email, role and status. |
| AuthSpec.LoginPreservesValid | src/auth/auth.service.ts:57-94 | Login keeps the table invariant. |
| AuthSpec.LoginResponseUser | src/auth/auth.service.ts:88-93 | The user in a login answer has every field but `password`, the login email and the new `lastLoginAt`. |
| AuthSpec.RefreshOutcome | src/auth/auth.service.ts:96-122 | Refresh succeeds exactly when the token carries the refresh secret, is unexpired, and names a stored ACTIVE user; otherwise it fails with "Invalid refresh token". The new tokens carry the stored user's claims. |
| AuthSpec.RefreshDoesNotRevoke | src/auth/auth.service.ts:96-122 | A refresh token that worked still works at any later time before it expires. |
| AuthSpec.VerifyEmailSingleUse | src/auth/auth.service.ts:124-136 | A successful verification marks the token's holder verified and clears the token, so a second call with it fails. |
| AuthSpec.VerifyEmailPreservesValid | src/auth/auth.service.ts:124-136 | Verification keeps the table invariant. |
| AuthSpec.ForgotPasswordOutcome | src/auth/auth.service.ts:138-157 | An unknown email changes nothing and answers the same message as a delivered reset mail. A known one gets the fresh token and an expiry one hour from now, replacing any earlier pair; the row is stamped unless it already held that pair. A failed mail surfaces as an error. |
| AuthSpec.ForgotPasswordPreservesValid | src/auth/auth.service.ts:138-157 | forgotPassword keeps the table invariant. |
| AuthSpec.ResetPasswordOutcome | src/auth/auth.service.ts:159-174 | Reset succeeds exactly when some user holds the token and now is not past its expiry. On success the new password is stored hashed and the token and expiry are cleared, with status and `emailVerified` untouched and other rows unchanged. Failure changes nothing. |
| AuthSpec.ResetAcceptedAtExpiryInstant | src/auth/auth.service.ts:164 | The token is still accepted at exactly its expiry instant and refused one millisecond later. |
| AuthSpec.ResetPasswordSingleUse | src/auth/auth.service.ts:168-171 | A reset token cannot be used twice. |
| AuthSpec.ResetPasswordPreservesValid | src/auth/auth.service.ts:159-174 | Reset keeps the table invariant. |
| AuthSpec.GetProfileOutcome | src/auth/auth.service.ts:176-185 | Fails with "User not found" exactly for an unknown id; otherwise returns every field but `password`. |
| AuthSpec.UpdateProfileOutcome | src/auth/auth.service.ts:187-199 | An unknown id fails and changes nothing. Otherwise the request's present fields are assigned over the row, which is saved and returned without `password`. A request that changes no column writes nothing, and the answer carries the stored `updatedAt`. |
| AuthSpec.EmptyUpdateWritesNothing | src/auth/auth.service.ts:193-197 | An update request with no fields leaves the table unchanged and answers the stored user without `password`, with its stored `updatedAt`. |
| AuthSpec.UpdateProfilePreservesValid | src/auth/auth.service.ts:187-199 | updateProfile keeps the table invariant. |
| AuthSpec.ValidateUserOutcome | src/auth/auth.service.ts:201-210 | Returns the user without password exactly when the id is stored and ACTIVE. |
| AuthSpec.ValidateUserByCredentialsOutcome | src/auth/auth.service.ts:212-230 | Returns the matching user without password exactly when the email is stored, the password verifies and the account is ACTIVE. |
| AuthSpec.LongPasswordLocksAccount | src/auth/entities/user.entity.ts:72-79 | A registered password of 60 or more UTF-16 code units is stored as given. Above 60 units, every login for that account answers "Invalid credentials"; at any length, no login succeeds unless the password starts with "$2". |
| AuthSpec.RegisterThenLogin | src/auth/auth.service.ts:26-94 | After registering with a non-empty password shorter than 60 UTF-16 code units, logging in with it succeeds, before any e-mail verification, and records the login time. |
| AuthSpec.LoginThenRefresh | src/auth/auth.service.ts:57-122 | The refresh token a login returns is accepted at once. |
| AuthSpec.ForgotThenReset | src/auth/auth.service.ts:138-174 | A reset with the mailed token succeeds up to exactly one hour later and fails a second after that. |
| AuthSpec.AccountLifecycleScenario | src/auth/auth.service.ts:26-174 | Register, then log in, then refresh; a reset attempted more than an hour after the forgot-password request is refused. |
| AuthSpec.RegisterLoginRefresh | src/auth/auth.service.ts:26-113 | After registering and logging in, the refresh token is accepted, the table is still valid, and no row holds a reset token that no row held before. |
| ProfileSpec.GetUserProfileOutcome | src/profile/profile.service.ts:15-24 | Fails with "User not found" exactly for an unknown id; otherwise returns the user without password, verification token or reset token. |
| ProfileSpec.UpdateUserProfileOutcome | src/profile/profile.service.ts:26-38 | An unknown id fails and changes nothing. Otherwise the row becomes the request's present fields assigned over it, saved, and returned without secrets. A request that changes no column writes nothing, and the stored `updatedAt` is kept. |
| ProfileSpec.UpdateUserProfilePreservesValid | src/profile/profile.service.ts:26-38 | The update keeps the table invariant. |
| ProfileSpec.DeleteUserProfileOutcome | src/profile/profile.service.ts:40-49 | An unknown id fails and changes nothing; otherwise exactly that row is removed and the answer is "Profile deleted successfully". |
| ProfileSpec.DeleteUserProfilePreservesValid | src/profile/profile.service.ts:40-49 | Deletion keeps the table invariant. |
| ProfileSpec.GetUserProfile | src/profile/profile.service.ts:15-24 | The profile answer. `GetUserProfileOutcome` states it. |
| ProfileSpec.UpdateUserProfile | src/profile/profile.service.ts:26-38 | The update outcome. `UpdateUserProfileOutcome` states it. |
| ProfileSpec.DeleteUserProfile | src/profile/profile.service.ts:40-49 | The delete outcome. `DeleteUserProfileOutcome` states it. |
| Profile.ProfileService.constructor | src/profile/profile.service.ts:10-13 | The service is wired to the given repository. |
| Profile.ProfileService.GetUserProfile | src/profile/profile.service.ts:15-24 | The answer is `ProfileSpec.GetUserProfile`, whose fields are all but the three secrets. |
| Profile.ProfileService.UpdateUserProfile | src/profile/profile.service.ts:26-38 | The repository and answer follow `ProfileSpec.UpdateUserProfile`, and the table stays valid. |
| Profile.ProfileService.DeleteUserProfile | src/profile/profile.service.ts:40-49 | The repository and answer follow `ProfileSpec.DeleteUserProfile`, and the table stays valid. |
| UserEntity.Fields | src/auth/entities/user.entity.ts:14-70 | A row's JSON has exactly the entity's columns, each carrying the row's value; nullable columns become null. |
| UserEntity.Omit | src/auth/entities/user.entity.ts:86-90 | Deleting keys from a copy leaves exactly the other keys, with the same values. |
| UserEntity.UserView.Json | src/auth/entities/user.entity.ts:85-91 | A view has every column except the omitted ones, with the row's values. |
| UserEntity.FieldsInjective | src/auth/entities/user.entity.ts:14-70 | Two rows with the same JSON are the same row. |
| UserEntity.HashHook | src/auth/entities/user.entity.ts:72-79 | A non-empty password shorter than 60 UTF-16 code units becomes a 60-unit hash that verifies against it; any other password is kept as it is. |
| UserEntity.HashHookIdempotent | src/auth/entities/user.entity.ts:72-79 | Running the hook again, on insert and then on every update, never re-hashes a hash. |
| UserEntity.LongPlaintextStoredUnhashed | src/auth/entities/user.entity.ts:75 | A password of 60 or more UTF-16 code units is stored as it is. Above 60 units it verifies against nothing, and so does one of any length that does not start with "$2". |
| UserEntity.ApplyUpdate | src/auth/auth.service.ts:193-195 | `Object.assign` of an update request changes exactly its present fields and keeps every other column. |
| UserEntity.ApplyUpdateEmptyAndIdempotent | src/auth/auth.service.ts:193-195 | An empty request changes nothing, and applying a request twice is the same as once. |
| UserEntity.User.Load | src/auth/entities/user.entity.ts:14-70 | A loaded entity holds exactly the stored row. |
| UserEntity.User.Create | src/auth/entities/user.entity.ts:37-58 | A created entity holds the given columns and the defaults: role USER, status ACTIVE, not verified. |
| UserEntity.User.HashPassword | src/auth/entities/user.entity.ts:72-79 | The hook changes only the password, to `HashHook` of the old one. |
| UserEntity.User.Assign | src/auth/auth.service.ts:193-195 | The entity becomes `ApplyUpdate` of its old row. |
| UserEntity.User.FullName | src/auth/entities/user.entity.ts:81-83 | The first name, one space, the last name, each recoverable by position. |
| UserEntity.User.ToJSON | src/auth/entities/user.entity.ts:85-91 | Every column but password, verification token and reset token, with the entity's values; the reset expiry is kept. |
| UserStore.FindIdByEmail | src/auth/auth.service.ts:30 | Finds a row with the email, or states that none has it. |
| UserStore.FindIdByVerificationToken | src/auth/auth.service.ts:125 | Finds a row holding the verification token, or states that none holds it. |
| UserStore.FindIdByResetToken | src/auth/auth.service.ts:160-162 | Finds a row holding the reset token, or states that none holds it. |
| UserStore.FindIdByEmailIs | src/auth/entities/user.entity.ts:18-19 | With emails unique, the row found by email is the only one with it. |
| UserStore.FindIdByVerificationTokenIs | src/auth/auth.service.ts:125 | With verification tokens unique, the row found is the token's holder. |
| UserStore.FindIdByResetTokenIs | src/auth/auth.service.ts:160-162 | With reset tokens unique, the row found is the token's holder. |
| UserStore.Saved | src/auth/entities/user.entity.ts:69-79 | A row that is written differs from the entity only in a stored password (hashed when short) and `updatedAt` set to now. |
| UserStore.SaveRow | src/auth/auth.service.ts:45 | When the stored row already equals the entity, saving leaves the table as it is. Otherwise it writes the `Saved` row under the entity's id. Every other row stays as it was. |
| UserStore.SavePreservesValid | src/auth/entities/user.entity.ts:18-19 | Saving a row that keeps its id and email, keeps or clears its verification token, and keeps, clears or newly sets a reset token no row holds, keeps the table invariant. |
| UserStore.InsertPreservesValid | src/auth/entities/user.entity.ts:18-19 | Inserting a row under a new key, with an email and a verification token no row holds and no reset token, keeps the table invariant. |
| UserStore.UserRepository.constructor | src/auth/auth.service.ts:18-19 | A new repository is empty. |
| UserStore.UserRepository.FindOneById | src/profile/profile.service.ts:16 | Null exactly for an unknown id; otherwise a fresh entity holding the row. |
| UserStore.UserRepository.FindOneByEmail | src/auth/auth.service.ts:60 | Null exactly when no row has the email; otherwise a fresh entity holding that row. |
| UserStore.UserRepository.FindOneByVerificationToken | src/auth/auth.service.ts:125 | Null exactly when no row holds the token; otherwise a fresh entity holding its holder. |
| UserStore.UserRepository.FindOneByResetToken | src/auth/auth.service.ts:160-162 | Null exactly when no row holds the token; otherwise a fresh entity holding its holder. |
| UserStore.UserRepository.Save | src/auth/auth.service.ts:76 | The table becomes `SaveRow` of the entity. The entity then holds its stored row, stamped only when a column changed. |
| UserStore.UserRepository.Remove | src/profile/profile.service.ts:47 | Removes exactly the entity's row. |
| UserStore.MailError | libs/common/src/mail/mail.service.ts:23-52 | Every mail error starts with the template sender's prefix and ends with the failure's message. The plain sender's prefix follows it exactly when the transport, not the template, failed. |
| UserStore.Mailer.constructor | libs/common/src/mail/mail.service.ts:11-21 | The outbox starts empty. |
| UserStore.Mailer.Send | libs/common/src/mail/mail.service.ts:23-52 | Succeeds exactly when the mail service delivers, which appends the mail to the outbox; a failure carries `MailError` of the render or send failure and sends nothing. |
| Bcrypt.CostField | libs/common/src/utils/crypto.util.ts:13 | The cost field of a hash is two characters. |
| Bcrypt.Hash | libs/common/src/utils/crypto.util.ts:11-14 | A hash is 60 characters, also 60 UTF-16 code units, and verifies against its plaintext. |
| Bcrypt.VerifyHash | libs/common/src/utils/crypto.util.ts:16-18 | A hash verifies against its own plaintext, and against every password with the same first 72 UTF-8 bytes. |
| Bcrypt.NotAHash | src/auth/auth.service.ts:65 | A stored string that does not start with the version marker "$2" verifies against no password. |
| Bcrypt.WrongLengthVerifiesNothing | libs/common/src/utils/crypto.util.ts:16-18 | A stored string that is not 60 UTF-16 code units long verifies against no password. |
| Bcrypt.Utf8OfAscii | libs/common/src/utils/crypto.util.ts:16-18 | An ASCII password is encoded one byte per character. |
| Bcrypt.LongAsciiPasswordsAgree | libs/common/src/utils/crypto.util.ts:16-18 | Two ASCII passwords that agree on their first 72 characters verify against exactly the same stored strings. |
| Strings.Utf16Length | libs/common/src/utils/crypto.util.ts:16-18 | A string's UTF-16 length is at least its number of code points and at most twice it. |
| Strings.Utf16LengthOfAscii | src/auth/entities/user.entity.ts:75 | An ASCII string's UTF-16 length is its number of characters. |
| Jwt.DefaultConfig | libs/common/src/jwt/jwt.service.ts:13-25 | Access tokens last seven days and refresh tokens thirty, when not configured. |
| Jwt.Seconds | libs/common/src/jwt/jwt.service.ts:27-35 | The token clock is the millisecond clock rounded down to whole seconds. |
| Jwt.Verify | libs/common/src/jwt/jwt.service.ts:27-45 | Verification returns the claims exactly when the secret matches and the expiry is still ahead; otherwise it fails with the given message. |
| Jwt.GenerateAccessToken | libs/common/src/jwt/jwt.service.ts:13-18 | Signs with the access secret and lifetime. `AccessTokenRoundTrip` states it. |
| Jwt.GenerateRefreshToken | libs/common/src/jwt/jwt.service.ts:20-25 | Signs with the refresh secret and lifetime. `RefreshTokenRoundTrip` states it. |
| Jwt.VerifyToken | libs/common/src/jwt/jwt.service.ts:27-35 | `Verify` with the access secret and "Invalid token". |
| Jwt.VerifyRefreshToken | libs/common/src/jwt/jwt.service.ts:37-45 | `Verify` with the refresh secret and "Invalid refresh token". |
| Jwt.RefreshTokenRoundTrip | libs/common/src/jwt/jwt.service.ts:20-45 | A refresh token verifies back to its claims until its lifetime has passed. |
| Jwt.AccessTokenRoundTrip | libs/common/src/jwt/jwt.service.ts:13-35 | An access token verifies back to its claims until its lifetime has passed. |
| Jwt.AccessTokenAsRefreshToken | libs/common/src/jwt/jwt.service.ts:37-45 | An unexpired access token passes as a refresh token exactly when the two configured secrets coincide. |
| CryptoUtil.AlphabetChar | libs/common/src/utils/crypto.util.ts:21 | Each alphabet position holds a letter or a digit. |
| CryptoUtil.AlphabetComputed | libs/common/src/utils/crypto.util.ts:21 | The alphabet has 62 characters, as computed position by position. |
| CryptoUtil.AlphabetIsAlphanumeric | libs/common/src/utils/crypto.util.ts:21 | A character is in the alphabet exactly when it is an ASCII letter or digit. |
| CryptoUtil.GenerateRandomString | libs/common/src/utils/crypto.util.ts:20-27 | The string has the requested length, or none when that is not positive; each character is the alphabet entry of its draw, so every character is alphanumeric. |
| CryptoUtil.GenerateToken | libs/common/src/utils/crypto.util.ts:41-43 | A random string of 64 characters by default. |
| CryptoUtil.GenerateRandomNumber | libs/common/src/utils/crypto.util.ts:29-31 | The number lies between min and max inclusive; with min above max, between max + 1 and min. |
| CryptoUtil.ScaledFloorBounds | libs/common/src/utils/crypto.util.ts:30 | The floor of a draw in [0, 1) times a positive span lies in [0, span); for a span that is not positive it lies in [span, 0]. |
| CryptoUtil.FloorBetween | libs/common/src/utils/crypto.util.ts:30 | A real between two integers, the upper one excluded, floors into the same range. |
| CryptoUtil.GenerateVerificationCode | libs/common/src/utils/crypto.util.ts:45-47 | The decimal rendering of a number drawn with the default bounds; `VerificationCodeShape` states its shape. |
| CryptoUtil.GenerateUUID | libs/common/src/utils/crypto.util.ts:33-39 | Each template character is kept, or drawn as a hex digit ('y' restricted to the variant); `GeneratedUuidShape` states its shape. |
| CryptoUtil.VerificationCodeShape | libs/common/src/utils/crypto.util.ts:45-47 | A verification code is six decimal digits with no leading zero, and reads back as the number drawn. |
| CryptoUtil.HexChar | libs/common/src/utils/crypto.util.ts:37 | A nibble prints as one lower-case hexadecimal digit. |
| CryptoUtil.VariantNibble | libs/common/src/utils/crypto.util.ts:36 | The variant nibble is 8 plus the draw's low two bits. |
| CryptoUtil.GeneratedUuidShape | libs/common/src/utils/crypto.util.ts:33-39 | A generated uuid has 36 characters, hyphens at 8, 13, 18 and 23, a '4' at 14, one of "89ab" at 19, lower-case hex elsewhere, and passes `isValidUUID`. |
| CryptoUtil.SaltRounds | libs/common/src/utils/crypto.util.ts:12 | The configured BCRYPT_ROUNDS when set and non-zero, 12 otherwise; never 0. |
| CryptoUtil.Crypto.constructor | libs/common/src/utils/crypto.util.ts:5 | No configuration is set at first. |
| CryptoUtil.Crypto.SetConfigService | libs/common/src/utils/crypto.util.ts:7-9 | The configuration is replaced by the given one. |
| CryptoUtil.Crypto.HashPassword | libs/common/src/utils/crypto.util.ts:11-14 | Hashes at the configured cost; the hash verifies against the password. |
| CryptoUtil.Crypto.ComparePassword | libs/common/src/utils/crypto.util.ts:16-18 | True exactly when the password verifies against the hash. |
| ValidationUtil.EmailStructure | libs/common/src/utils/validation.util.ts:2-5 | The e-mail pattern holds exactly when there is one '@', no white space, a non-empty local part, and a domain with a '.' that is neither its first nor its last character. |
| ValidationUtil.IsValidEmail | libs/common/src/utils/validation.util.ts:2-5 | The e-mail pattern as a match position for '@' and '.'. `EmailStructure` states what it accepts. |
| ValidationUtil.IsValidPhoneNumber | libs/common/src/utils/validation.util.ts:7-10 | The phone pattern and the ten-digit minimum. `PhoneStructure` states what it accepts. |
| ValidationUtil.IsValidPassword | libs/common/src/utils/validation.util.ts:12-16 | At least eight characters from the allowed set, with a lower-case letter, an upper-case letter and a digit; `IsStrongPassword` relates it to the strong check. |
| ValidationUtil.IsValidUUID | libs/common/src/utils/validation.util.ts:27-30 | 36 characters, hyphens at 8, 13, 18 and 23, hex elsewhere, version 1 to 5 and variant 8, 9, a or b, either case; `CryptoUtil.GeneratedUuidShape` shows generated uuids pass. |
| ValidationUtil.Digits | libs/common/src/utils/validation.util.ts:9 | Removing non-digits leaves only digits, and no more characters than before. |
| ValidationUtil.PhoneStructure | libs/common/src/utils/validation.util.ts:7-10 | A phone number is valid exactly when every character is a digit, white space, '-', '(' or ')', except an optional leading '+', and it has at least ten digits. |
| ValidationUtil.IsStrongPassword | libs/common/src/utils/validation.util.ts:37-41 | A strong password is exactly a valid password that also has one of `@$!%*?&`. |
| ValidationUtil.TrimStart | libs/common/src/utils/validation.util.ts:44 | A suffix of the input that does not start with white space. |
| ValidationUtil.TrimEnd | libs/common/src/utils/validation.util.ts:44 | A prefix of the input that does not end with white space. |
| ValidationUtil.RemoveAngleBrackets | libs/common/src/utils/validation.util.ts:44 | No '<' or '>' remains, and the result is no longer than the input. |
| ValidationUtil.RemoveAngleBracketsSubsequence | libs/common/src/utils/validation.util.ts:44 | The removal only drops characters: the result is a subsequence of the input. |
| ValidationUtil.RemoveAngleBracketsKeepsPlain | libs/common/src/utils/validation.util.ts:44 | Text without angle brackets is returned unchanged. |
| ValidationUtil.SanitizeString | libs/common/src/utils/validation.util.ts:43-45 | No '<' or '>' remains, and the result is no longer than the input. |
| ValidationUtil.SanitizeStringSubsequence | libs/common/src/utils/validation.util.ts:43-45 | Sanitising only drops characters: the result is a subsequence of the input. |
| ValidationUtil.TrimKeepsPlainEnds | libs/common/src/utils/validation.util.ts:44 | Text that neither starts nor ends with white space is not trimmed. |
| ValidationUtil.SanitizeNotIdempotent | libs/common/src/utils/validation.util.ts:43-45 | Trimming before removing brackets makes sanitising twice differ from once ("< a"). |
| ValidationUtil.BoundsInclusive | libs/common/src/utils/validation.util.ts:47-64 | The size and dimension bounds are inclusive, and the image defaults are 100 and 5000. |
| ValidationUtil.ValidateFileSize | libs/common/src/utils/validation.util.ts:47-49 | The size check. `BoundsInclusive` states it. |
| ValidationUtil.ValidateImageDimensions | libs/common/src/utils/validation.util.ts:55-64 | The dimension check with its defaults. `BoundsInclusive` states it. |
| ValidationUtil.ValidateFileType | libs/common/src/utils/validation.util.ts:51-53 | The type check. `CollectionAndSignChecks` states it. |
| ValidationUtil.ValidateObjectKeys | libs/common/src/utils/validation.util.ts:82-84 | The key check. `CollectionAndSignChecks` states it. |
| ValidationUtil.IsPositiveNumber | libs/common/src/utils/validation.util.ts:74-76 | The positive check. `CollectionAndSignChecks` states it. |
| ValidationUtil.IsNonNegativeNumber | libs/common/src/utils/validation.util.ts:78-80 | The non-negative check. `CollectionAndSignChecks` states it. |
| ValidationUtil.ValidateArrayLength | libs/common/src/utils/validation.util.ts:86-90 | The length check. `ArrayLengthZeroMaxIsUnbounded` states it. |
| ValidationUtil.CollectionAndSignChecks | libs/common/src/utils/validation.util.ts:51-84 | The key check is set inclusion; the type check is list membership; zero is positive for neither sign check but non-negative. |
| ValidationUtil.ArrayLengthZeroMaxIsUnbounded | libs/common/src/utils/validation.util.ts:86-90 | A maximum of 0 is falsy and so imposes no bound; otherwise the bounds are inclusive. |
| FileStorage.MediaPrefixesExclusive | libs/common/src/storage/file-storage.service.ts:110-117 | No MIME type has two of the image, video and audio prefixes. |
| FileStorage.GetFileType | libs/common/src/storage/file-storage.service.ts:110-117 | The classifier chain. `FileTypeClassification` states which category each MIME type gets. |
| FileStorage.MimeTypeOf | libs/common/src/storage/file-storage.service.ts:121-133 | The extension table. `MediaMimeTypes`, `PdfMimeType`, `MswordMimeType` and `DocxMimeType` state its entries' categories. |
| FileStorage.FileTypeClassification | libs/common/src/storage/file-storage.service.ts:110-117 | Each category holds exactly when its test is the first of the chain to pass: prefixes, then pdf/document, then zip/rar, else DOCUMENT. |
| FileStorage.PdfZipIsDocument | libs/common/src/storage/file-storage.service.ts:114-115 | The document test runs before the archive test. |
| FileStorage.TrimTrailingSlashes | libs/common/src/storage/file-storage.service.ts:120 | A prefix of the path that does not end with '/'. |
| FileStorage.LastIndexOf | libs/common/src/storage/file-storage.service.ts:120 | The index of the last occurrence, or -1 when there is none. |
| FileStorage.AfterLastSlash | libs/common/src/storage/file-storage.service.ts:120 | The text after the last '/', which has no '/'. |
| FileStorage.Extname | libs/common/src/storage/file-storage.service.ts:120 | Empty, or a '.' followed by text with no '.' or '/'. |
| FileStorage.ExtnameOfStemAndExtension | libs/common/src/storage/file-storage.service.ts:120 | The extension of `stem.ext` is `.ext`. |
| FileStorage.ExtnameToLower | libs/common/src/storage/file-storage.service.ts:120 | Taking the extension commutes with lower-casing. |
| FileStorage.GetMimeType | libs/common/src/storage/file-storage.service.ts:119-136 | The result is a table value, or octet-stream exactly when the lower-cased extension is not in the table. |
| FileStorage.MimeTypeCaseInsensitive | libs/common/src/storage/file-storage.service.ts:120 | Upper and lower case in a file name give the same MIME type. |
| FileStorage.NoExtensionIsOctetStream | libs/common/src/storage/file-storage.service.ts:135 | A name whose base has no '.' gets octet-stream. |
| FileStorage.PdfMimeType | libs/common/src/storage/file-storage.service.ts:129 | The PDF MIME type is a DOCUMENT. |
| FileStorage.MswordMimeType | libs/common/src/storage/file-storage.service.ts:130 | The Word MIME type is a DOCUMENT. |
| FileStorage.DocxMimeType | libs/common/src/storage/file-storage.service.ts:131 | The OOXML Word MIME type is a DOCUMENT. |
| FileStorage.OctetStreamType | libs/common/src/storage/file-storage.service.ts:135 | octet-stream is classified DOCUMENT, not ARCHIVE. |
| FileStorage.MediaMimeTypes | libs/common/src/storage/file-storage.service.ts:121-128 | The table's image, video and audio values fall in their categories. |
| FileStorage.FileTypeOfFileName | libs/common/src/storage/file-storage.service.ts:110-136 | Classifying a file by name gives IMAGE, VIDEO or AUDIO for their extensions and DOCUMENT otherwise, never ARCHIVE. |
| FileStorage.FileTypeOfExtension | libs/common/src/storage/file-storage.service.ts:110-136 | The MIME table entry of an extension, or octet-stream when there is none, classifies as IMAGE, VIDEO or AUDIO for their extensions and DOCUMENT otherwise. |
| ObjectUrls.FolderKey | libs/common/src/gcp/gcp-storage.service.ts:75 | `folder/fileName`, both parts recoverable. |
| ObjectUrls.TimestampedKey | libs/common/src/aws/aws.service.ts:22 | `folder/<ms>-<originalname>`. |
| ObjectUrls.TimestampedKeysDiffer | libs/common/src/gcp/gcp-storage.service.ts:23 | Uploads of the same name at different instants get different object names. |
| ObjectUrls.FirstIndexIn | libs/common/src/aws/aws.service.ts:84 | The index of the first stop character, or the length. |
| ObjectUrls.Pathname | libs/common/src/aws/aws.service.ts:84 | A URL's path, when it parses, is non-empty and starts with '/'. |
| ObjectUrls.PathAfterSlash | libs/common/src/aws/aws.service.ts:85 | The path without its leading '/', defined exactly when the URL parses. |
| ObjectUrls.PathnameOfUrl | libs/common/src/aws/aws.service.ts:83-86 | The path of `https://host/path` is recovered exactly, for a plain host and a plain path: no characters the parser would percent-encode and no "." or ".." segment. |
| ObjectUrls.PlainPathHasNoMarkers | libs/common/src/aws/aws.service.ts:84 | A plain path contains no '?' or '#', so the parser keeps all of it as the path. |
| GcpStorage.UploadFile | libs/common/src/gcp/gcp-storage.service.ts:19-39 | A successful upload returns the public URL of `folder/<ms>-<name>`; a failure is reported with the SDK's message. |
| GcpStorage.GetPublicUrl | libs/common/src/gcp/gcp-storage.service.ts:74-77 | The URL of `folder/fileName` in the bucket. |
| GcpStorage.UploadUrlIsPublicUrl | libs/common/src/gcp/gcp-storage.service.ts:19-77 | The URL an upload returns is the public URL of its timestamped name. |
| GcpStorage.ExtractFileNameFromUrl | libs/common/src/gcp/gcp-storage.service.ts:79-82 | The URL's path without its leading '/', exactly when the URL parses. |
| GcpStorage.ExtractFileNameKeepsBucket | libs/common/src/gcp/gcp-storage.service.ts:79-82 | For a URL the adapter builds over a plain path, the extracted name is `bucket/object`: it starts with the bucket and so is not the object's name. |
| GcpStorage.ObjectNameFromUrl | libs/common/src/gcp/gcp-storage.service.ts:41-44 | A name is found only after the bucket segment of the extracted path. |
| GcpStorage.ObjectNameFromUrlRoundTrip | libs/common/src/gcp/gcp-storage.service.ts:41-44 | Over a plain path, the corrected lookup gives back the object's own name from its public URL. |
| GcpStorage.DeleteFile | libs/common/src/gcp/gcp-storage.service.ts:41-51 | The corrected delete: it looks the object up by the name after the bucket segment, where the source passes the whole path `bucket/object`. A successful delete removed the object the URL names, in the configured bucket. |
| GcpStorage.DeleteUploadedFile | libs/common/src/gcp/gcp-storage.service.ts:19-51 | When the uploaded object's name is a plain path, deleting by the URL the upload returned targets that object; an SDK failure carries its message. |
| GcpStorage.SignedUrlRequestFor | libs/common/src/gcp/gcp-storage.service.ts:53-72 | A write URL for `folder/fileName`, for octet-stream content. |
| GcpStorage.SignedUrlExpiry | libs/common/src/gcp/gcp-storage.service.ts:53-72 | The signed URL expires `expiresIn` seconds after the request, one hour by default. |
| GcpStorage.SignedUrlMatchesPublicUrl | libs/common/src/gcp/gcp-storage.service.ts:53-77 | Over a plain path, the signed URL is for the object `getPublicUrl` names. |
| GcpStorage.GetFileTypeAgrees | libs/common/src/gcp/gcp-storage.service.ts:84-91 | This copy of the classifier agrees with the file-storage one on every MIME type. |
| GcpStorage.GetFileType | libs/common/src/gcp/gcp-storage.service.ts:84-91 | The adapter's copy of the classifier. `GetFileTypeAgrees` states that it agrees with the file-storage one. |
| AwsStorage.UploadRequest | libs/common/src/aws/aws.service.ts:18-32 | The object is put under `folder/<ms>-<name>`, public-read, with the file's Content-Type. |
| AwsStorage.UploadFile | libs/common/src/aws/aws.service.ts:18-39 | The location S3 reports, or the SDK's message behind "Failed to upload file to S3: ". |
| AwsStorage.PresignedPost | libs/common/src/aws/aws.service.ts:57-70 | The post is for `folder/fileName` with the requested lifetime. |
| AwsStorage.PresignedPolicyAdmits | libs/common/src/aws/aws.service.ts:69-72 | The policy admits an upload exactly when it is at most 10 MiB and its Content-Type starts with "image/"; every admitted upload is an IMAGE. |
| AwsStorage.GeneratePresignedUrl | libs/common/src/aws/aws.service.ts:57-81 | The URL S3 returns, or the SDK's message behind "Failed to generate presigned URL: ". |
| AwsStorage.ExtractKeyFromUrl | libs/common/src/aws/aws.service.ts:83-86 | The URL's path without its leading '/', exactly when the URL parses. |
| AwsStorage.ExtractKeyOfObjectUrl | libs/common/src/aws/aws.service.ts:83-86 | For `https://<host>/<key>` with a plain host and a plain path, the key is recovered. |
| AwsStorage.DeleteFile | libs/common/src/aws/aws.service.ts:41-55 | A successful delete targeted the configured bucket and the URL's key; an unparsable URL fails before the SDK is called. |
| AwsStorage.DeleteUploadedObject | libs/common/src/aws/aws.service.ts:18-55 | When the uploaded key is a plain path, deleting by the object's virtual-hosted URL targets that key. |
| AwsStorage.GetFileTypeAgrees | libs/common/src/aws/aws.service.ts:88-95 | This copy of the classifier agrees with the file-storage one on every MIME type. |
| AwsStorage.GetFileType | libs/common/src/aws/aws.service.ts:88-95 | The adapter's copy of the classifier. `GetFileTypeAgrees` states that it agrees with the file-storage one. |
| WhatsApp.Placeholder | libs/common/src/whatsapp/whatsapp.service.ts:91 | `{{key}}` is four characters longer than the key and starts with '{'. |
| WhatsApp.ReplaceTemplateVariables | libs/common/src/whatsapp/whatsapp.service.ts:84-95 | The loop's message is every entry's substitution applied in entry order. |
| WhatsApp.ReplaceAllSkipsPlain | libs/common/src/whatsapp/whatsapp.service.ts:91 | A global replace leaves a prefix without the placeholder's first character as it is. |
| WhatsApp.ReplaceAllHead | libs/common/src/whatsapp/whatsapp.service.ts:91 | A leading occurrence is replaced and scanning continues after it. |
| WhatsApp.SubstituteVariables | libs/common/src/whatsapp/whatsapp.service.ts:84-95 | For a template of text and placeholders, literal keys and values without '{' or '$', when every placeholder's key is supplied: the loop's result is the template with every placeholder replaced by its key's value, and no placeholder of any key remains. |
| WhatsApp.FillMatchesReplace | libs/common/src/whatsapp/whatsapp.service.ts:91 | One global replace of a key's placeholder in the rendered template renders the template with exactly that key's placeholders filled. |
| WhatsApp.FillAllMatchesApplyAll | libs/common/src/whatsapp/whatsapp.service.ts:90-92 | Replacing the variables in entry order renders the template with all of them filled, and the result still has placeholders only between literal text. |
| WhatsApp.FillAllLeavesUnsupplied | libs/common/src/whatsapp/whatsapp.service.ts:90-92 | After filling, a placeholder is left only where the template had one for a key no entry supplies. |
| WhatsApp.OtherPlaceholderKept | libs/common/src/whatsapp/whatsapp.service.ts:91 | Replacing one key copies another key's placeholder through unchanged and resumes after it. |
| WhatsApp.PlaceholderMismatch | libs/common/src/whatsapp/whatsapp.service.ts:91 | A different key's placeholder never matches at the start of a placeholder. |
| WhatsApp.Fill | libs/common/src/whatsapp/whatsapp.service.ts:91 | Filling one key turns exactly the placeholders of that key into the value's text and keeps every other piece. |
| WhatsApp.SuppliedKeys | libs/common/src/whatsapp/whatsapp.service.ts:90 | Every entry's key is among the supplied keys. |
| WhatsApp.RenderTextsAvoid | libs/common/src/whatsapp/whatsapp.service.ts:91 | Literal text without '{' renders to text without '{'. |
| WhatsApp.NoVariables | libs/common/src/whatsapp/whatsapp.service.ts:84-95 | With no variables the template is returned unchanged. |
| WhatsApp.EntryOrderMatters | libs/common/src/whatsapp/whatsapp.service.ts:90-92 | A value that introduces a later key's placeholder is substituted again, but not when the entries come in the other order. |
| WhatsApp.PlaceholderCanSurvive | libs/common/src/whatsapp/whatsapp.service.ts:90-92 | "{{{{a}}}}" with a → "a" leaves "{{a}}": the global replace does not rescan its output. |
| WhatsApp.VerificationText | libs/common/src/whatsapp/whatsapp.service.ts:79 | The verification text starts with "Your verification code is: " and the code. |
| WhatsApp.WelcomeTextNamesUser | libs/common/src/whatsapp/whatsapp.service.ts:73 | The first name can be read back from the welcome text. |
| WhatsApp.WelcomeText | libs/common/src/whatsapp/whatsapp.service.ts:73 | "Welcome ", the first name and the fixed greeting, whose emoji is the four characters "ðŸŽ‰" the source literal holds; `WelcomeTextNamesUser` states that the name reads back. |
| WhatsApp.VerificationTextCarriesCode | libs/common/src/whatsapp/whatsapp.service.ts:79 | The code can be read back from the verification text, so different codes give different texts. |
| WhatsApp.WhatsAppService.constructor | libs/common/src/whatsapp/whatsapp.service.ts:11-17 | The sender number and client are set; nothing is sent yet. |
| WhatsApp.WhatsAppService.Message | libs/common/src/whatsapp/whatsapp.service.ts:21-25 | Messages go from `whatsapp:<sender>` to `whatsapp:<to>` with the given body and media. |
| WhatsApp.WhatsAppService.SendMessage | libs/common/src/whatsapp/whatsapp.service.ts:19-29 | Sends the text; a Twilio failure is reported behind "Failed to send WhatsApp message: " and sends nothing. |
| WhatsApp.WhatsAppService.SendTemplateMessage | libs/common/src/whatsapp/whatsapp.service.ts:31-45 | Sends the substituted template; a failure is reported behind "Failed to send WhatsApp template message: ". |
| WhatsApp.WhatsAppService.SendMediaMessage | libs/common/src/whatsapp/whatsapp.service.ts:47-62 | Sends one media URL with an optional caption; a failure is reported behind "Failed to send WhatsApp media message: ". |
| WhatsApp.WhatsAppService.SendWelcomeMessage | libs/common/src/whatsapp/whatsapp.service.ts:72-76 | Sends the welcome text through sendMessage. |
| WhatsApp.WhatsAppService.SendVerificationCode | libs/common/src/whatsapp/whatsapp.service.ts:78-82 | Sends the verification text through sendMessage. |
| ResponseDto.New | libs/common/src/dtos/response.dto.ts:19-30 | The envelope carries the flag, message and data as given, and the path or "" when none is given. |
| ResponseDto.Success | libs/common/src/dtos/response.dto.ts:32-34 | A success envelope is the constructor with the flag set and the data present. |
| ResponseDto.Error | libs/common/src/dtos/response.dto.ts:36-38 | An error envelope is the constructor with the flag clear and no data. |
| ResponseDto.FactoriesOutcome | libs/common/src/dtos/response.dto.ts:19-38 | Success carries its data and the default message "Success"; an error carries no data; both default the path to "". |
| Strings.DecimalRoundTrip | libs/common/src/gcp/gcp-storage.service.ts:23 | A number's decimal rendering reads back as the number. |
| Strings.DecimalStringShape | libs/common/src/utils/crypto.util.ts:46 | A decimal rendering has as many digits as the number needs and no leading zero. |

## Left out

- **bcrypt.** The Blowfish key schedule and its cost are not modelled. The stand-in digest is a positional code of the cost, salt and key bytes, so it has none of bcrypt's one-wayness or collision resistance. Hashes with the "$2a$" or "$2y$" versions are not produced and their digests are not recomputed.
- Bcrypt.Verify: for a stored string of 60 UTF-16 code units that is not a well-formed hash, `bcrypt.compare` throws; the model answers false instead.
- AuthSpec.Login: because of that, a login against a 60-unit stored plaintext answers "Invalid credentials" in the model, where the source fails with the library's error.
- AuthSpec.LongPasswordLocksAccount: for a stored plaintext of exactly 60 units that starts with "$2", nothing is stated. bcryptjs would read it as a hash or throw, and which passwords match it would depend on the real digest.
- Bcrypt.VerifyHash: passwords with the same first 72 UTF-8 bytes verify alike; that a different key fails is not stated, because the stand-in digest has no collision resistance.
- **JWT signing.** Signatures, the token encoding and the `'7d'`/`'30d'` duration parsing are not modelled. The default lifetimes are written out in seconds.
- **Randomness and the clock.** `uuidv4`, `Math.random`, `Date.now()` and `new Date()` are parameters, and the freshness of a generated uuid or token is a precondition. The one-hour reset lifetime is now + 3600000 ms; daylight-saving and local-time effects of `setHours` are not modelled.
- **Concurrency.** Each asynchronous service call is one atomic step. Races between requests on the same row or token are not modelled.
- **Mail sending.** The subjects, HTML bodies, EJS templates and nodemailer transport of the mail service are not modelled. A mail is its kind, recipient and token or name. Whether its template renders and whether the transport accepts it is a parameter.
- **Twilio and the QR code.** The Twilio client is a parameter. `generateQRCode` is left out because it only calls the qrcode library.
- **Storage I/O.** The filesystem, sharp thumbnailing and the S3/GCS SDK calls are left out or are parameters. Of the local file service, only `getFileType` and `getMimeType` are modelled.
- **ObjectUrls.Pathname:** the WHATWG URL parser is modelled only for https URLs. Percent-encoding, dot-segment removal, host validation, ports, credentials and other schemes are not modelled; any other input counts as a parse failure. The round-trip lemmas (`PathnameOfUrl`, `ExtractFileNameKeepsBucket`, `ObjectNameFromUrlRoundTrip`, `DeleteUploadedFile`, `SignedUrlMatchesPublicUrl`, `ExtractKeyOfObjectUrl`, `DeleteUploadedObject`) are therefore stated for plain hosts and plain paths. A plain path has only characters the parser leaves alone and no "." or ".." segment; object names outside it are not covered.
- WhatsApp.ReplaceTemplateVariables: keys are taken as literal text and values as literal replacements. `SubstituteVariables` requires keys that `new RegExp` reads literally (`IsLiteralKey`: no metacharacter, and not a quantifier body such as "1" or "1,2", which turns `{{1}}` into a repetition) and values without `$`. Regex keys and `$` replacement patterns are not modelled. The entries are taken in the given order; the order `Object.entries` gives integer-like keys is not modelled.
- **ValidationUtil.** `isValidURL`, `isValidDate`, `isNumeric` and `isInteger` depend on the host's URL, Date and floating-point number parsing and are not modelled. The number checks take integers.
- **CryptoUtil.GenerateRandomNumber:** `Math.random` is a real in [0, 1), not a double. Floating-point rounding of the product is not modelled.
- **CryptoUtil.SaltRounds:** a configuration value arriving as a string is not modelled; the configuration maps names to integers.
- **User status enum.** The enum file is not part of this model. Status is ACTIVE, INACTIVE or SUSPENDED; only ACTIVE matters to the service.
- **Framework wiring.** Controllers, modules, decorators, the logging interceptor, configuration factories, exception classes, class-validator decorators, the timezone service and the string helpers are not modelled. Errors are the `ServiceError` datatype.
- **TypeORM.** Only `findOne` by a unique column, `create`, `save` (a no-op for an unchanged row; otherwise running the hash hook, stamping `updatedAt` and writing) and `remove` are modelled. `createdAt` is set by the caller.
- **Auth.AuthService.Register:** the lookup of an existing email and the insert are not atomic in the source. The unique column would reject a racing duplicate; that is not modelled.

## Findings

| source | as written | input that shows it | evidently intended | confidence | as-written member | corrected member |
|---|---|---|---|---|---|---|
| libs/common/src/gcp/gcp-storage.service.ts:79-82 | `deleteFile` takes the object name as the URL's whole path without its leading '/', and that path begins with the bucket name. | bucket "b", folder "uploads", time 1, file "a.png": the upload URL is `https://storage.googleapis.com/b/uploads/1-a.png`, and the extracted name is "b/uploads/1-a.png" | the object name "uploads/1-a.png", with the bucket segment skipped | not executed | GcpStorage.ExtractFileNameKeepsBucket | GcpStorage.ObjectNameFromUrlRoundTrip |
