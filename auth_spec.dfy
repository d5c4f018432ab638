/** What each operation of the authentication service does to the user table, which mails it
    sends and what it answers, as functions of the table before the call; and the properties
    of the account and token lifecycle proved about them. */
module AuthSpec {
  import opened Wrappers
  import opened UserEntity
  import opened UserStore
  import opened Jwt
  import opened Strings
  import Bcrypt

  datatype CreateUserDto = CreateUserDto(email: string, password: string, firstName: string,
                                         lastName: string, phoneNumber: Option<string>)

  datatype TokenPair = TokenPair(accessToken: Token, refreshToken: Token)

  datatype LoginResponse = LoginResponse(user: UserView, accessToken: Token,
                                         refreshToken: Token)

  /** The table after a call, the mails delivered during it, and its answer. */
  datatype Outcome<T> = Outcome(db: Db, sent: seq<Mail>, result: Result<T, ServiceError>)

  const UserExists := "User with this email already exists"
  const InvalidCredentials := "Invalid credentials"
  const AccountNotActive := "Account is not active"
  const InvalidRefreshToken := "Invalid refresh token"
  const InvalidVerificationToken := "Invalid verification token"
  const EmailVerifiedMessage := "Email verified successfully"
  const ResetLinkSent := "If the email exists, a password reset link has been sent"
  const InvalidResetToken := "Invalid or expired reset token"
  const PasswordResetDone := "Password reset successfully"
  const UserNotFound := "User not found"

  /** A reset link is valid for one hour. */
  const ResetTtlMs: int := 60 * 60 * 1000

  /** The user as the service returns it: every property but `password`. */
  function WithoutPassword(u: UserRecord): UserView {
    UserView(u, {Password})
  }

  /** The token payload built from a user. */
  function ClaimsOf(u: UserRecord): Claims {
    Claims(u.id, u.email, u.role, u.status)
  }

  /** The entity `create` builds for a registration: the request's columns, a verification
      token, and the column defaults. */
  function NewUser(id: string, dto: CreateUserDto, token: string, now: int): (u: UserRecord)
    ensures u.id == id && u.email == dto.email && u.emailVerificationToken == Some(token)
    ensures u.role == USER && u.status == ACTIVE && !u.emailVerified
    ensures u.passwordResetToken.None? && u.passwordResetExpires.None? && u.lastLoginAt.None?
  {
    UserRecord(id, dto.email, dto.password, dto.firstName, dto.lastName, dto.phoneNumber, None,
               USER, ACTIVE, false, Some(token), None, None, None, now, now)
  }

  /** `passwordResetExpires < new Date()`: a null expiry compares as the epoch. */
  predicate ExpiredAt(expires: Option<int>, now: int) {
    (if expires.Some? then expires.value else 0) < now
  }

  ghost function Register(db: Db, dto: CreateUserDto, id: string, token: string,
                          salt: Bcrypt.Salt, now: int, transport: Transport)
    : Outcome<UserView>
  {
    if FindIdByEmail(db, dto.email).Some? then
      Outcome(db, [], Failure(Conflict(UserExists)))
    else
      var db' := SaveRow(db, NewUser(id, dto, token, now), salt, now);
      var welcome := Welcome(dto.email, dto.firstName);
      var verification := EmailVerification(dto.email, token);
      if transport(welcome).Some? then
        Outcome(db', [], Failure(Internal(MailError(transport(welcome).value))))
      else if transport(verification).Some? then
        Outcome(db', [welcome], Failure(Internal(MailError(transport(verification).value))))
      else
        Outcome(db', [welcome, verification], Success(WithoutPassword(db'[id])))
  }

  ghost function Login(db: Db, cfg: JwtConfig, email: string, password: string,
                       salt: Bcrypt.Salt, now: int): Outcome<LoginResponse>
  {
    match FindIdByEmail(db, email)
    case None => Outcome(db, [], Failure(Unauthorized(InvalidCredentials)))
    case Some(id) =>
      var u := db[id];
      if !Bcrypt.Verify(password, u.password) then
        Outcome(db, [], Failure(Unauthorized(InvalidCredentials)))
      else if u.status != ACTIVE then
        Outcome(db, [], Failure(Unauthorized(AccountNotActive)))
      else
        var db' := SaveRow(db, u.(lastLoginAt := Some(now)), salt, now);
        var saved := db'[u.id];
        Outcome(db', [], Success(LoginResponse(WithoutPassword(saved),
                                               GenerateAccessToken(cfg, ClaimsOf(saved), now),
                                               GenerateRefreshToken(cfg, ClaimsOf(saved), now))))
  }

  /** `refreshToken`: reads the table and never writes it. */
  function Refresh(db: Db, cfg: JwtConfig, token: Token, now: int): Result<TokenPair, ServiceError> {
    match VerifyRefreshToken(cfg, token, now)
    case Failure(_) => Failure(Unauthorized(InvalidRefreshToken))
    case Success(claims) =>
      if claims.id !in db || db[claims.id].status != ACTIVE then
        Failure(Unauthorized(InvalidRefreshToken))
      else
        var c := ClaimsOf(db[claims.id]);
        Success(TokenPair(GenerateAccessToken(cfg, c, now), GenerateRefreshToken(cfg, c, now)))
  }

  ghost function VerifyEmail(db: Db, token: string, salt: Bcrypt.Salt, now: int): Outcome<string> {
    match FindIdByVerificationToken(db, token)
    case None => Outcome(db, [], Failure(Unauthorized(InvalidVerificationToken)))
    case Some(id) =>
      var u := db[id].(emailVerified := true, emailVerificationToken := None);
      Outcome(SaveRow(db, u, salt, now), [], Success(EmailVerifiedMessage))
  }

  ghost function ForgotPassword(db: Db, email: string, resetToken: string, salt: Bcrypt.Salt,
                                now: int, transport: Transport): Outcome<string>
  {
    match FindIdByEmail(db, email)
    case None => Outcome(db, [], Success(ResetLinkSent))
    case Some(id) =>
      var u := db[id].(passwordResetToken := Some(resetToken),
                       passwordResetExpires := Some(now + ResetTtlMs));
      var db' := SaveRow(db, u, salt, now);
      var mail := PasswordReset(email, resetToken);
      if transport(mail).Some? then Outcome(db', [], Failure(Internal(MailError(transport(mail).value))))
      else Outcome(db', [mail], Success(ResetLinkSent))
  }

  ghost function ResetPassword(db: Db, token: string, newPassword: string, salt: Bcrypt.Salt,
                               now: int): Outcome<string>
  {
    match FindIdByResetToken(db, token)
    case None => Outcome(db, [], Failure(Unauthorized(InvalidResetToken)))
    case Some(id) =>
      if ExpiredAt(db[id].passwordResetExpires, now) then
        Outcome(db, [], Failure(Unauthorized(InvalidResetToken)))
      else
        var u := db[id].(password := newPassword, passwordResetToken := None,
                         passwordResetExpires := None);
        Outcome(SaveRow(db, u, salt, now), [], Success(PasswordResetDone))
  }

  function GetProfile(db: Db, userId: string): Result<UserView, ServiceError> {
    if userId !in db then Failure(Unauthorized(UserNotFound))
    else Success(WithoutPassword(db[userId]))
  }

  function UpdateProfile(db: Db, userId: string, dto: UpdateUserDto, salt: Bcrypt.Salt,
                         now: int): Outcome<UserView>
  {
    if userId !in db then Outcome(db, [], Failure(Unauthorized(UserNotFound)))
    else
      var u := ApplyUpdate(db[userId], dto);
      var db' := SaveRow(db, u, salt, now);
      Outcome(db', [], Success(WithoutPassword(db'[u.id])))
  }

  function ValidateUser(db: Db, id: string): Option<UserView> {
    if id !in db || db[id].status != ACTIVE then None
    else Some(WithoutPassword(db[id]))
  }

  ghost function ValidateUserByCredentials(db: Db, email: string, password: string)
    : Option<UserView>
  {
    match FindIdByEmail(db, email)
    case None => None
    case Some(id) =>
      if !Bcrypt.Verify(password, db[id].password) || db[id].status != ACTIVE then None
      else Some(WithoutPassword(db[id]))
  }

  // ---------------------------------------------------------------------------------------
  // register

  /** A taken email is refused with Conflict, and then nothing is written or sent. */
  lemma {:induction false} RegisterConflict(db: Db, dto: CreateUserDto, id: string, token: string,
                                            salt: Bcrypt.Salt, now: int, transport: Transport)
    requires DbValid(db)
    ensures var o := Register(db, dto, id, token, salt, now, transport);
      && ((exists k :: k in db && db[k].email == dto.email) <==> o.result == Failure(Conflict(UserExists)))
      && ((exists k :: k in db && db[k].email == dto.email) ==> o.db == db && o.sent == [])
  {
    if exists k :: k in db && db[k].email == dto.email {
      var k :| k in db && db[k].email == dto.email;
      FindIdByEmailIs(db, dto.email, k);
    }
  }

  /** A new email adds exactly one row, holding the email, the verification token, the
      defaults and the hashed password; it is written before any mail goes out, so whatever
      the mail transport does, the account is there afterwards. */
  lemma {:induction false} RegisterAddsUser(db: Db, dto: CreateUserDto, id: string, token: string,
                                            salt: Bcrypt.Salt, now: int, transport: Transport)
    requires DbValid(db) && id !in db
    requires forall k :: k in db ==> db[k].email != dto.email
    ensures var db' := Register(db, dto, id, token, salt, now, transport).db;
      && db'.Keys == db.Keys + {id} && |db'| == |db| + 1
      && (forall k :: k in db ==> db'[k] == db[k])
      && db'[id].email == dto.email && db'[id].emailVerificationToken == Some(token)
      && db'[id].role == USER && db'[id].status == ACTIVE && !db'[id].emailVerified
      && (dto.password != "" && Utf16Length(dto.password) < Bcrypt.HashLength ==>
            Utf16Length(db'[id].password) == Bcrypt.HashLength && Bcrypt.Verify(dto.password, db'[id].password))
      && (dto.password == "" || Utf16Length(dto.password) >= Bcrypt.HashLength ==>
            db'[id].password == dto.password)
  {
    RegisterStores(db, dto, id, token, salt, now, transport);
    assert |db.Keys + {id}| == |db.Keys| + 1;
  }

  /** Whatever the mail transport does, a new email's row is the one written to the table. */
  lemma RegisterStores(db: Db, dto: CreateUserDto, id: string, token: string,
                       salt: Bcrypt.Salt, now: int, transport: Transport)
    requires forall k :: k in db ==> db[k].email != dto.email
    ensures Register(db, dto, id, token, salt, now, transport).db
         == SaveRow(db, NewUser(id, dto, token, now), salt, now)
  {
    assert FindIdByEmail(db, dto.email).None?;
  }

  /** With a new email, the welcome mail goes first and the verification mail second; the
      first rejected mail ends the call with the mail service's error. When both are
      delivered the answer is the new user without its password, which still carries the
      verification token. */
  lemma {:induction false} RegisterMails(db: Db, dto: CreateUserDto, id: string, token: string,
                                         salt: Bcrypt.Salt, now: int, transport: Transport)
    requires forall k :: k in db ==> db[k].email != dto.email
    ensures var o := Register(db, dto, id, token, salt, now, transport);
      var welcome, verification := Welcome(dto.email, dto.firstName), EmailVerification(dto.email, token);
      && (transport(welcome).Some? ==>
            o.result == Failure(Internal(MailError(transport(welcome).value))) && o.sent == [])
      && (transport(welcome).None? && transport(verification).Some? ==>
            o.result == Failure(Internal(MailError(transport(verification).value)))
            && o.sent == [welcome])
      && (transport(welcome).None? && transport(verification).None? ==>
            o.sent == [welcome, verification] && o.result.Success?
            && Password !in o.result.value.Json()
            && o.result.value.Json()[EmailVerificationToken] == Text(token))
  {
    assert FindIdByEmail(db, dto.email).None?;
  }

  /** Registration keeps the table valid, given the fresh key and verification token that
      the uuid generator supplies. */
  lemma {:induction false} RegisterPreservesValid(db: Db, dto: CreateUserDto, id: string,
                                                  token: string, salt: Bcrypt.Salt, now: int,
                                                  transport: Transport)
    requires DbValid(db) && id !in db
    requires forall k :: k in db ==> db[k].emailVerificationToken != Some(token)
    ensures DbValid(Register(db, dto, id, token, salt, now, transport).db)
  {
    if FindIdByEmail(db, dto.email).None? {
      InsertPreservesValid(db, NewUser(id, dto, token, now), salt, now);
    }
  }

  // ---------------------------------------------------------------------------------------
  // login

  /** An unknown email and a wrong password get the very same error, and neither writes. */
  lemma {:induction false} LoginInvalidCredentials(db: Db, cfg: JwtConfig, email: string,
                                                   password: string, salt: Bcrypt.Salt, now: int)
    requires DbValid(db)
    ensures var o := Login(db, cfg, email, password, salt, now);
      && (o.result == Failure(Unauthorized(InvalidCredentials)) <==>
            forall k :: k in db && db[k].email == email ==> !Bcrypt.Verify(password, db[k].password))
      && (o.result.Failure? ==> o.db == db && o.sent == [])
  {
    match FindIdByEmail(db, email)
    case None =>
    case Some(id) =>
      forall k | k in db && db[k].email == email ensures k == id { }
  }

  /** The status gate comes after the password check: the right password on an account that
      is not ACTIVE gets "Account is not active", a wrong one never does. */
  lemma {:induction false} LoginStatusGate(db: Db, cfg: JwtConfig, email: string, password: string,
                                           salt: Bcrypt.Salt, now: int)
    requires DbValid(db)
    ensures Login(db, cfg, email, password, salt, now).result == Failure(Unauthorized(AccountNotActive))
            <==> exists k :: k in db && db[k].email == email &&
                   Bcrypt.Verify(password, db[k].password) && db[k].status != ACTIVE
  {
    if exists k :: k in db && db[k].email == email {
      var k :| k in db && db[k].email == email;
      FindIdByEmailIs(db, email, k);
    }
  }

  /** A login succeeds exactly when credential validation accepts; it then changes only the
      user's `lastLoginAt` and the save stamp (nothing at all when `lastLoginAt` already holds
      this instant), and mints both tokens from the stored user's id, email, role and
      status. */
  lemma {:induction false} LoginSuccess(db: Db, cfg: JwtConfig, email: string, password: string,
                                        salt: Bcrypt.Salt, now: int)
    requires DbValid(db)
    ensures var o := Login(db, cfg, email, password, salt, now);
      && (o.result.Success? <==> ValidateUserByCredentials(db, email, password).Some?)
      && (o.result.Success? ==>
            exists id :: id in db && db[id].email == email
              && o.db == (if db[id].lastLoginAt == Some(now) then db
                          else db[id := db[id].(lastLoginAt := Some(now), updatedAt := now)])
              && o.result.value.accessToken == GenerateAccessToken(cfg, ClaimsOf(db[id]), now)
              && o.result.value.refreshToken == GenerateRefreshToken(cfg, ClaimsOf(db[id]), now))
  {
    var o := Login(db, cfg, email, password, salt, now);
    if o.result.Success? {
      var id := FindIdByEmail(db, email).value;
      var u := db[id];
      assert StoredPassword(u.password) && u.id == id;
      assert SavesNothing(db, u.(lastLoginAt := Some(now))) <==> u.lastLoginAt == Some(now);
    }
  }

  lemma {:induction false} LoginPreservesValid(db: Db, cfg: JwtConfig, email: string,
                                               password: string, salt: Bcrypt.Salt, now: int)
    requires DbValid(db)
    ensures DbValid(Login(db, cfg, email, password, salt, now).db)
  {
    match FindIdByEmail(db, email)
    case None =>
    case Some(id) =>
      SavePreservesValid(db, db[id].(lastLoginAt := Some(now)), salt, now);
  }

  /** The user in a login answer is the saved user without its password. */
  lemma LoginResponseUser(db: Db, cfg: JwtConfig, email: string, password: string,
                          salt: Bcrypt.Salt, now: int)
    requires Login(db, cfg, email, password, salt, now).result.Success?
    ensures var user := Login(db, cfg, email, password, salt, now).result.value.user.Json();
      && (forall k :: k in user <==> k != Password)
      && user[Email] == Text(email) && user[LastLoginAt] == Timestamp(now)
  {
  }

  // ---------------------------------------------------------------------------------------
  // refreshToken

  /** Every refusal is "Invalid refresh token", whichever check failed; a success needs a
      verifying token whose user still exists and is ACTIVE, and the new pair carries the
      stored user's claims, not the ones in the presented token. */
  lemma RefreshOutcome(db: Db, cfg: JwtConfig, token: Token, now: int)
    ensures var r := Refresh(db, cfg, token, now);
      && (r.Failure? ==> r.error == Unauthorized(InvalidRefreshToken))
      && (r.Success? <==> token.Signed? && token.secret == cfg.refreshSecret
                          && Seconds(now) < token.expiresAt
                          && token.claims.id in db && db[token.claims.id].status == ACTIVE)
      && (r.Success? ==> r.value.refreshToken.Signed? && r.value.accessToken.Signed?
                         && r.value.refreshToken.claims == ClaimsOf(db[token.claims.id])
                         && r.value.accessToken.claims == ClaimsOf(db[token.claims.id]))
  {
  }

  /** A refresh does not revoke the token it was given: with the table unchanged, the same
      token is accepted again for as long as it has not expired. */
  lemma RefreshDoesNotRevoke(db: Db, cfg: JwtConfig, token: Token, now: int, later: int)
    requires Refresh(db, cfg, token, now).Success?
    requires now <= later && Seconds(later) < token.expiresAt
    ensures Refresh(db, cfg, token, later).Success?
  {
  }

  // ---------------------------------------------------------------------------------------
  // verifyEmail

  /** A verification token works once: the first use marks the email verified and clears the
      token, so a second use with the same token is refused. */
  lemma {:induction false} VerifyEmailSingleUse(db: Db, token: string, salt: Bcrypt.Salt,
                                                now: int, later: int)
    requires DbValid(db)
    requires VerifyEmail(db, token, salt, now).result.Success?
    ensures var db' := VerifyEmail(db, token, salt, now).db;
      && (exists id :: id in db' && db'[id].emailVerified && db'[id].emailVerificationToken.None?
                        && db[id].emailVerificationToken == Some(token))
      && VerifyEmail(db', token, salt, later).result == Failure(Unauthorized(InvalidVerificationToken))
  {
    var id := FindIdByVerificationToken(db, token).value;
    var db' := VerifyEmail(db, token, salt, now).db;
    assert db'[id].emailVerificationToken.None?;
    forall k | k in db' ensures db'[k].emailVerificationToken != Some(token) {
      if k != id {
        assert db'[k] == db[k];
      }
    }
  }

  lemma {:induction false} VerifyEmailPreservesValid(db: Db, token: string, salt: Bcrypt.Salt,
                                                     now: int)
    requires DbValid(db)
    ensures DbValid(VerifyEmail(db, token, salt, now).db)
  {
    match FindIdByVerificationToken(db, token)
    case None =>
    case Some(id) =>
      SavePreservesValid(db, db[id].(emailVerified := true, emailVerificationToken := None), salt, now);
  }

  // ---------------------------------------------------------------------------------------
  // forgotPassword

  /** While mail is delivered, the answer is the same whether or not the email is registered.
      An unknown email changes nothing; a known one gets a fresh reset token and an expiry one
      hour ahead, replacing any earlier pair, and a reset mail. Only a failed delivery shows
      that the email exists. */
  lemma {:induction false} ForgotPasswordOutcome(db: Db, email: string, resetToken: string,
                                                 salt: Bcrypt.Salt, now: int,
                                                 transport: Transport)
    requires DbValid(db)
    ensures var o := ForgotPassword(db, email, resetToken, salt, now, transport);
      && (transport(PasswordReset(email, resetToken)).None? ==> o.result == Success(ResetLinkSent))
      && ((forall k :: k in db ==> db[k].email != email) ==>
            o == Outcome(db, [], Success(ResetLinkSent)))
      && (forall k :: k in db && db[k].email == email ==>
            && (var u := db[k].(passwordResetToken := Some(resetToken),
                                passwordResetExpires := Some(now + ResetTtlMs));
                o.db == if u == db[k] then db else db[k := u.(updatedAt := now)])
            && (var mail := PasswordReset(email, resetToken);
                && o.sent == (if transport(mail).None? then [mail] else [])
                && (transport(mail).Some? ==> o.result == Failure(Internal(MailError(transport(mail).value))))))
  {
    forall k | k in db && db[k].email == email
      ensures var u := db[k].(passwordResetToken := Some(resetToken),
                              passwordResetExpires := Some(now + ResetTtlMs));
              ForgotPassword(db, email, resetToken, salt, now, transport).db
              == if u == db[k] then db else db[k := u.(updatedAt := now)]
    {
      FindIdByEmailIs(db, email, k);
      assert StoredPassword(db[k].password) && db[k].id == k;
    }
  }

  /** Given a reset token no other row holds, forgotPassword keeps the table valid. */
  lemma {:induction false} ForgotPasswordPreservesValid(db: Db, email: string, resetToken: string,
                                                        salt: Bcrypt.Salt, now: int,
                                                        transport: Transport)
    requires DbValid(db)
    requires forall k :: k in db ==> db[k].passwordResetToken != Some(resetToken)
    ensures DbValid(ForgotPassword(db, email, resetToken, salt, now, transport).db)
  {
    match FindIdByEmail(db, email)
    case None =>
    case Some(id) =>
      var u := db[id].(passwordResetToken := Some(resetToken),
                       passwordResetExpires := Some(now + ResetTtlMs));
      SavePreservesValid(db, u, salt, now);
  }

  // ---------------------------------------------------------------------------------------
  // resetPassword

  /** A reset succeeds exactly when some row holds the token and its expiry is not before
      now: the comparison is strict, and neither the status nor the verified flag is looked
      at. It stores the new password through the hook and clears token and expiry together. */
  lemma {:induction false} ResetPasswordOutcome(db: Db, token: string, newPassword: string,
                                                salt: Bcrypt.Salt, now: int)
    requires DbValid(db)
    ensures var o := ResetPassword(db, token, newPassword, salt, now);
      && (o.result.Failure? ==> o.result.error == Unauthorized(InvalidResetToken) && o.db == db)
      && (o.result.Success? <==>
            exists id :: id in db && db[id].passwordResetToken == Some(token)
                         && db[id].passwordResetExpires.Some? && now <= db[id].passwordResetExpires.value)
      && (forall id :: id in db && db[id].passwordResetToken == Some(token) && o.result.Success? ==>
            && o.db.Keys == db.Keys
            && (forall k :: k in db && k != id ==> o.db[k] == db[k])
            && o.db[id].passwordResetToken.None? && o.db[id].passwordResetExpires.None?
            && o.db[id].password == HashHook(newPassword, salt)
            && o.db[id].status == db[id].status && o.db[id].emailVerified == db[id].emailVerified)
  {
    if exists id :: id in db && db[id].passwordResetToken == Some(token) {
      var id :| id in db && db[id].passwordResetToken == Some(token);
      FindIdByResetTokenIs(db, token, id);
    }
  }

  /** At exactly the expiry instant the token is still accepted; one millisecond later it is
      refused. */
  lemma {:induction false} ResetAcceptedAtExpiryInstant(db: Db, id: string, token: string,
                                                        newPassword: string, salt: Bcrypt.Salt)
    requires DbValid(db) && id in db && db[id].passwordResetToken == Some(token)
    ensures var expires := db[id].passwordResetExpires.value;
      && ResetPassword(db, token, newPassword, salt, expires).result == Success(PasswordResetDone)
      && ResetPassword(db, token, newPassword, salt, expires + 1).result
         == Failure(Unauthorized(InvalidResetToken))
  {
    FindIdByResetTokenIs(db, token, id);
  }

  /** A reset token works once. */
  lemma {:induction false} ResetPasswordSingleUse(db: Db, token: string, p: string, q: string,
                                                  salt: Bcrypt.Salt, now: int, later: int)
    requires DbValid(db)
    requires ResetPassword(db, token, p, salt, now).result.Success?
    ensures ResetPassword(ResetPassword(db, token, p, salt, now).db, token, q, salt, later).result
            == Failure(Unauthorized(InvalidResetToken))
  {
    var id := FindIdByResetToken(db, token).value;
    var db' := ResetPassword(db, token, p, salt, now).db;
    forall k | k in db' ensures db'[k].passwordResetToken != Some(token) {
      if k != id {
        assert db'[k] == db[k];
      }
    }
  }

  lemma {:induction false} ResetPasswordPreservesValid(db: Db, token: string, newPassword: string,
                                                       salt: Bcrypt.Salt, now: int)
    requires DbValid(db)
    ensures DbValid(ResetPassword(db, token, newPassword, salt, now).db)
  {
    match FindIdByResetToken(db, token)
    case None =>
    case Some(id) =>
      if !ExpiredAt(db[id].passwordResetExpires, now) {
        SavePreservesValid(db, db[id].(password := newPassword, passwordResetToken := None,
                                       passwordResetExpires := None), salt, now);
      }
  }

  // ---------------------------------------------------------------------------------------
  // getProfile, updateProfile, validateUser, validateUserByCredentials

  /** A missing id is refused as unauthorised; otherwise the answer is the stored user
      without the password. */
  lemma GetProfileOutcome(db: Db, userId: string)
    ensures GetProfile(db, userId).Failure? <==> userId !in db
    ensures GetProfile(db, userId).Failure? ==> GetProfile(db, userId).error == Unauthorized(UserNotFound)
    ensures userId in db ==> (forall k :: k in GetProfile(db, userId).value.Json() <==> k != Password)
                             && GetProfile(db, userId).value.Json()[Email] == Text(db[userId].email)
  {
  }

  /** Properties present in the request overwrite the stored ones, absent ones stay, other
      users are untouched, and the answer is the saved user without the password. A request
      that changes no column writes nothing, so the stored `updatedAt` is kept. */
  lemma {:induction false} UpdateProfileOutcome(db: Db, userId: string, dto: UpdateUserDto,
                                                salt: Bcrypt.Salt, now: int)
    requires DbValid(db)
    ensures var o := UpdateProfile(db, userId, dto, salt, now);
      && (userId !in db ==> o == Outcome(db, [], Failure(Unauthorized(UserNotFound))))
      && (userId in db ==>
            && o.db == (if ApplyUpdate(db[userId], dto) == db[userId] then db
                        else db[userId := ApplyUpdate(db[userId], dto).(updatedAt := now)])
            && o.result == Success(WithoutPassword(o.db[userId])))
  {
    if userId in db {
      assert StoredPassword(db[userId].password) && db[userId].id == userId;
    }
  }

  /** An update request with no fields leaves the table as it is and answers the stored
      user, with its stored `updatedAt`. */
  lemma {:induction false} EmptyUpdateWritesNothing(db: Db, userId: string, salt: Bcrypt.Salt, now: int)
    requires DbValid(db) && userId in db
    ensures UpdateProfile(db, userId, UpdateUserDto(None, None, None, None), salt, now)
            == Outcome(db, [], Success(WithoutPassword(db[userId])))
  {
    ApplyUpdateEmptyAndIdempotent(db[userId], UpdateUserDto(None, None, None, None));
    assert db[userId].id == userId;
  }

  lemma {:induction false} UpdateProfilePreservesValid(db: Db, userId: string, dto: UpdateUserDto,
                                                       salt: Bcrypt.Salt, now: int)
    requires DbValid(db)
    ensures DbValid(UpdateProfile(db, userId, dto, salt, now).db)
  {
    if userId in db {
      SavePreservesValid(db, ApplyUpdate(db[userId], dto), salt, now);
    }
  }

  /** validateUser returns a user exactly for an existing ACTIVE id, without its password. */
  lemma ValidateUserOutcome(db: Db, id: string)
    ensures ValidateUser(db, id).Some? <==> id in db && db[id].status == ACTIVE
    ensures ValidateUser(db, id).Some? ==> ValidateUser(db, id).value == WithoutPassword(db[id])
  {
  }

  /** validateUserByCredentials returns a user, without its password, exactly when the email
      is registered, the password verifies and the account is ACTIVE; it never fails. */
  lemma {:induction false} ValidateUserByCredentialsOutcome(db: Db, email: string, password: string)
    requires DbValid(db)
    ensures ValidateUserByCredentials(db, email, password).Some? <==>
            exists id :: id in db && db[id].email == email && Bcrypt.Verify(password, db[id].password)
                         && db[id].status == ACTIVE
    ensures forall id :: (id in db && db[id].email == email &&
              ValidateUserByCredentials(db, email, password).Some?) ==>
              ValidateUserByCredentials(db, email, password).value == WithoutPassword(db[id])
  {
    if exists id :: id in db && db[id].email == email {
      var id :| id in db && db[id].email == email;
      FindIdByEmailIs(db, email, id);
    }
  }

  // ---------------------------------------------------------------------------------------
  // whole flows

  /** A registration whose plaintext is 60 UTF-16 code units or longer stores it unhashed.
      Longer than a hash, every login is refused as invalid credentials; not starting like
      a bcrypt hash, no login succeeds. */
  lemma {:induction false} LongPasswordLocksAccount(db: Db, dto: CreateUserDto, id: string,
                                                    token: string, salt: Bcrypt.Salt, now: int,
                                                    cfg: JwtConfig, attempt: string, later: int,
                                                    transport: Transport)
    requires DbValid(db) && id !in db
    requires forall k :: k in db ==> db[k].email != dto.email
    requires Utf16Length(dto.password) >= Bcrypt.HashLength
    ensures var db' := Register(db, dto, id, token, salt, now, transport).db;
      && db'[id].password == dto.password
      && (Utf16Length(dto.password) > Bcrypt.HashLength ==>
            Login(db', cfg, dto.email, attempt, salt, later).result == Failure(Unauthorized(InvalidCredentials)))
      && (!StartsWith(dto.password, "$2") ==> !Login(db', cfg, dto.email, attempt, salt, later).result.Success?)
  {
    assert FindIdByEmail(db, dto.email).None?;
    var db' := SaveRow(db, NewUser(id, dto, token, now), salt, now);
    assert Register(db, dto, id, token, salt, now, transport).db == db';
    LongPlaintextStoredUnhashed(dto.password, salt, attempt);
    assert db'[id].password == dto.password;
    var found := FindIdByEmail(db', dto.email);
    assert id in db' && db'[id].email == dto.email;
  }

  /** A new account can log in straight away with the password it registered with (any
      password the hook hashes: non-empty and shorter than a hash in UTF-16 code units). */
  lemma {:induction false} RegisterThenLogin(db: Db, dto: CreateUserDto, id: string, token: string,
                                             salt: Bcrypt.Salt, now: int, cfg: JwtConfig, later: int,
                                             transport: Transport)
    requires DbValid(db) && id !in db
    requires forall k :: k in db ==> db[k].email != dto.email
    requires dto.password != "" && Utf16Length(dto.password) < Bcrypt.HashLength
    ensures var db' := Register(db, dto, id, token, salt, now, transport).db;
      && id in db' && db'[id].status == ACTIVE && !db'[id].emailVerified
      && var login := Login(db', cfg, dto.email, dto.password, salt, later);
      && login.result.Success? && id in login.db && login.db[id].lastLoginAt == Some(later)
  {
    var db' := SaveRow(db, NewUser(id, dto, token, now), salt, now);
    assert Register(db, dto, id, token, salt, now, transport).db == db' by {
      assert FindIdByEmail(db, dto.email).None?;
    }
    assert FindIdByEmail(db', dto.email) == Some(id) by {
      assert db'[id].email == dto.email;
    }
    var u := db'[id];
    assert u.id == id && u.status == ACTIVE && Bcrypt.Verify(dto.password, u.password);
    assert Login(db', cfg, dto.email, dto.password, salt, later).db
        == SaveRow(db', u.(lastLoginAt := Some(later)), salt, later);
  }

  /** The refresh token a login hands out is accepted at once, while the user is unchanged. */
  lemma {:induction false} LoginThenRefresh(db: Db, cfg: JwtConfig, email: string, password: string,
                                            salt: Bcrypt.Salt, now: int)
    requires DbValid(db) && cfg.refreshTtl > 0
    requires Login(db, cfg, email, password, salt, now).result.Success?
    ensures var login := Login(db, cfg, email, password, salt, now);
      Refresh(login.db, cfg, login.result.value.refreshToken, now).Success?
  {
    var id := FindIdByEmail(db, email).value;
    var login := Login(db, cfg, email, password, salt, now);
    var saved := login.db[db[id].id];
    RefreshTokenRoundTrip(cfg, ClaimsOf(saved), now, now);
  }

  /** A reset link asked for at `now` works until `now` plus one hour inclusive and is
      refused a second after. */
  lemma {:induction false} ForgotThenReset(db: Db, id: string, resetToken: string, newPassword: string,
                                           salt: Bcrypt.Salt, now: int, transport: Transport)
    requires DbValid(db) && id in db
    requires forall k :: k in db ==> db[k].passwordResetToken != Some(resetToken)
    ensures var db' := ForgotPassword(db, db[id].email, resetToken, salt, now, transport).db;
      && ResetPassword(db', resetToken, newPassword, salt, now + ResetTtlMs).result.Success?
      && ResetPassword(db', resetToken, newPassword, salt, now + ResetTtlMs + 1000).result
         == Failure(Unauthorized(InvalidResetToken))
  {
    FindIdByEmailIs(db, db[id].email, id);
    ForgotPasswordPreservesValid(db, db[id].email, resetToken, salt, now, transport);
    var db' := ForgotPassword(db, db[id].email, resetToken, salt, now, transport).db;
    assert db'[id].passwordResetToken == Some(resetToken);
    assert db'[id].passwordResetExpires == Some(now + ResetTtlMs);
    ResetAcceptedAtExpiryInstant(db', id, resetToken, newPassword, salt);
    FindIdByResetTokenIs(db', resetToken, id);
  }

  /** The first half of the end-to-end flow: after registering and logging in, the refresh
      token works, and the saved account is valid and has no reset token. */
  lemma {:induction false} RegisterLoginRefresh(db: Db, dto: CreateUserDto, cfg: JwtConfig, id: string,
                                                verificationToken: string, resetToken: string,
                                                salt: Bcrypt.Salt, t0: int, transport: Transport)
    requires DbValid(db) && id !in db && cfg.refreshTtl > 0
    requires dto.password != "" && Utf16Length(dto.password) < Bcrypt.HashLength
    requires forall k :: k in db ==> db[k].email != dto.email
    requires forall k :: k in db ==> db[k].emailVerificationToken != Some(verificationToken)
    requires forall k :: k in db ==> db[k].passwordResetToken != Some(resetToken)
    ensures var db1 := Register(db, dto, id, verificationToken, salt, t0, transport).db;
      && var login := Login(db1, cfg, dto.email, dto.password, salt, t0);
      && login.result.Success?
      && Refresh(login.db, cfg, login.result.value.refreshToken, t0).Success?
      && DbValid(login.db) && id in login.db && login.db[id].email == dto.email
      && forall k :: k in login.db ==> login.db[k].passwordResetToken != Some(resetToken)
  {
    var db1 := Register(db, dto, id, verificationToken, salt, t0, transport).db;
    RegisterStores(db, dto, id, verificationToken, salt, t0, transport);
    RegisterPreservesValid(db, dto, id, verificationToken, salt, t0, transport);
    RegisterThenLogin(db, dto, id, verificationToken, salt, t0, cfg, t0, transport);
    LoginThenRefresh(db1, cfg, dto.email, dto.password, salt, t0);
    SaveKeepsResetTokenUnheld(db, NewUser(id, dto, verificationToken, t0), salt, t0, resetToken);
    var u1 := db1[id].(lastLoginAt := Some(t0));
    var db2 := Login(db1, cfg, dto.email, dto.password, salt, t0).db;
    assert db2 == SaveRow(db1, u1, salt, t0) by {
      FindIdByEmailIs(db1, dto.email, id);
    }
    SavePreservesValid(db1, u1, salt, t0);
    SaveKeepsResetTokenUnheld(db1, u1, salt, t0, resetToken);
  }

  /** The end-to-end flow: register, log in, refresh, ask for a reset link, and try the reset
      one hour and one second later, when it is refused. */
  lemma {:induction false} AccountLifecycleScenario(db: Db, cfg: JwtConfig, id: string,
                                                    verificationToken: string, resetToken: string,
                                                    salt: Bcrypt.Salt, t0: int, transport: Transport)
    requires DbValid(db) && id !in db && cfg.refreshTtl > 0
    requires forall k :: k in db ==> db[k].email != "a@x.com"
    requires forall k :: k in db ==> db[k].emailVerificationToken != Some(verificationToken)
    requires forall k :: k in db ==> db[k].passwordResetToken != Some(resetToken)
    ensures var db1 := Register(db, CreateUserDto("a@x.com", "Passw0rd", "A", "B", None), id,
                                verificationToken, salt, t0, transport).db;
      && var login := Login(db1, cfg, "a@x.com", "Passw0rd", salt, t0);
      && login.result.Success?
      && Refresh(login.db, cfg, login.result.value.refreshToken, t0).Success?
      && ResetPassword(ForgotPassword(login.db, "a@x.com", resetToken, salt, t0, transport).db,
                       resetToken, "NewPassw0rd", salt, t0 + ResetTtlMs + 1000).result
         == Failure(Unauthorized(InvalidResetToken))
  {
    var dto := CreateUserDto("a@x.com", "Passw0rd", "A", "B", None);
    RegisterLoginRefresh(db, dto, cfg, id, verificationToken, resetToken, salt, t0, transport);
    var db1 := Register(db, dto, id, verificationToken, salt, t0, transport).db;
    var db2 := Login(db1, cfg, "a@x.com", "Passw0rd", salt, t0).db;
    ForgotThenReset(db2, id, resetToken, "NewPassw0rd", salt, t0, transport);
  }

}
