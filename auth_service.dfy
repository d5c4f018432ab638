/** The authentication service: each operation looks a user up in the repository, checks
    its guards, changes a few properties of the entity, saves it and answers. Each method is
    proved to do what the matching function of AuthSpec describes, and to keep the table
    valid. Fresh uuids, salts and the clock are parameters. */
module Auth {
  import opened Wrappers
  import opened UserEntity
  import opened UserStore
  import opened Jwt
  import AuthSpec
  import Bcrypt

  class AuthService {
    const users: UserRepository
    const mailer: Mailer
    const jwt: JwtConfig

    ghost predicate Valid()
      reads this, users
    {
      DbValid(users.rows)
    }

    constructor (users: UserRepository, mailer: Mailer, jwt: JwtConfig)
      ensures this.users == users && this.mailer == mailer && this.jwt == jwt
    {
      this.users := users;
      this.mailer := mailer;
      this.jwt := jwt;
    }

    /** `register`; `id` is the key the database assigns and `token` the uuid drawn for the
        verification link, both fresh. */
    method Register(dto: AuthSpec.CreateUserDto, id: string, token: string, salt: Bcrypt.Salt,
                    now: int) returns (r: Result<UserView, ServiceError>)
      requires Valid()
      requires id !in users.rows
      requires forall k :: k in users.rows ==> users.rows[k].emailVerificationToken != Some(token)
      modifies users, mailer
      ensures Valid()
      ensures var o := AuthSpec.Register(old(users.rows), dto, id, token, salt, now, mailer.transport);
        r == o.result && users.rows == o.db && mailer.outbox == old(mailer.outbox) + o.sent
    {
      ghost var db := users.rows;
      AuthSpec.RegisterPreservesValid(db, dto, id, token, salt, now, mailer.transport);
      var existing := users.FindOneByEmail(dto.email);
      if existing != null {
        return Failure(Conflict(AuthSpec.UserExists));
      }
      var user := new User.Create(id, dto.email, dto.password, dto.firstName, dto.lastName,
                                  dto.phoneNumber, Some(token), now);
      users.Save(user, salt, now);
      var welcome := mailer.Send(Welcome(dto.email, dto.firstName));
      if welcome.Failure? {
        return Failure(Internal(welcome.error));
      }
      var verification := mailer.Send(EmailVerification(dto.email, user.emailVerificationToken.value));
      if verification.Failure? {
        return Failure(Internal(verification.error));
      }
      r := Success(UserView(user.Record(), {Password}));
    }

    method Login(email: string, password: string, salt: Bcrypt.Salt, now: int)
      returns (r: Result<AuthSpec.LoginResponse, ServiceError>)
      requires Valid()
      modifies users
      ensures Valid()
      ensures var o := AuthSpec.Login(old(users.rows), jwt, email, password, salt, now);
        r == o.result && users.rows == o.db
    {
      AuthSpec.LoginPreservesValid(users.rows, jwt, email, password, salt, now);
      var user := users.FindOneByEmail(email);
      if user == null {
        return Failure(Unauthorized(AuthSpec.InvalidCredentials));
      }
      if !Bcrypt.Verify(password, user.password) {
        return Failure(Unauthorized(AuthSpec.InvalidCredentials));
      }
      if user.status != ACTIVE {
        return Failure(Unauthorized(AuthSpec.AccountNotActive));
      }
      user.lastLoginAt := Some(now);
      users.Save(user, salt, now);
      var claims := AuthSpec.ClaimsOf(user.Record());
      var accessToken := GenerateAccessToken(jwt, claims, now);
      var refreshToken := GenerateRefreshToken(jwt, claims, now);
      r := Success(AuthSpec.LoginResponse(AuthSpec.WithoutPassword(user.Record()),
                                          accessToken, refreshToken));
    }

    /** `refreshToken`: only reads the table. */
    method RefreshToken(token: Token, now: int) returns (r: Result<AuthSpec.TokenPair, ServiceError>)
      ensures r == AuthSpec.Refresh(users.rows, jwt, token, now)
      ensures r.Failure? ==> r.error == Unauthorized(AuthSpec.InvalidRefreshToken)
    {
      var verified := VerifyRefreshToken(jwt, token, now);
      if verified.Failure? {
        return Failure(Unauthorized(AuthSpec.InvalidRefreshToken));
      }
      var user := users.FindOneById(verified.value.id);
      if user == null || user.status != ACTIVE {
        return Failure(Unauthorized(AuthSpec.InvalidRefreshToken));
      }
      var claims := AuthSpec.ClaimsOf(user.Record());
      r := Success(AuthSpec.TokenPair(GenerateAccessToken(jwt, claims, now),
                                      GenerateRefreshToken(jwt, claims, now)));
    }

    method VerifyEmail(token: string, salt: Bcrypt.Salt, now: int) returns (r: Result<string, ServiceError>)
      requires Valid()
      modifies users
      ensures Valid()
      ensures var o := AuthSpec.VerifyEmail(old(users.rows), token, salt, now);
        r == o.result && users.rows == o.db
    {
      AuthSpec.VerifyEmailPreservesValid(users.rows, token, salt, now);
      var user := users.FindOneByVerificationToken(token);
      if user == null {
        return Failure(Unauthorized(AuthSpec.InvalidVerificationToken));
      }
      user.emailVerified := true;
      user.emailVerificationToken := None;
      users.Save(user, salt, now);
      r := Success(AuthSpec.EmailVerifiedMessage);
    }

    /** `forgotPassword`; `resetToken` is the fresh uuid drawn for the link. */
    method ForgotPassword(email: string, resetToken: string, salt: Bcrypt.Salt, now: int)
      returns (r: Result<string, ServiceError>)
      requires Valid()
      requires forall k :: k in users.rows ==> users.rows[k].passwordResetToken != Some(resetToken)
      modifies users, mailer
      ensures Valid()
      ensures var o := AuthSpec.ForgotPassword(old(users.rows), email, resetToken, salt, now,
                                               mailer.transport);
        r == o.result && users.rows == o.db && mailer.outbox == old(mailer.outbox) + o.sent
    {
      AuthSpec.ForgotPasswordPreservesValid(users.rows, email, resetToken, salt, now, mailer.transport);
      var user := users.FindOneByEmail(email);
      if user == null {
        return Success(AuthSpec.ResetLinkSent);
      }
      var resetExpires := now + AuthSpec.ResetTtlMs;
      ghost var before := user.Record();
      user.passwordResetToken := Some(resetToken);
      user.passwordResetExpires := Some(resetExpires);
      assert user.Record() == before.(passwordResetToken := Some(resetToken),
                                      passwordResetExpires := Some(resetExpires));
      users.Save(user, salt, now);
      var sent := mailer.Send(PasswordReset(email, resetToken));
      if sent.Failure? {
        return Failure(Internal(sent.error));
      }
      r := Success(AuthSpec.ResetLinkSent);
    }

    method ResetPassword(token: string, newPassword: string, salt: Bcrypt.Salt, now: int)
      returns (r: Result<string, ServiceError>)
      requires Valid()
      modifies users
      ensures Valid()
      ensures var o := AuthSpec.ResetPassword(old(users.rows), token, newPassword, salt, now);
        r == o.result && users.rows == o.db
    {
      AuthSpec.ResetPasswordPreservesValid(users.rows, token, newPassword, salt, now);
      var user := users.FindOneByResetToken(token);
      if user == null || AuthSpec.ExpiredAt(user.passwordResetExpires, now) {
        return Failure(Unauthorized(AuthSpec.InvalidResetToken));
      }
      ghost var before := user.Record();
      user.password := newPassword;
      user.passwordResetToken := None;
      user.passwordResetExpires := None;
      assert user.Record() == before.(password := newPassword, passwordResetToken := None,
                                      passwordResetExpires := None);
      users.Save(user, salt, now);
      r := Success(AuthSpec.PasswordResetDone);
    }

    method GetProfile(userId: string) returns (r: Result<UserView, ServiceError>)
      ensures r == AuthSpec.GetProfile(users.rows, userId)
      ensures r.Success? ==> Password !in r.value.Json()
    {
      var user := users.FindOneById(userId);
      if user == null {
        return Failure(Unauthorized(AuthSpec.UserNotFound));
      }
      r := Success(AuthSpec.WithoutPassword(user.Record()));
    }

    method UpdateProfile(userId: string, dto: UpdateUserDto, salt: Bcrypt.Salt, now: int)
      returns (r: Result<UserView, ServiceError>)
      requires Valid()
      modifies users
      ensures Valid()
      ensures var o := AuthSpec.UpdateProfile(old(users.rows), userId, dto, salt, now);
        r == o.result && users.rows == o.db
    {
      AuthSpec.UpdateProfilePreservesValid(users.rows, userId, dto, salt, now);
      var user := users.FindOneById(userId);
      if user == null {
        return Failure(Unauthorized(AuthSpec.UserNotFound));
      }
      user.Assign(dto);
      users.Save(user, salt, now);
      r := Success(AuthSpec.WithoutPassword(user.Record()));
    }

    method ValidateUser(id: string) returns (r: Option<UserView>)
      ensures r == AuthSpec.ValidateUser(users.rows, id)
      ensures r.Some? <==> id in users.rows && users.rows[id].status == ACTIVE
    {
      var user := users.FindOneById(id);
      if user == null || user.status != ACTIVE {
        return None;
      }
      r := Some(AuthSpec.WithoutPassword(user.Record()));
    }

    method ValidateUserByCredentials(email: string, password: string) returns (r: Option<UserView>)
      requires Valid()
      ensures r == AuthSpec.ValidateUserByCredentials(users.rows, email, password)
    {
      var user := users.FindOneByEmail(email);
      if user == null {
        return None;
      }
      if !Bcrypt.Verify(password, user.password) {
        return None;
      }
      if user.status != ACTIVE {
        return None;
      }
      r := Some(AuthSpec.WithoutPassword(user.Record()));
    }
  }
}
