/** The profile service: read, update and delete the caller's own user row. Unlike the
    authentication service it answers NotFound for a missing user and strips all three
    secret properties. */
module ProfileSpec {
  import opened Wrappers
  import opened UserEntity
  import opened UserStore
  import Bcrypt

  /** The table after a call and the call's answer. */
  datatype Change<T> = Change(db: Db, result: Result<T, ServiceError>)

  const UserNotFound := "User not found"
  const ProfileDeleted := "Profile deleted successfully"

  /** The user without password, verification token and reset token. */
  function WithoutSecrets(u: UserRecord): UserView {
    UserView(u, SecretFields)
  }

  function GetUserProfile(db: Db, userId: string): Result<UserView, ServiceError> {
    if userId !in db then Failure(NotFound(UserNotFound))
    else Success(WithoutSecrets(db[userId]))
  }

  function UpdateUserProfile(db: Db, userId: string, dto: UpdateUserDto, salt: Bcrypt.Salt,
                             now: int): Change<UserView>
  {
    if userId !in db then Change(db, Failure(NotFound(UserNotFound)))
    else
      var u := ApplyUpdate(db[userId], dto);
      var db' := SaveRow(db, u, salt, now);
      Change(db', Success(WithoutSecrets(db'[u.id])))
  }

  function DeleteUserProfile(db: Db, userId: string): Change<string> {
    if userId !in db then Change(db, Failure(NotFound(UserNotFound)))
    else Change(db - {userId}, Success(ProfileDeleted))
  }

  /** A missing id is NotFound; otherwise the profile is the stored user with exactly the
      three secrets removed and every other property as stored. */
  lemma GetUserProfileOutcome(db: Db, userId: string)
    ensures GetUserProfile(db, userId).Failure? <==> userId !in db
    ensures GetUserProfile(db, userId).Failure? ==>
              GetUserProfile(db, userId).error == NotFound(UserNotFound)
    ensures userId in db ==>
              var profile := GetUserProfile(db, userId).value.Json();
              && (forall k :: k in profile <==> k !in SecretFields)
              && (forall k :: k in profile ==> profile[k] == Fields(db[userId])[k])
              && Password !in profile && EmailVerificationToken !in profile
              && PasswordResetToken !in profile && PasswordResetExpires in profile
  {
  }

  /** A missing id is NotFound and changes nothing. Otherwise the properties present in the
      request overwrite the stored ones, the absent ones keep their values, no other user is
      touched, and the answer is the saved user without the three secrets. A request that
      changes no column writes nothing, so the stored `updatedAt` is kept. */
  lemma {:induction false} UpdateUserProfileOutcome(db: Db, userId: string, dto: UpdateUserDto,
                                                    salt: Bcrypt.Salt, now: int)
    requires DbValid(db)
    ensures var c := UpdateUserProfile(db, userId, dto, salt, now);
      && (userId !in db ==> c == Change(db, Failure(NotFound(UserNotFound))))
      && (userId in db ==>
            && c.db == (if ApplyUpdate(db[userId], dto) == db[userId] then db
                        else db[userId := ApplyUpdate(db[userId], dto).(updatedAt := now)])
            && c.result == Success(WithoutSecrets(c.db[userId]))
            && (forall k :: k in c.result.value.Json() <==> k !in SecretFields))
  {
    if userId in db {
      assert StoredPassword(db[userId].password) && db[userId].id == userId;
    }
  }

  lemma {:induction false} UpdateUserProfilePreservesValid(db: Db, userId: string, dto: UpdateUserDto,
                                                           salt: Bcrypt.Salt, now: int)
    requires DbValid(db)
    ensures DbValid(UpdateUserProfile(db, userId, dto, salt, now).db)
  {
    if userId in db {
      SavePreservesValid(db, ApplyUpdate(db[userId], dto), salt, now);
    }
  }

  /** A missing id is NotFound and changes nothing; otherwise exactly that user is removed,
      the others are kept as they were, and reading the profile afterwards is NotFound. */
  lemma {:induction false} DeleteUserProfileOutcome(db: Db, userId: string)
    ensures var c := DeleteUserProfile(db, userId);
      && (userId !in db ==> c == Change(db, Failure(NotFound(UserNotFound))))
      && (userId in db ==>
            && c.result == Success(ProfileDeleted)
            && c.db.Keys == db.Keys - {userId} && |c.db| == |db| - 1
            && (forall k :: k in c.db ==> c.db[k] == db[k])
            && GetUserProfile(c.db, userId) == Failure(NotFound(UserNotFound)))
  {
    if userId in db {
      assert db.Keys == (db.Keys - {userId}) + {userId};
      assert |db.Keys| == |db.Keys - {userId}| + 1;
    }
  }

  lemma DeleteUserProfilePreservesValid(db: Db, userId: string)
    requires DbValid(db)
    ensures DbValid(DeleteUserProfile(db, userId).db)
  {
  }
}

module Profile {
  import opened Wrappers
  import opened UserEntity
  import opened UserStore
  import ProfileSpec
  import Bcrypt

  class ProfileService {
    const users: UserRepository

    ghost predicate Valid()
      reads this, users
    {
      DbValid(users.rows)
    }

    constructor (users: UserRepository)
      ensures this.users == users
    {
      this.users := users;
    }

    method GetUserProfile(userId: string) returns (r: Result<UserView, ServiceError>)
      ensures r == ProfileSpec.GetUserProfile(users.rows, userId)
      ensures r.Success? ==> forall k :: k in r.value.Json() <==> k !in SecretFields
    {
      var user := users.FindOneById(userId);
      if user == null {
        return Failure(NotFound(ProfileSpec.UserNotFound));
      }
      r := Success(ProfileSpec.WithoutSecrets(user.Record()));
    }

    method UpdateUserProfile(userId: string, dto: UpdateUserDto, salt: Bcrypt.Salt, now: int)
      returns (r: Result<UserView, ServiceError>)
      requires Valid()
      modifies users
      ensures Valid()
      ensures var c := ProfileSpec.UpdateUserProfile(old(users.rows), userId, dto, salt, now);
        r == c.result && users.rows == c.db
    {
      ProfileSpec.UpdateUserProfilePreservesValid(users.rows, userId, dto, salt, now);
      var user := users.FindOneById(userId);
      if user == null {
        return Failure(NotFound(ProfileSpec.UserNotFound));
      }
      user.Assign(dto);
      users.Save(user, salt, now);
      r := Success(ProfileSpec.WithoutSecrets(user.Record()));
    }

    method DeleteUserProfile(userId: string) returns (r: Result<string, ServiceError>)
      requires Valid()
      modifies users
      ensures Valid()
      ensures var c := ProfileSpec.DeleteUserProfile(old(users.rows), userId);
        r == c.result && users.rows == c.db
    {
      var user := users.FindOneById(userId);
      if user == null {
        return Failure(NotFound(ProfileSpec.UserNotFound));
      }
      users.Remove(user);
      r := Success(ProfileSpec.ProfileDeleted);
    }
  }
}
