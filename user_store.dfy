/** The `users` table behind the TypeORM repository, the lookups the services make on it,
    `save` (which writes nothing for an unchanged entity, and otherwise runs its hook and
    stamps `updatedAt`) and `remove`; and the mail
    transport the authentication service writes to. */
module UserStore {
  import opened Wrappers
  import opened UserEntity
  import opened Strings
  import Bcrypt

  /** The table: rows by primary key. */
  type Db = map<string, UserRecord>

  /** What a service call fails with: the HTTP exception it throws, or the plain error that
      escapes from a failed mail delivery. */
  datatype ServiceError = Conflict(message: string) | Unauthorized(message: string)
                        | NotFound(message: string) | Internal(message: string)

  /** A password as the hook leaves it: empty, or at least as long as a bcrypt hash in
      UTF-16 code units. */
  predicate StoredPassword(p: string) {
    p == "" || Utf16Length(p) >= Bcrypt.HashLength
  }

  predicate KeysAreIds(db: Db) {
    forall id :: id in db ==> db[id].id == id
  }

  /** The unique index on `email`. */
  predicate EmailsUnique(db: Db) {
    forall a, b :: a in db && b in db && db[a].email == db[b].email ==> a == b
  }

  /** Verification and reset tokens are fresh uuids, so no two rows hold the same one. */
  predicate VerificationTokensUnique(db: Db) {
    forall a, b ::
      (a in db && b in db && db[a].emailVerificationToken.Some? &&
       db[a].emailVerificationToken == db[b].emailVerificationToken) ==> a == b
  }

  predicate ResetTokensUnique(db: Db) {
    forall a, b ::
      (a in db && b in db && db[a].passwordResetToken.Some? &&
       db[a].passwordResetToken == db[b].passwordResetToken) ==> a == b
  }

  /** A reset token and its expiry are set and cleared together. */
  predicate ResetPairsConsistent(db: Db) {
    forall id :: id in db ==> (db[id].passwordResetToken.Some? <==> db[id].passwordResetExpires.Some?)
  }

  predicate PasswordsStored(db: Db) {
    forall id :: id in db ==> StoredPassword(db[id].password)
  }

  /** What every service operation keeps true of the table. */
  predicate DbValid(db: Db) {
    KeysAreIds(db) && EmailsUnique(db) && VerificationTokensUnique(db) &&
    ResetTokensUnique(db) && ResetPairsConsistent(db) && PasswordsStored(db)
  }

  /** `findOne({ where: { email } })`. */
  ghost function FindIdByEmail(db: Db, email: string): (r: Option<string>)
    ensures r.Some? ==> r.value in db && db[r.value].email == email
    ensures r.None? ==> forall id :: id in db ==> db[id].email != email
  {
    if exists id :: id in db && db[id].email == email then
      var id :| id in db && db[id].email == email; Some(id)
    else None
  }

  /** `findOne({ where: { emailVerificationToken: token } })`. */
  ghost function FindIdByVerificationToken(db: Db, token: string): (r: Option<string>)
    ensures r.Some? ==> r.value in db && db[r.value].emailVerificationToken == Some(token)
    ensures r.None? ==> forall id :: id in db ==> db[id].emailVerificationToken != Some(token)
  {
    if exists id :: id in db && db[id].emailVerificationToken == Some(token) then
      var id :| id in db && db[id].emailVerificationToken == Some(token); Some(id)
    else None
  }

  /** `findOne({ where: { passwordResetToken: token } })`. */
  ghost function FindIdByResetToken(db: Db, token: string): (r: Option<string>)
    ensures r.Some? ==> r.value in db && db[r.value].passwordResetToken == Some(token)
    ensures r.None? ==> forall id :: id in db ==> db[id].passwordResetToken != Some(token)
  {
    if exists id :: id in db && db[id].passwordResetToken == Some(token) then
      var id :| id in db && db[id].passwordResetToken == Some(token); Some(id)
    else None
  }

  /** With the unique index, the lookup by email finds the one row that has it. */
  lemma FindIdByEmailIs(db: Db, email: string, id: string)
    requires EmailsUnique(db) && id in db && db[id].email == email
    ensures FindIdByEmail(db, email) == Some(id)
  {
  }

  lemma FindIdByVerificationTokenIs(db: Db, token: string, id: string)
    requires VerificationTokensUnique(db) && id in db && db[id].emailVerificationToken == Some(token)
    ensures FindIdByVerificationToken(db, token) == Some(id)
  {
  }

  lemma FindIdByResetTokenIs(db: Db, token: string, id: string)
    requires ResetTokensUnique(db) && id in db && db[id].passwordResetToken == Some(token)
    ensures FindIdByResetToken(db, token) == Some(id)
  {
  }

  /** The row `save` writes for an entity: the hook has run on the password and `updatedAt`
      is the time of the save; nothing else differs from the entity. */
  function Saved(r: UserRecord, salt: Bcrypt.Salt, now: int): (s: UserRecord)
    ensures StoredPassword(s.password)
    ensures s.updatedAt == now
    ensures s.(password := r.password, updatedAt := r.updatedAt) == r
    ensures StoredPassword(r.password) ==> s.password == r.password
  {
    r.(password := HashHook(r.password, salt), updatedAt := now)
  }

  /** TypeORM's `save` first compares the entity with its stored row. When no column differs
      it issues no UPDATE, runs no `@BeforeUpdate` hook and leaves the `@UpdateDateColumn` as
      stored. */
  predicate SavesNothing(db: Db, r: UserRecord) {
    r.id in db && db[r.id] == r
  }

  /** `save` of an entity: nothing when the stored row already equals it; otherwise insert or
      overwrite the row with its key, hooked and stamped. */
  function SaveRow(db: Db, r: UserRecord, salt: Bcrypt.Salt, now: int): (db': Db)
    ensures db'.Keys == db.Keys + {r.id}
    ensures SavesNothing(db, r) ==> db' == db
    ensures !SavesNothing(db, r) ==> db'[r.id] == Saved(r, salt, now)
    ensures forall id :: id in db && id != r.id ==> db'[id] == db[id]
  {
    if SavesNothing(db, r) then db else db[r.id := Saved(r, salt, now)]
  }

  /** Saving a row changed only in columns the unique constraints do not cover, or given a
      reset token no row holds, keeps the table valid: the case of every update the services
      make to a loaded user. */
  lemma {:induction false} SavePreservesValid(db: Db, r: UserRecord, salt: Bcrypt.Salt, now: int)
    requires DbValid(db) && r.id in db
    requires r.id == db[r.id].id && r.email == db[r.id].email
    requires r.emailVerificationToken == db[r.id].emailVerificationToken || r.emailVerificationToken.None?
    requires || r.passwordResetToken == db[r.id].passwordResetToken || r.passwordResetToken.None?
             || forall k :: k in db ==> db[k].passwordResetToken != r.passwordResetToken
    requires r.passwordResetToken.Some? <==> r.passwordResetExpires.Some?
    ensures DbValid(SaveRow(db, r, salt, now))
  {
    var db' := SaveRow(db, r, salt, now);
    assert KeysAreIds(db');
    SaveKeepsEmailsUnique(db, r, salt, now);
    SaveKeepsVerificationTokensUnique(db, r, salt, now);
    SaveKeepsResetTokensUnique(db, r, salt, now);
  }

  lemma SaveKeepsEmailsUnique(db: Db, r: UserRecord, salt: Bcrypt.Salt, now: int)
    requires EmailsUnique(db) && r.id in db && r.email == db[r.id].email
    ensures EmailsUnique(SaveRow(db, r, salt, now))
  {
    var db' := SaveRow(db, r, salt, now);
    forall a, b | a in db' && b in db' && db'[a].email == db'[b].email ensures a == b {
      assert db'[a].email == db[a].email && db'[b].email == db[b].email;
    }
  }

  lemma SaveKeepsVerificationTokensUnique(db: Db, r: UserRecord, salt: Bcrypt.Salt, now: int)
    requires VerificationTokensUnique(db) && r.id in db
    requires r.emailVerificationToken == db[r.id].emailVerificationToken || r.emailVerificationToken.None?
    ensures VerificationTokensUnique(SaveRow(db, r, salt, now))
  {
    var db' := SaveRow(db, r, salt, now);
    forall a, b | a in db' && b in db' && db'[a].emailVerificationToken.Some? &&
      db'[a].emailVerificationToken == db'[b].emailVerificationToken ensures a == b
    {
      assert db'[a].emailVerificationToken == db[a].emailVerificationToken;
      assert db'[b].emailVerificationToken == db[b].emailVerificationToken;
    }
  }

  lemma SaveKeepsResetTokensUnique(db: Db, r: UserRecord, salt: Bcrypt.Salt, now: int)
    requires ResetTokensUnique(db) && r.id in db
    requires || r.passwordResetToken == db[r.id].passwordResetToken || r.passwordResetToken.None?
             || forall k :: k in db ==> db[k].passwordResetToken != r.passwordResetToken
    ensures ResetTokensUnique(SaveRow(db, r, salt, now))
  {
    var db' := SaveRow(db, r, salt, now);
    forall a, b | a in db' && b in db' && db'[a].passwordResetToken.Some? &&
      db'[a].passwordResetToken == db'[b].passwordResetToken ensures a == b
    {
      if a != r.id && b != r.id {
        assert db'[a] == db[a] && db'[b] == db[b];
      } else if r.passwordResetToken == db[r.id].passwordResetToken {
        assert db'[a].passwordResetToken == db[a].passwordResetToken;
        assert db'[b].passwordResetToken == db[b].passwordResetToken;
      }
    }
  }

  /** Inserting a row under a new key, with an email and a verification token no row holds
      and no reset token, keeps the table valid: the case of registration. */
  lemma InsertPreservesValid(db: Db, r: UserRecord, salt: Bcrypt.Salt, now: int)
    requires DbValid(db) && r.id !in db
    requires forall k :: k in db ==> db[k].email != r.email
    requires forall k :: k in db ==> db[k].emailVerificationToken != r.emailVerificationToken
    requires r.passwordResetToken.None? && r.passwordResetExpires.None?
    ensures DbValid(SaveRow(db, r, salt, now))
  {
    InsertKeepsEmailsUnique(db, r, salt, now);
    InsertKeepsVerificationTokensUnique(db, r, salt, now);
    InsertKeepsResetTokensUnique(db, r, salt, now);
  }

  lemma InsertKeepsEmailsUnique(db: Db, r: UserRecord, salt: Bcrypt.Salt, now: int)
    requires EmailsUnique(db) && r.id !in db
    requires forall k :: k in db ==> db[k].email != r.email
    ensures EmailsUnique(SaveRow(db, r, salt, now))
  {
    var db' := SaveRow(db, r, salt, now);
    forall a, b | a in db' && b in db' && db'[a].email == db'[b].email ensures a == b {
      assert a != r.id ==> db'[a] == db[a];
      assert b != r.id ==> db'[b] == db[b];
    }
  }

  lemma InsertKeepsVerificationTokensUnique(db: Db, r: UserRecord, salt: Bcrypt.Salt, now: int)
    requires VerificationTokensUnique(db) && r.id !in db
    requires forall k :: k in db ==> db[k].emailVerificationToken != r.emailVerificationToken
    ensures VerificationTokensUnique(SaveRow(db, r, salt, now))
  {
    var db' := SaveRow(db, r, salt, now);
    forall a, b | a in db' && b in db' && db'[a].emailVerificationToken.Some? &&
      db'[a].emailVerificationToken == db'[b].emailVerificationToken ensures a == b
    {
      assert a != r.id ==> db'[a] == db[a];
      assert b != r.id ==> db'[b] == db[b];
    }
  }

  lemma InsertKeepsResetTokensUnique(db: Db, r: UserRecord, salt: Bcrypt.Salt, now: int)
    requires ResetTokensUnique(db) && r.id !in db && r.passwordResetToken.None?
    ensures ResetTokensUnique(SaveRow(db, r, salt, now))
  {
    var db' := SaveRow(db, r, salt, now);
    forall a, b | a in db' && b in db' && db'[a].passwordResetToken.Some? &&
      db'[a].passwordResetToken == db'[b].passwordResetToken ensures a == b
    {
      assert a != r.id && b != r.id;
      assert db'[a] == db[a] && db'[b] == db[b];
    }
  }

  /** A reset token that no row holds and the saved row does not carry is still held by no
      row after the save. */
  lemma SaveKeepsResetTokenUnheld(db: Db, r: UserRecord, salt: Bcrypt.Salt, now: int, token: string)
    requires forall k :: k in db ==> db[k].passwordResetToken != Some(token)
    requires r.passwordResetToken != Some(token)
    ensures var db' := SaveRow(db, r, salt, now);
      forall k :: k in db' ==> db'[k].passwordResetToken != Some(token)
  {
    var db' := SaveRow(db, r, salt, now);
    assert db'[r.id].passwordResetToken == r.passwordResetToken;
  }

  /** The TypeORM repository: the table, lookups that materialise a fresh entity object from
      the matching row, `save` and `remove`. */
  class UserRepository {
    var rows: Db

    constructor ()
      ensures rows == map[]
    {
      rows := map[];
    }

    method FindOneById(id: string) returns (user: User?)
      ensures user == null <==> id !in rows
      ensures user != null ==> fresh(user) && user.Record() == rows[id]
    {
      if id in rows {
        user := new User.Load(rows[id]);
      } else {
        user := null;
      }
    }

    method FindOneByEmail(email: string) returns (user: User?)
      requires EmailsUnique(rows)
      ensures user == null <==> FindIdByEmail(rows, email).None?
      ensures user != null ==> fresh(user) && user.Record() == rows[FindIdByEmail(rows, email).value]
    {
      if exists id :: id in rows && rows[id].email == email {
        var id :| id in rows && rows[id].email == email;
        FindIdByEmailIs(rows, email, id);
        user := new User.Load(rows[id]);
      } else {
        user := null;
      }
    }

    method FindOneByVerificationToken(token: string) returns (user: User?)
      requires VerificationTokensUnique(rows)
      ensures user == null <==> FindIdByVerificationToken(rows, token).None?
      ensures user != null ==>
        fresh(user) && user.Record() == rows[FindIdByVerificationToken(rows, token).value]
    {
      if exists id :: id in rows && rows[id].emailVerificationToken == Some(token) {
        var id :| id in rows && rows[id].emailVerificationToken == Some(token);
        FindIdByVerificationTokenIs(rows, token, id);
        user := new User.Load(rows[id]);
      } else {
        user := null;
      }
    }

    method FindOneByResetToken(token: string) returns (user: User?)
      requires ResetTokensUnique(rows)
      ensures user == null <==> FindIdByResetToken(rows, token).None?
      ensures user != null ==>
        fresh(user) && user.Record() == rows[FindIdByResetToken(rows, token).value]
    {
      if exists id :: id in rows && rows[id].passwordResetToken == Some(token) {
        var id :| id in rows && rows[id].passwordResetToken == Some(token);
        FindIdByResetTokenIs(rows, token, id);
        user := new User.Load(rows[id]);
      } else {
        user := null;
      }
    }

    /** `save(user)`: when some column differs from the stored row, runs the hook on the
        entity, stamps it, and writes it to the table; the entity then holds its row. */
    method Save(user: User, salt: Bcrypt.Salt, now: int)
      modifies this, user
      ensures rows == SaveRow(old(rows), old(user.Record()), salt, now)
      ensures user.id == old(user.id) && user.id in rows && user.Record() == rows[user.id]
    {
      if user.id in rows && rows[user.id] == user.Record() {
        return;
      }
      user.HashPassword(salt);
      user.updatedAt := now;
      rows := rows[user.id := user.Record()];
    }

    /** `remove(user)`: deletes the row with the entity's key. */
    method Remove(user: User)
      modifies this
      ensures rows == old(rows) - {user.id}
    {
      rows := rows - {user.id};
    }
  }

  /** The mails the authentication service sends. */
  datatype Mail = Welcome(to: string, firstName: string)
                | EmailVerification(to: string, token: string)
                | PasswordReset(to: string, token: string)

  /** Why a mail was not delivered: its template did not render, or the SMTP transport
      refused it (the server rejects the recipient, the connection fails). */
  datatype MailFailure = RenderFailed(message: string) | SendFailed(message: string)

  const TemplatePrefix := "Failed to send template email: "
  const SendPrefix := "Failed to send email: "

  /** The error a failed mail surfaces as. A render failure is wrapped once, by the template
      sender; a transport failure is wrapped first by the plain sender and then by the
      template sender. */
  function MailError(failure: MailFailure): (m: string)
    ensures |m| >= |TemplatePrefix| + |failure.message|
    ensures m[|m| - |failure.message|..] == failure.message
    ensures m[..|TemplatePrefix|] == TemplatePrefix
    ensures failure.SendFailed? <==> m[|TemplatePrefix|..] == SendPrefix + failure.message
  {
    match failure
    case RenderFailed(message) =>
      var m := TemplatePrefix + message;
      assert m[|TemplatePrefix|..] == message;
      assert |message| < |SendPrefix + message|;
      m
    case SendFailed(message) => TemplatePrefix + (SendPrefix + message)
  }

  /** What the mail service answers for each mail: None when it is delivered, or why not. */
  type Transport = Mail -> Option<MailFailure>

  /** The mail service over its SMTP transport: every delivered mail is appended to `outbox`. */
  class Mailer {
    var outbox: seq<Mail>
    const transport: Transport

    constructor (transport: Transport)
      ensures outbox == [] && this.transport == transport
    {
      outbox := [];
      this.transport := transport;
    }

    method Send(mail: Mail) returns (r: Result<(), string>)
      modifies this`outbox
      ensures r.Success? <==> transport(mail).None?
      ensures r.Failure? ==> r.error == MailError(transport(mail).value)
      ensures outbox == old(outbox) + (if transport(mail).None? then [mail] else [])
    {
      var answer := transport(mail);
      if answer.None? {
        outbox := outbox + [mail];
        r := Success(());
      } else {
        r := Failure(MailError(answer.value));
      }
    }
  }
}
