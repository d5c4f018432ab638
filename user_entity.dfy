/** The `users` entity: its columns, defaults, the pre-save password hook, `fullName` and
    `toJSON`. A stored row is a value (UserRecord); the entity object that the repository
    hands out and that the services mutate before saving is the class User. */
module UserEntity {
  import opened Wrappers
  import opened Strings
  import Bcrypt

  datatype UserRole = USER | ADMIN

  /** Only ACTIVE is referred to by the modelled code; the other members stand for the rest
      of the enumeration, whose declaration is not part of this model. */
  datatype Status = ACTIVE | INACTIVE | SUSPENDED

  /** One row of the `users` table. Nullable columns are options; dates are milliseconds. */
  datatype UserRecord = UserRecord(
    id: string,
    email: string,
    password: string,
    firstName: string,
    lastName: string,
    phoneNumber: Option<string>,
    avatar: Option<string>,
    role: UserRole,
    status: Status,
    emailVerified: bool,
    emailVerificationToken: Option<string>,
    passwordResetToken: Option<string>,
    passwordResetExpires: Option<int>,
    lastLoginAt: Option<int>,
    createdAt: int,
    updatedAt: int)

  /** The value of one property of a user object as a caller receives it. */
  datatype Value = Text(text: string) | Flag(flag: bool) | Timestamp(ms: int)
                 | RoleValue(role: UserRole) | StatusValue(status: Status) | Null

  function TextOrNull(o: Option<string>): Value {
    if o.Some? then Text(o.value) else Null
  }

  function TimestampOrNull(o: Option<int>): Value {
    if o.Some? then Timestamp(o.value) else Null
  }

  /** The property names of a user object, one per column; AccountStatus is `status`. */
  datatype Property =
    | Id | Email | Password | FirstName | LastName | PhoneNumber | Avatar | Role | AccountStatus
    | EmailVerified | EmailVerificationToken | PasswordResetToken | PasswordResetExpires
    | LastLoginAt | CreatedAt | UpdatedAt

  const FieldNames: set<Property> := {
    Id, Email, Password, FirstName, LastName, PhoneNumber, Avatar, Role, AccountStatus,
    EmailVerified, EmailVerificationToken, PasswordResetToken, PasswordResetExpires,
    LastLoginAt, CreatedAt, UpdatedAt}

  /** Every property is a column of the table. */
  lemma EveryPropertyListed()
    ensures forall p: Property :: p in FieldNames
  {
    forall p: Property ensures p in FieldNames {
      match p
        case Id =>
        case Email =>
        case Password =>
        case FirstName =>
        case LastName =>
        case PhoneNumber =>
        case Avatar =>
        case Role =>
        case AccountStatus =>
        case EmailVerified =>
        case EmailVerificationToken =>
        case PasswordResetToken =>
        case PasswordResetExpires =>
        case LastLoginAt =>
        case CreatedAt =>
        case UpdatedAt =>
    }
  }

  /** The properties `toJSON` and the profile service delete before a user leaves the server. */
  const SecretFields: set<Property> := {Password, EmailVerificationToken, PasswordResetToken}

  /** The value a row gives one property. */
  function PropertyValue(u: UserRecord, p: Property): Value {
    match p
    case Id => Text(u.id)
    case Email => Text(u.email)
    case Password => Text(u.password)
    case FirstName => Text(u.firstName)
    case LastName => Text(u.lastName)
    case PhoneNumber => TextOrNull(u.phoneNumber)
    case Avatar => TextOrNull(u.avatar)
    case Role => RoleValue(u.role)
    case AccountStatus => StatusValue(u.status)
    case EmailVerified => Flag(u.emailVerified)
    case EmailVerificationToken => TextOrNull(u.emailVerificationToken)
    case PasswordResetToken => TextOrNull(u.passwordResetToken)
    case PasswordResetExpires => TimestampOrNull(u.passwordResetExpires)
    case LastLoginAt => TimestampOrNull(u.lastLoginAt)
    case CreatedAt => Timestamp(u.createdAt)
    case UpdatedAt => Timestamp(u.updatedAt)
  }

  /** The user as an object with one property per column. */
  function Fields(u: UserRecord): (m: map<Property, Value>)
    ensures forall p :: p in m
    ensures m[Password] == Text(u.password) && m[Email] == Text(u.email) && m[Id] == Text(u.id)
    ensures m[EmailVerificationToken] == TextOrNull(u.emailVerificationToken)
    ensures m[PasswordResetToken] == TextOrNull(u.passwordResetToken)
    ensures m[PasswordResetExpires] == TimestampOrNull(u.passwordResetExpires)
    ensures m[LastLoginAt] == TimestampOrNull(u.lastLoginAt)
  {
    EveryPropertyListed();
    map p | p in FieldNames :: PropertyValue(u, p)
  }

  /** Object rest destructuring `{ a, b, ...result } = obj`: a copy without the named keys. */
  function Omit(fields: map<Property, Value>, omitted: set<Property>): (m: map<Property, Value>)
    ensures forall k :: k in m <==> k in fields && k !in omitted
    ensures forall k :: k in m ==> m[k] == fields[k]
  {
    fields - omitted
  }

  /** A user as it leaves the server: the object with the named properties deleted. */
  datatype UserView = UserView(user: UserRecord, omitted: set<Property>) {
    function Json(): (m: map<Property, Value>)
      ensures forall k :: k in m <==> k !in omitted
      ensures forall k :: k in m ==> m[k] == Fields(user)[k]
    {
      Omit(Fields(user), omitted)
    }
  }

  /** Distinct users give distinct objects: a view keeps enough to tell rows apart. */
  lemma FieldsInjective(u: UserRecord, v: UserRecord)
    requires Fields(u) == Fields(v)
    ensures u == v
  {
    SameValue(u, v, Id); SameValue(u, v, Email); SameValue(u, v, Password); SameValue(u, v, FirstName);
    SameValue(u, v, LastName); SameValue(u, v, PhoneNumber); SameValue(u, v, Avatar); SameValue(u, v, Role);
    SameValue(u, v, AccountStatus); SameValue(u, v, EmailVerified); SameValue(u, v, EmailVerificationToken); SameValue(u, v, PasswordResetToken);
    SameValue(u, v, PasswordResetExpires); SameValue(u, v, LastLoginAt); SameValue(u, v, CreatedAt); SameValue(u, v, UpdatedAt);
  }

  lemma SameValue(u: UserRecord, v: UserRecord, p: Property)
    requires Fields(u) == Fields(v)
    ensures PropertyValue(u, p) == PropertyValue(v, p)
  {
    assert p in FieldNames;
    assert Fields(u)[p] == Fields(v)[p];
  }

  /** The @BeforeInsert/@BeforeUpdate hook: hash with cost 12 when the password is non-empty
      and shorter, in UTF-16 code units, than a bcrypt hash; otherwise keep it as it is. */
  function HashHook(password: string, salt: Bcrypt.Salt): (r: string)
    ensures password != "" && Utf16Length(password) < Bcrypt.HashLength ==>
              Utf16Length(r) == Bcrypt.HashLength && Bcrypt.Verify(password, r)
    ensures password == "" || Utf16Length(password) >= Bcrypt.HashLength ==> r == password
  {
    if password != "" && Utf16Length(password) < Bcrypt.HashLength then Bcrypt.Hash(password, 12, salt)
    else password
  }

  /** A second run of the hook on its own output changes nothing. */
  lemma HashHookIdempotent(password: string, salt: Bcrypt.Salt, salt': Bcrypt.Salt)
    ensures HashHook(HashHook(password, salt), salt') == HashHook(password, salt)
  {
  }

  /** A plaintext of 60 code units or more is stored as it is. bcrypt then refuses every
      password when it is longer than a hash, and verifies none when it does not start with
      a bcrypt version marker "$2". */
  lemma LongPlaintextStoredUnhashed(password: string, salt: Bcrypt.Salt, attempt: string)
    requires Utf16Length(password) >= Bcrypt.HashLength
    ensures HashHook(password, salt) == password
    ensures Utf16Length(password) > Bcrypt.HashLength ==> !Bcrypt.Verify(attempt, HashHook(password, salt))
    ensures !StartsWith(password, "$2") ==> !Bcrypt.Verify(attempt, HashHook(password, salt))
  {
  }

  /** The optional properties of an update request; an absent property is None. */
  datatype UpdateUserDto = UpdateUserDto(firstName: Option<string>, lastName: Option<string>,
                                         phoneNumber: Option<string>, avatar: Option<string>)

  /** `Object.assign(user, dto)` on a row: each property present in the request replaces the
      stored value, each absent one keeps it, and no other column moves. */
  function ApplyUpdate(r: UserRecord, dto: UpdateUserDto): (u: UserRecord)
    ensures u.firstName == dto.firstName.GetOr(r.firstName)
    ensures u.lastName == dto.lastName.GetOr(r.lastName)
    ensures u.phoneNumber == (if dto.phoneNumber.Some? then dto.phoneNumber else r.phoneNumber)
    ensures u.avatar == (if dto.avatar.Some? then dto.avatar else r.avatar)
    ensures u.(firstName := r.firstName, lastName := r.lastName,
               phoneNumber := r.phoneNumber, avatar := r.avatar) == r
  {
    r.(firstName := dto.firstName.GetOr(r.firstName),
       lastName := dto.lastName.GetOr(r.lastName),
       phoneNumber := if dto.phoneNumber.Some? then dto.phoneNumber else r.phoneNumber,
       avatar := if dto.avatar.Some? then dto.avatar else r.avatar)
  }

  /** An empty request leaves the row as it is, and applying a request twice is applying it once. */
  lemma ApplyUpdateEmptyAndIdempotent(r: UserRecord, dto: UpdateUserDto)
    ensures ApplyUpdate(r, UpdateUserDto(None, None, None, None)) == r
    ensures ApplyUpdate(ApplyUpdate(r, dto), dto) == ApplyUpdate(r, dto)
  {
  }

  /** The entity object. */
  class User {
    var id: string
    var email: string
    var password: string
    var firstName: string
    var lastName: string
    var phoneNumber: Option<string>
    var avatar: Option<string>
    var role: UserRole
    var status: Status
    var emailVerified: bool
    var emailVerificationToken: Option<string>
    var passwordResetToken: Option<string>
    var passwordResetExpires: Option<int>
    var lastLoginAt: Option<int>
    var createdAt: int
    var updatedAt: int

    /** The row this object would be saved as. */
    function Record(): UserRecord
      reads this
    {
      UserRecord(id, email, password, firstName, lastName, phoneNumber, avatar, role, status,
                 emailVerified, emailVerificationToken, passwordResetToken,
                 passwordResetExpires, lastLoginAt, createdAt, updatedAt)
    }

    /** The object a repository lookup materialises from a row. */
    constructor Load(r: UserRecord)
      ensures Record() == r
    {
      id, email, password := r.id, r.email, r.password;
      firstName, lastName := r.firstName, r.lastName;
      phoneNumber, avatar := r.phoneNumber, r.avatar;
      role, status, emailVerified := r.role, r.status, r.emailVerified;
      emailVerificationToken := r.emailVerificationToken;
      passwordResetToken, passwordResetExpires := r.passwordResetToken, r.passwordResetExpires;
      lastLoginAt, createdAt, updatedAt := r.lastLoginAt, r.createdAt, r.updatedAt;
    }

    /** repository.create(...) for a new user: the given columns plus the column defaults
        role USER, status ACTIVE and emailVerified false. `id` is the uuid the database
        assigns; `now` is the creation time. */
    constructor Create(id: string, email: string, password: string, firstName: string,
                       lastName: string, phoneNumber: Option<string>,
                       emailVerificationToken: Option<string>, now: int)
      ensures Record() == UserRecord(id, email, password, firstName, lastName, phoneNumber,
                                     None, USER, ACTIVE, false, emailVerificationToken,
                                     None, None, None, now, now)
    {
      this.id, this.email, this.password := id, email, password;
      this.firstName, this.lastName, this.phoneNumber := firstName, lastName, phoneNumber;
      this.avatar := None;
      this.role, this.status, this.emailVerified := USER, ACTIVE, false;
      this.emailVerificationToken := emailVerificationToken;
      this.passwordResetToken, this.passwordResetExpires := None, None;
      this.lastLoginAt, this.createdAt, this.updatedAt := None, now, now;
    }

    /** The hook, run on the object in place before every insert and update. */
    method HashPassword(salt: Bcrypt.Salt)
      modifies this`password
      ensures password == HashHook(old(password), salt)
      ensures Record() == old(Record()).(password := HashHook(old(password), salt))
    {
      if password != "" && Utf16Length(password) < Bcrypt.HashLength {
        password := Bcrypt.Hash(password, 12, salt);
      }
    }

    /** `Object.assign(this, dto)`. */
    method Assign(dto: UpdateUserDto)
      modifies this`firstName, this`lastName, this`phoneNumber, this`avatar
      ensures Record() == ApplyUpdate(old(Record()), dto)
    {
      if dto.firstName.Some? { firstName := dto.firstName.value; }
      if dto.lastName.Some? { lastName := dto.lastName.value; }
      if dto.phoneNumber.Some? { phoneNumber := dto.phoneNumber; }
      if dto.avatar.Some? { avatar := dto.avatar; }
    }

    /** The `fullName` getter: first name, one space, last name. */
    function FullName(): (r: string)
      reads this
      ensures |r| == |firstName| + 1 + |lastName|
      ensures r[..|firstName|] == firstName && r[|firstName|] == ' '
      ensures r[|firstName| + 1..] == lastName
    {
      firstName + " " + lastName
    }

    /** `toJSON`: a copy of the object without the three secret properties; every other
        property, `passwordResetExpires` included, is kept with its value. */
    function ToJSON(): (m: map<Property, Value>)
      reads this
      ensures forall k :: k in m <==> k !in SecretFields
      ensures PasswordResetExpires in m && LastLoginAt in m && Email in m
      ensures forall k :: k in m ==> m[k] == Fields(Record())[k]
    {
      Omit(Fields(Record()), SecretFields)
    }
  }
}
