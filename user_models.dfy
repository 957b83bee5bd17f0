/** users/models.py: the user record (email is the login identity; there is no
    username), password storage, and UserManager's two constructors. */
module UserModels {
  import opened Wrappers
  import opened NetworkSchema

  /** A stored password. Hashing is a foreign call: the model keeps the digest
      symbolically, as the digest of the raw text, and ignores collisions. */
  datatype PasswordHash = Unusable | Digest(of: string)

  /** `set_password`: no password gives an unusable one. */
  function SetPassword(raw: Option<string>): PasswordHash {
    match raw
    case Some(p) => Digest(p)
    case None => Unusable
  }

  /** `check_password`: the attempt hashes to the stored digest. */
  predicate CheckPassword(h: PasswordHash, attempt: string) {
    h == Digest(attempt)
  }

  /** A password set with `set_password` is accepted exactly for that text; an
      unusable password accepts nothing. */
  lemma CheckSetPassword(raw: Option<string>, attempt: string)
    ensures CheckPassword(SetPassword(raw), attempt) <==> raw == Some(attempt)
  {
  }

  const EmployeeGroup: string := "employee"

  /** One row of the user table. `pk` is the row's primary key; `phoneNumber` and
      `city` are nullable. */
  datatype User = User(
    pk: UserId,
    email: string,
    password: PasswordHash,
    isActive: bool,
    isStaff: bool,
    isSuperuser: bool,
    groups: set<string>,
    phoneNumber: Option<string>,
    city: Option<string>)

  /** The user table, keyed by primary key. */
  type Users = map<UserId, User>

  /** The `**extra_fields` a caller may pass to the manager. */
  datatype ExtraFields = ExtraFields(
    isStaff: Option<bool>,
    isSuperuser: Option<bool>,
    isActive: Option<bool>,
    phoneNumber: Option<string>,
    city: Option<string>)

  /** `create_superuser`'s two `setdefault` calls. */
  function SuperuserDefaults(extra: ExtraFields): (r: ExtraFields)
    // both flags end up set ...
    ensures r.isStaff.Some? && r.isSuperuser.Some?
    // ... to the caller's value when there is one, and to true otherwise
    ensures extra.isStaff.Some? ==> r.isStaff == extra.isStaff
    ensures extra.isSuperuser.Some? ==> r.isSuperuser == extra.isSuperuser
    ensures extra.isStaff.None? ==> r.isStaff == Some(true)
    ensures extra.isSuperuser.None? ==> r.isSuperuser == Some(true)
    // nothing else is touched
    ensures r.isActive == extra.isActive && r.phoneNumber == extra.phoneNumber && r.city == extra.city
  {
    extra.(isStaff := Some(extra.isStaff.GetOr(true)), isSuperuser := Some(extra.isSuperuser.GetOr(true)))
  }

  lemma SuperuserDefaultsIdempotent(extra: ExtraFields)
    ensures SuperuserDefaults(SuperuserDefaults(extra)) == SuperuserDefaults(extra)
  {
  }

  /** `self.model(email=email, **extra_fields)` followed by `set_password`: the model's
      defaults (active, not staff, not superuser, no groups) fill what the caller left out. */
  function BuildUser(pk: UserId, email: string, password: Option<string>, extra: ExtraFields): (u: User)
    ensures u.pk == pk && u.email == email && u.groups == {}
    // the password checks against exactly the given text, and against nothing without one
    ensures forall attempt :: CheckPassword(u.password, attempt) <==> password == Some(attempt)
    // a flag the caller left out takes the model's default
    ensures u.isActive == (if extra.isActive.Some? then extra.isActive.value else true)
    ensures u.isStaff == (if extra.isStaff.Some? then extra.isStaff.value else false)
    ensures u.isSuperuser == (if extra.isSuperuser.Some? then extra.isSuperuser.value else false)
    ensures u.phoneNumber == extra.phoneNumber && u.city == extra.city
  {
    User(pk, email, SetPassword(password), extra.isActive.GetOr(true), extra.isStaff.GetOr(false),
         extra.isSuperuser.GetOr(false), {}, extra.phoneNumber, extra.city)
  }

  /** Some user other than `except` already has this email. */
  predicate EmailTaken(users: Users, email: string, except: Option<UserId>) {
    exists k :: k in users && Some(k) != except && users[k].email == email
  }

  /** What the database enforces for the user table: keys are primary keys and emails are unique. */
  ghost predicate UsersIntegrity(users: Users) {
    && (forall k :: k in users ==> users[k].pk == k)
    && (forall a, b :: a in users && b in users && a != b ==> users[a].email != users[b].email)
  }

  /** Inserting a user under its own fresh key, with an email no one has, keeps the table's integrity. */
  lemma InsertKeepsUsersIntegrity(users: Users, u: User)
    requires UsersIntegrity(users) && u.pk !in users && !EmailTaken(users, u.email, None)
    ensures UsersIntegrity(users[u.pk := u])
  {
    var r := users[u.pk := u];
    forall a, b | a in r && b in r && a != b ensures r[a].email != r[b].email {
      if a == u.pk {
        assert b in users && users[b].email != u.email;
      } else if b == u.pk {
        assert a in users && users[a].email != u.email;
      }
    }
  }

  datatype CreateUserError = EmptyEmail | DuplicateEmail

  /** `create_user`: an empty email raises; otherwise the normalised email (normalisation
      is a foreign call, passed in) must not be taken, as the unique column demands on save. */
  function CreateUserResult(users: Users, pk: UserId, email: string, password: Option<string>,
                            extra: ExtraFields, normalize: string -> string): (r: Result<User, CreateUserError>)
    ensures r == Err(EmptyEmail) <==> email == ""
    ensures r == Err(DuplicateEmail) <==> email != "" && EmailTaken(users, normalize(email), None)
    ensures r.Ok? ==> r.value == BuildUser(pk, normalize(email), password, extra)
  {
    if email == "" then Err(EmptyEmail)
    else if EmailTaken(users, normalize(email), None) then Err(DuplicateEmail)
    else Ok(BuildUser(pk, normalize(email), password, extra))
  }

  /** A created user logs in with its email and the given password, carries the model's
      defaults, and adding it under a fresh key keeps emails unique. */
  lemma CreateUserSound(users: Users, pk: UserId, email: string, password: string,
                        extra: ExtraFields, normalize: string -> string)
    requires UsersIntegrity(users) && pk !in users
    requires CreateUserResult(users, pk, email, Some(password), extra, normalize).Ok?
    ensures var u := CreateUserResult(users, pk, email, Some(password), extra, normalize).value;
      && u.email == normalize(email)
      && (forall attempt :: CheckPassword(u.password, attempt) <==> attempt == password)
      && u.groups == {}
      && (extra.city.None? ==> u.city.None?)
      && (extra.isStaff.None? ==> !u.isStaff)
      && (extra.isActive.None? ==> u.isActive)
      && UsersIntegrity(users[pk := u])
  {
    InsertKeepsUsersIntegrity(users, CreateUserResult(users, pk, email, Some(password), extra, normalize).value);
  }

  /** `create_superuser`: staff and superuser unless the caller said otherwise. */
  lemma CreateSuperuserFlags(users: Users, pk: UserId, email: string, password: Option<string>,
                             extra: ExtraFields, normalize: string -> string)
    requires CreateUserResult(users, pk, email, password, SuperuserDefaults(extra), normalize).Ok?
    ensures var u := CreateUserResult(users, pk, email, password, SuperuserDefaults(extra), normalize).value;
      && u.isStaff == extra.isStaff.GetOr(true)
      && u.isSuperuser == extra.isSuperuser.GetOr(true)
  {
  }
}
