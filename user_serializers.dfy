/** users/serializers.py: registration and profile update through UserSerializer, and
    the password-change checks of ChangePasswordSerializer. */
module UserSerializers {
  import opened Wrappers
  import opened Validation
  import opened NetworkSchema
  import opened UserModels
  import opened Validators

  /** A request body for the user endpoints, and equally its `validated_data`. */
  datatype UserInput = UserInput(
    email: Field<string>,
    password: Field<string>,
    phoneNumber: Field<Option<string>>,
    city: Field<Option<string>>)

  const EmailMaxLength: nat := 254
  const PhoneMaxLength: nat := 20
  const CityMaxLength: nat := 150
  const PasswordMaxLength: nat := 128

  /** `email`: required on a full write, not blank, unique among the other users, at most 254 characters. */
  function EmailError(email: Field<string>, users: Users, instance: Option<UserId>, partial: bool): Option<FieldError> {
    match email
    case Absent => if partial then None else Some(Required)
    case Given(e) =>
      if e == "" then Some(Blank)
      else if EmailTaken(users, e, instance) then Some(NotUnique)
      else if |e| > EmailMaxLength then Some(TooLong(EmailMaxLength))
      else None
  }

  /** The declared `password` field: optional, not blank, subject to the password policy. */
  function PasswordFieldError(password: Field<string>, cc: CharClasses): Option<FieldError> {
    match password
    case Absent => None
    case Given(p) =>
      if p == "" then Some(Blank)
      else if ValidatePassword(cc, p).Some? then Some(Weak(ValidatePassword(cc, p).value))
      else None
  }

  /** A nullable, blank-allowed text column with a max_length. */
  function OptionalTextError(value: Field<Option<string>>, limit: nat): Option<FieldError> {
    match value
    case Given(Some(s)) => if |s| > limit then Some(TooLong(limit)) else None
    case _ => None
  }

  function UserFieldErrors(input: UserInput, users: Users, instance: Option<UserId>, partial: bool, cc: CharClasses): Errors {
    Report("email", EmailError(input.email, users, instance, partial))
    + Report("password", PasswordFieldError(input.password, cc))
    + Report("phone_number", OptionalTextError(input.phoneNumber, PhoneMaxLength))
    + Report("city", OptionalTextError(input.city, CityMaxLength))
  }

  /** UserSerializer.create after the field checks: the password is popped and must be
      non-empty; the user is built from the remaining keys with the model's defaults and
      the password is stored only through `set_password`. */
  function CreateUser(pk: UserId, data: UserInput): (r: Result<User, Errors>)
    requires data.email.Given?
    ensures r.Err? <==> data.password.Absent? || data.password.value == ""
    ensures r.Err? ==> r.error == map["password" := PasswordRequiredOnCreate]
    // the user is built from the given keys, with the model's defaults for the rest
    ensures r.Ok? ==>
      && r.value.pk == pk && r.value.email == data.email.value
      && (forall attempt :: CheckPassword(r.value.password, attempt) <==> attempt == data.password.value)
      && r.value.isActive && !r.value.isStaff && !r.value.isSuperuser && r.value.groups == {}
      && r.value.phoneNumber == (if data.phoneNumber.Given? then data.phoneNumber.value else None)
      && r.value.city == (if data.city.Given? then data.city.value else None)
  {
    if data.password.Absent? || data.password.value == "" then Err(map["password" := PasswordRequiredOnCreate])
    else Ok(User(pk, data.email.value, SetPassword(Some(data.password.value)), true, false, false, {},
                 data.phoneNumber.OrElse(None), data.city.OrElse(None)))
  }

  /** Registration: the field checks of a full write, then `create`. */
  function RegisterResult(users: Users, pk: UserId, input: UserInput, cc: CharClasses): (r: Result<User, Errors>)
    // any field error is reported, and nothing is created
    ensures UserFieldErrors(input, users, None, false, cc) != map[] ==>
              r == Err(UserFieldErrors(input, users, None, false, cc))
    // with the fields clean, `create` decides, and the email it needs is there
    ensures UserFieldErrors(input, users, None, false, cc) == map[] ==>
              input.email.Given? && r == CreateUser(pk, input)
  {
    var errors := UserFieldErrors(input, users, None, false, cc);
    if errors != map[] then Err(errors)
    else
      assert "email" !in errors;
      CreateUser(pk, input)
  }

  /** Registering without a password (and nothing else wrong) fails under `password`. */
  lemma RegisterNeedsPassword(users: Users, pk: UserId, input: UserInput, cc: CharClasses)
    requires input.password.Absent?
    requires UserFieldErrors(input, users, None, false, cc) == map[]
    ensures RegisterResult(users, pk, input, cc) == Err(map["password" := PasswordRequiredOnCreate])
  {
    assert "email" !in UserFieldErrors(input, users, None, false, cc);
  }

  /** Registering with an email another user has fails under `email`. */
  lemma RegisterDuplicateEmailRejected(users: Users, pk: UserId, input: UserInput, cc: CharClasses)
    requires input.email.Given? && input.email.value != "" && EmailTaken(users, input.email.value, None)
    ensures RegisterResult(users, pk, input, cc).Err?
    ensures RegisterResult(users, pk, input, cc).error["email"] == NotUnique
  {
    var errors := UserFieldErrors(input, users, None, false, cc);
    assert EmailError(input.email, users, None, false) == Some(NotUnique);
    assert errors["email"] == NotUnique;
  }

  /** A registered user: the given email, a password that checks exactly against the
      given one and passed the policy, the model's defaults (active, not staff, no
      groups), the given phone number and city (null when not given), and emails still unique. */
  lemma RegisterSound(users: Users, pk: UserId, input: UserInput, cc: CharClasses)
    requires UsersIntegrity(users) && pk !in users
    requires RegisterResult(users, pk, input, cc).Ok?
    ensures var u := RegisterResult(users, pk, input, cc).value;
      && input.email == Given(u.email) && input.password.Given?
      && ValidatePassword(cc, input.password.value) == None
      && (forall attempt :: CheckPassword(u.password, attempt) <==> attempt == input.password.value)
      && u.isActive && !u.isStaff && !u.isSuperuser && u.groups == {}
      && u.pk == pk
      && u.phoneNumber == (if input.phoneNumber.Given? then input.phoneNumber.value else None)
      && u.city == (if input.city.Given? then input.city.value else None)
      && (input.city.Absent? ==> u.city.None?)
      && UsersIntegrity(users[pk := u])
  {
    var errors := UserFieldErrors(input, users, None, false, cc);
    assert "email" !in errors && "password" !in errors;
    var u := RegisterResult(users, pk, input, cc).value;
    assert !EmailTaken(users, u.email, None);
    InsertKeepsUsersIntegrity(users, u);
  }

  /** UserSerializer.update after the field checks: any `password` key is refused and
      points to the password endpoint; otherwise each given key is written. */
  function UpdateUser(instance: User, data: UserInput): (r: Result<User, Errors>)
    ensures r.Err? <==> data.password.Given?
    ensures r.Err? ==> r.error == map["password" := PasswordChangeElsewhere]
  {
    if data.password.Given? then Err(map["password" := PasswordChangeElsewhere])
    else Ok(instance.(email := data.email.OrElse(instance.email),
                      phoneNumber := data.phoneNumber.OrElse(instance.phoneNumber),
                      city := data.city.OrElse(instance.city)))
  }

  /** A profile update: the field checks (partial for PATCH), then `update`. */
  function UpdateProfileResult(users: Users, instance: User, input: UserInput, partial: bool, cc: CharClasses): (r: Result<User, Errors>)
    // accepted exactly when every field check passes and no password is sent
    ensures r.Ok? <==>
              UserFieldErrors(input, users, Some(instance.pk), partial, cc) == map[] && input.password.Absent?
    // field errors come first and are reported as they are
    ensures UserFieldErrors(input, users, Some(instance.pk), partial, cc) != map[] ==>
              r == Err(UserFieldErrors(input, users, Some(instance.pk), partial, cc))
    ensures UserFieldErrors(input, users, Some(instance.pk), partial, cc) == map[] ==>
              r == UpdateUser(instance, input)
  {
    var errors := UserFieldErrors(input, users, Some(instance.pk), partial, cc);
    if errors != map[] then Err(errors) else UpdateUser(instance, input)
  }

  /** An update that carries a (policy-conforming) password is refused under `password`. */
  lemma ProfileUpdateRejectsPassword(users: Users, instance: User, input: UserInput, partial: bool, cc: CharClasses)
    requires input.password.Given?
    requires UserFieldErrors(input, users, Some(instance.pk), partial, cc) == map[]
    ensures UpdateProfileResult(users, instance, input, partial, cc) == Err(map["password" := PasswordChangeElsewhere])
  {
  }

  /** An accepted profile update writes only the given keys: the identity, password,
      flags and groups stay, and emails stay unique. */
  lemma ProfileUpdateSound(users: Users, instance: User, input: UserInput, partial: bool, cc: CharClasses)
    requires UsersIntegrity(users) && instance.pk in users && users[instance.pk] == instance
    requires UpdateProfileResult(users, instance, input, partial, cc).Ok?
    ensures var u := UpdateProfileResult(users, instance, input, partial, cc).value;
      && u.pk == instance.pk && u.password == instance.password
      && u.isActive == instance.isActive && u.isStaff == instance.isStaff
      && u.isSuperuser == instance.isSuperuser && u.groups == instance.groups
      && u.email == (if input.email.Given? then input.email.value else instance.email)
      && u.phoneNumber == (if input.phoneNumber.Given? then input.phoneNumber.value else instance.phoneNumber)
      && u.city == (if input.city.Given? then input.city.value else instance.city)
      && UsersIntegrity(users[instance.pk := u])
  {
    var errors := UserFieldErrors(input, users, Some(instance.pk), partial, cc);
    assert "email" !in errors;
    var u := UpdateProfileResult(users, instance, input, partial, cc).value;
    var r := users[instance.pk := u];
    if input.email.Given? {
      assert !EmailTaken(users, input.email.value, Some(instance.pk));
    }
    forall a, b | a in r && b in r && a != b ensures r[a].email != r[b].email {
      if a == instance.pk {
        assert b in users && users[b].email != u.email;
      } else if b == instance.pk {
        assert a in users && users[a].email != u.email;
      }
    }
  }

  /** A request body for the password change. */
  datatype ChangePasswordInput = ChangePasswordInput(oldPassword: Field<string>, newPassword: Field<string>)

  /** `old_password`: required, not blank, at most 128 characters. */
  function OldPasswordError(prior: Field<string>): Option<FieldError> {
    match prior
    case Absent => Some(Required)
    case Given(p) =>
      if p == "" then Some(Blank)
      else if |p| > PasswordMaxLength then Some(TooLong(PasswordMaxLength))
      else None
  }

  /** `new_password`: required, not blank, the password policy, at most 128 characters. */
  function NewPasswordError(next: Field<string>, cc: CharClasses): Option<FieldError> {
    match next
    case Absent => Some(Required)
    case Given(p) =>
      if p == "" then Some(Blank)
      else if ValidatePassword(cc, p).Some? then Some(Weak(ValidatePassword(cc, p).value))
      else if |p| > PasswordMaxLength then Some(TooLong(PasswordMaxLength))
      else None
  }

  /** ChangePasswordSerializer: the field checks, then the old password must check
      against the stored one, and only then must the new one differ from it. The
      result is the new password. */
  function ChangePasswordValidate(user: User, input: ChangePasswordInput, cc: CharClasses): (r: Result<string, Errors>)
    ensures r.Ok? <==>
      && input.oldPassword.Given? && input.newPassword.Given?
      && OldPasswordError(input.oldPassword).None? && NewPasswordError(input.newPassword, cc).None?
      && CheckPassword(user.password, input.oldPassword.value)
      && input.oldPassword.value != input.newPassword.value
    ensures r.Ok? ==> r.value == input.newPassword.value && ValidatePassword(cc, r.value) == None
  {
    var errors := Report("old_password", OldPasswordError(input.oldPassword))
                + Report("new_password", NewPasswordError(input.newPassword, cc));
    if errors != map[] then Err(errors)
    else
      assert "old_password" !in errors && "new_password" !in errors;
      if !CheckPassword(user.password, input.oldPassword.value) then Err(map["old_password" := WrongOldPassword])
      else if input.oldPassword.value == input.newPassword.value then Err(map["new_password" := SameAsOldPassword])
      else Ok(input.newPassword.value)
  }

  /** A wrong old password is reported before the equality check, even when old and new coincide. */
  lemma WrongOldPasswordFirst(user: User, prior: string, next: string, cc: CharClasses)
    requires OldPasswordError(Given(prior)).None? && NewPasswordError(Given(next), cc).None?
    requires !CheckPassword(user.password, prior)
    ensures ChangePasswordValidate(user, ChangePasswordInput(Given(prior), Given(next)), cc)
            == Err(map["old_password" := WrongOldPassword])
  {
  }

  /** Re-using the current password as the new one is refused under `new_password`. */
  lemma SamePasswordRejected(user: User, current: string, cc: CharClasses)
    requires CheckPassword(user.password, current)
    requires OldPasswordError(Given(current)).None? && NewPasswordError(Given(current), cc).None?
    ensures ChangePasswordValidate(user, ChangePasswordInput(Given(current), Given(current)), cc)
            == Err(map["new_password" := SameAsOldPassword])
  {
  }

  /** A new password that breaks the policy is reported under `new_password` with the policy's message. */
  lemma WeakNewPasswordRejected(user: User, prior: Field<string>, next: string, cc: CharClasses)
    requires next != "" && ValidatePassword(cc, next).Some?
    ensures ChangePasswordValidate(user, ChangePasswordInput(prior, Given(next)), cc).Err?
    ensures ChangePasswordValidate(user, ChangePasswordInput(prior, Given(next)), cc).error["new_password"]
            == Weak(ValidatePassword(cc, next).value)
  {
  }
}
