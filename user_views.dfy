/** users/views.py: which permission guards each method of the profile endpoint, and the
    decision each user endpoint reaches before anything is saved. The requesting user is
    an authenticated one; the store is the map of users. */
module UserViews {
  import opened Wrappers
  import opened Validation
  import opened NetworkSchema
  import opened UserModels
  import opened Permissions
  import opened Validators
  import opened UserSerializers

  datatype HttpMethod = GET | HEAD | OPTIONS | POST | PUT | PATCH | DELETE

  /** The framework's SAFE_METHODS. */
  predicate IsSafe(verb: HttpMethod) {
    verb == GET || verb == HEAD || verb == OPTIONS
  }

  /** The guard a profile request is checked against. */
  datatype ProfileGuard = AdminOnly | ViewGuard | OwnerOnly

  /** get_permissions: DELETE first, then the safe methods, then everything else. */
  function ProfilePermission(verb: HttpMethod): (g: ProfileGuard)
    ensures g == AdminOnly <==> verb == DELETE
    ensures g == ViewGuard <==> IsSafe(verb)
    ensures g == OwnerOnly <==> verb in {POST, PUT, PATCH}
  {
    if verb == DELETE then AdminOnly
    else if IsSafe(verb) then ViewGuard
    else OwnerOnly
  }

  /** Whether the guard of `verb` lets `requester` act on the profile `target`. */
  predicate ProfileAccess(verb: HttpMethod, requester: User, target: User) {
    match ProfilePermission(verb)
    case AdminOnly => IsAdminUser(requester)
    case ViewGuard => CanViewUserProfile(requester, target)
    case OwnerOnly => IsProfileOwner(requester, target)
  }

  /** Deleting takes staff, whoever the target; viewing takes ownership, the employee
      group or staff; editing takes ownership alone, so no one (staff included) edits
      another user's profile and a non-staff owner cannot delete their own. */
  lemma ProfileAccessCases(verb: HttpMethod, requester: User, target: User)
    ensures verb == DELETE ==> (ProfileAccess(verb, requester, target) <==> requester.isStaff)
    ensures IsSafe(verb) ==>
      (ProfileAccess(verb, requester, target) <==>
         requester.pk == target.pk || EmployeeGroup in requester.groups || requester.isStaff)
    ensures verb in {PUT, PATCH} ==> (ProfileAccess(verb, requester, target) <==> requester.pk == target.pk)
    ensures verb == DELETE && !requester.isStaff ==> !ProfileAccess(verb, requester, requester)
  {
  }

  /** GET on a profile: a missing profile is 404, a profile the requester may not view 403. */
  function RetrieveProfile(users: Users, requester: User, target: UserId): (r: Result<User, Failure>)
    ensures r.Ok? <==> target in users && CanViewUserProfile(requester, users[target])
    ensures r.Ok? ==> r.value == users[target]
    ensures target !in users ==> r == Err(NotFound)
    ensures target in users && !CanViewUserProfile(requester, users[target]) ==> r == Err(Forbidden)
  {
    if target !in users then Err(NotFound)
    else if !CanViewUserProfile(requester, users[target]) then Err(Forbidden)
    else Ok(users[target])
  }

  /** PUT or PATCH on a profile: 404, then the owner check, then the serializer. */
  function UpdateProfileDecision(users: Users, requester: User, target: UserId, input: UserInput,
                                 partial: bool, cc: CharClasses): (r: Result<User, Failure>)
    ensures target !in users ==> r == Err(NotFound)
    ensures target in users && users[target].pk != requester.pk ==> r == Err(Forbidden)
    ensures r.Ok? ==> target in users && requester.pk == users[target].pk
                      && Ok(r.value) == UpdateProfileResult(users, users[target], input, partial, cc)
    ensures r.Err? && r.error.Invalid? ==> UpdateProfileResult(users, users[target], input, partial, cc).Err?
    // for the owner the serializer decides: its result is passed on, its errors as a 400
    ensures target in users && users[target].pk == requester.pk ==>
              && (UpdateProfileResult(users, users[target], input, partial, cc).Ok? ==>
                    r == Ok(UpdateProfileResult(users, users[target], input, partial, cc).value))
              && (UpdateProfileResult(users, users[target], input, partial, cc).Err? ==>
                    r == Err(Invalid(UpdateProfileResult(users, users[target], input, partial, cc).error)))
  {
    if target !in users then Err(NotFound)
    else if !IsProfileOwner(requester, users[target]) then Err(Forbidden)
    else match UpdateProfileResult(users, users[target], input, partial, cc)
      case Err(e) => Err(Invalid(e))
      case Ok(u) => Ok(u)
  }

  /** DELETE on a profile: the staff check runs before the lookup, so a non-staff requester
      is refused even for a profile that does not exist. */
  function DestroyProfileDecision(users: Users, requester: User, target: UserId): (r: Result<UserId, Failure>)
    ensures !requester.isStaff ==> r == Err(Forbidden)
    ensures requester.isStaff && target !in users ==> r == Err(NotFound)
    ensures r.Ok? <==> requester.isStaff && target in users
    ensures r.Ok? ==> r.value == target
  {
    if !IsAdminUser(requester) then Err(Forbidden)
    else if target !in users then Err(NotFound)
    else Ok(target)
  }

  /** POST to the password endpoint: 200 with the new password stored, or 400 with the
      serializer's errors. */
  function ChangePasswordDecision(requester: User, input: ChangePasswordInput, cc: CharClasses): (r: Result<PasswordHash, Errors>)
    ensures r.Ok? <==> ChangePasswordValidate(requester, input, cc).Ok?
    ensures r.Ok? ==> forall attempt :: CheckPassword(r.value, attempt) <==> attempt == input.newPassword.value
    ensures r.Err? ==> r.error == ChangePasswordValidate(requester, input, cc).error
  {
    match ChangePasswordValidate(requester, input, cc)
    case Err(e) => Err(e)
    case Ok(p) => Ok(SetPassword(Some(p)))
  }

  /** After a successful change the old password no longer checks and the new one does. */
  lemma ChangePasswordSwapsCredentials(requester: User, input: ChangePasswordInput, cc: CharClasses)
    requires ChangePasswordDecision(requester, input, cc).Ok?
    ensures var h := ChangePasswordDecision(requester, input, cc).value;
      && CheckPassword(requester.password, input.oldPassword.value)
      && !CheckPassword(h, input.oldPassword.value)
      && CheckPassword(h, input.newPassword.value)
  {
  }
}
