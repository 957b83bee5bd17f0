/** The database the views, the admin action and the user manager write to: the member,
    contact and user tables, updated in place. Each operation states its whole new state
    in terms of the decision functions of the other modules, and keeps the store's
    integrity. A failed decision writes nothing. */
module Store {
  import opened Wrappers
  import opened Validation
  import opened NetworkSchema
  import opened Services
  import opened NetworkModels
  import opened NetworkAdmin
  import opened NetworkSerializers
  import opened NetworkViews
  import opened UserModels
  import opened Validators
  import opened UserSerializers
  import opened UserViews

  class Database {
    var members: Members
    var contacts: Contacts
    var users: Users
    /** The next primary keys the two sequences hand out. */
    var nextMemberId: MemberId
    var nextUserId: UserId

    /** The constraints of the schema, and keys below the sequences. */
    ghost predicate Valid()
      reads this
    {
      && Integrity(members, contacts, users.Keys)
      && UsersIntegrity(users)
      && (forall id :: id in members ==> id < nextMemberId)
      && (forall id :: id in users ==> id < nextUserId)
    }

    constructor ()
      ensures Valid()
      ensures members == map[] && contacts == map[] && users == map[]
    {
      members, contacts, users := map[], map[], map[];
      nextMemberId, nextUserId := 0, 0;
    }

    /** The admin action `clear_debt`: one UPDATE over the selected rows, whose count is
        the number of rows it matched. */
    method ClearDebt(selection: set<MemberId>) returns (count: nat)
      requires Valid()
      modifies this
      ensures Valid()
      ensures members == ClearedDebt(old(members), selection)
      ensures count == |selection * old(members).Keys|
      ensures contacts == old(contacts) && users == old(users)
      ensures nextMemberId == old(nextMemberId) && nextUserId == old(nextUserId)
    {
      ClearDebtPreservesIntegrity(members, contacts, users.Keys, selection);
      count := ClearedCount(members, selection);
      members := ClearedDebt(members, selection);
    }

    /** POST to the member list: `serializer.save(user=request.user)` then `create`,
        which pops `contact`, inserts the member and inserts its one contact. */
    method PerformCreate(requester: UserId, input: MemberInput, now: int) returns (r: Result<MemberId, Failure>)
      requires Valid() && requester in users
      modifies this
      ensures Valid()
      ensures var d := CreateDecision(old(members), old(users)[requester], input);
        && (d.Err? ==> r == Err(d.error) && unchanged(this))
        && (d.Ok? ==>
              && r == Ok(old(nextMemberId)) && old(nextMemberId) !in old(members)
              && members == old(members)[old(nextMemberId) := NewMember(d.value, requester, now)]
              && contacts == old(contacts)[old(nextMemberId) := ContactFrom(d.value.contact.value)]
              && users == old(users)
              && nextMemberId == old(nextMemberId) + 1 && nextUserId == old(nextUserId))
    {
      var decision := CreateDecision(members, users[requester], input);
      if decision.Err? {
        return Err(decision.error);
      }
      var data := decision.value;
      var contactData := data.contact.value;
      var id := nextMemberId;
      CreatePreservesIntegrity(members, contacts, users.Keys, users[requester], input, id, now);
      members := members[id := NewMember(data, requester, now)];
      contacts := contacts[id := ContactFrom(contactData)];
      nextMemberId := nextMemberId + 1;
      r := Ok(id);
    }

    /** PUT or PATCH on a member: `perform_update`, then `update`. A non-empty contact
        payload is merged into the stored contact by the setattr loop; when the member
        has no contact yet the create call names a field the contact does not have and
        the request fails with nothing written. Then the member's given keys are set. */
    method PerformUpdate(requester: UserId, id: MemberId, input: MemberInput, partial: bool) returns (r: Result<MemberId, Failure>)
      requires Valid() && requester in users
      modifies this
      ensures Valid()
      ensures var d := UpdateDecision(old(members), old(users)[requester], id, input, partial);
        && (d.Err? ==> r == Err(d.error) && unchanged(this))
        && (d.Ok? && TouchesContact(d.value) && id !in old(contacts) ==> r == Err(ServerError) && unchanged(this))
        && (d.Ok? && !(TouchesContact(d.value) && id !in old(contacts)) ==>
              && r == Ok(id)
              && members == old(members)[id := PatchMember(old(members)[id], d.value)]
              && contacts == (if TouchesContact(d.value)
                              then old(contacts)[id := MergeContact(old(contacts)[id], d.value.contact.value)]
                              else old(contacts))
              && users == old(users)
              && nextMemberId == old(nextMemberId) && nextUserId == old(nextUserId))
    {
      var decision := UpdateDecision(members, users[requester], id, input, partial);
      if decision.Err? {
        return Err(decision.error);
      }
      var data := decision.value;
      if TouchesContact(data) && id !in contacts {
        return Err(ServerError);
      }
      UpdatePreservesIntegrity(members, contacts, users.Keys, users[requester], id, input, partial);
      SaveUpdate(id, data);
      r := Ok(id);
    }

    /** `update` once the decision is taken: the contact's setattr loop and save, then
        the member's. */
    method SaveUpdate(id: MemberId, data: MemberData)
      requires Valid() && id in members
      requires TouchesContact(data) ==> id in contacts
      requires Integrity(members[id := PatchMember(members[id], data)], contacts, users.Keys)
      modifies this
      ensures Valid()
      ensures members == old(members)[id := PatchMember(old(members)[id], data)]
      ensures contacts == if TouchesContact(data)
                          then old(contacts)[id := MergeContact(old(contacts)[id], data.contact.value)]
                          else old(contacts)
      ensures users == old(users) && nextMemberId == old(nextMemberId) && nextUserId == old(nextUserId)
    {
      if TouchesContact(data) {
        SaveContact(id, data.contact.value);
      }
      var row := SetMemberAttrs(members[id], data);
      members := members[id := row];
    }

    /** The nested contact's setattr loop and `contact.save()`. */
    method SaveContact(id: MemberId, data: ContactData)
      requires Valid() && id in contacts
      modifies this
      ensures Valid()
      ensures contacts == old(contacts)[id := MergeContact(old(contacts)[id], data)]
      ensures members == old(members) && users == old(users)
      ensures nextMemberId == old(nextMemberId) && nextUserId == old(nextUserId)
    {
      var contact := SetContactAttrs(contacts[id], data);
      contacts := contacts[id := contact];
    }

    /** DELETE on a member: the row goes, its contact with it (CASCADE), and the members
        it supplied lose their supplier (SET_NULL). */
    method DestroyMember(requester: UserId, id: MemberId) returns (r: Result<MemberId, Failure>)
      requires Valid() && requester in users
      modifies this
      ensures Valid()
      ensures var d := DestroyDecision(old(members), old(users)[requester], id);
        && (d.Err? ==> r == Err(d.error) && unchanged(this))
        && (d.Ok? ==>
              && r == Ok(id)
              && members == RemoveMembers(old(members), {id})
              && contacts == old(contacts) - {id}
              && users == old(users)
              && nextMemberId == old(nextMemberId) && nextUserId == old(nextUserId))
    {
      var decision := DestroyDecision(members, users[requester], id);
      if decision.Err? {
        return Err(decision.error);
      }
      RemovePreservesIntegrity(members, contacts, users.Keys, {id});
      members := RemoveMembers(members, {id});
      contacts := contacts - {id};
      r := Ok(id);
    }

    /** Deleting a user row: the members it created go (CASCADE), with their contacts,
        and the members they supplied lose their supplier. */
    method DeleteUser(user: UserId)
      requires Valid()
      modifies this
      ensures Valid()
      ensures members == RemoveMembers(old(members), OwnedBy(old(members), user))
      ensures contacts == old(contacts) - OwnedBy(old(members), user)
      ensures users == old(users) - {user}
      ensures nextMemberId == old(nextMemberId) && nextUserId == old(nextUserId)
    {
      var gone := OwnedBy(members, user);
      DeleteUserCascades(members, contacts, users.Keys, user);
      assert (users - {user}).Keys == users.Keys - {user};
      members := RemoveMembers(members, gone);
      contacts := contacts - gone;
      users := users - {user};
    }

    /** UserManager.create_user: the new row takes the next key. */
    method CreateUser(email: string, password: Option<string>, extra: ExtraFields, normalize: string -> string)
      returns (r: Result<UserId, CreateUserError>)
      requires Valid()
      modifies this
      ensures Valid()
      ensures var d := CreateUserResult(old(users), old(nextUserId), email, password, extra, normalize);
        && (d.Err? ==> r == Err(d.error) && unchanged(this))
        && (d.Ok? ==>
              && r == Ok(old(nextUserId))
              && users == old(users)[old(nextUserId) := d.value]
              && members == old(members) && contacts == old(contacts)
              && nextMemberId == old(nextMemberId) && nextUserId == old(nextUserId) + 1)
    {
      var pk := nextUserId;
      var result := CreateUserResult(users, pk, email, password, extra, normalize);
      if result.Err? {
        return Err(result.error);
      }
      InsertKeepsUsersIntegrity(users, result.value);
      users := users[pk := result.value];
      nextUserId := nextUserId + 1;
      r := Ok(pk);
    }

    /** UserManager.create_superuser: `create_user` with the two flags defaulted to true. */
    method CreateSuperuser(email: string, password: Option<string>, extra: ExtraFields, normalize: string -> string)
      returns (r: Result<UserId, CreateUserError>)
      requires Valid()
      modifies this
      ensures Valid()
      ensures var d := CreateUserResult(old(users), old(nextUserId), email, password, SuperuserDefaults(extra), normalize);
        && (d.Err? ==> r == Err(d.error) && unchanged(this))
        && (d.Ok? ==>
              && r == Ok(old(nextUserId))
              && users == old(users)[old(nextUserId) := d.value]
              && users[old(nextUserId)].isStaff == extra.isStaff.GetOr(true)
              && users[old(nextUserId)].isSuperuser == extra.isSuperuser.GetOr(true)
              && members == old(members) && contacts == old(contacts)
              && nextMemberId == old(nextMemberId) && nextUserId == old(nextUserId) + 1)
    {
      r := CreateUser(email, password, SuperuserDefaults(extra), normalize);
    }

    /** POST to the registration endpoint, open to anyone: UserSerializer's create;
        the new row takes the next key. */
    method Register(input: UserInput, cc: CharClasses) returns (r: Result<UserId, Errors>)
      requires Valid()
      modifies this
      ensures Valid()
      ensures var d := RegisterResult(old(users), old(nextUserId), input, cc);
        && (d.Err? ==> r == Err(d.error) && unchanged(this))
        && (d.Ok? ==>
              && r == Ok(old(nextUserId))
              && users == old(users)[old(nextUserId) := d.value]
              && members == old(members) && contacts == old(contacts)
              && nextMemberId == old(nextMemberId) && nextUserId == old(nextUserId) + 1)
    {
      var pk := nextUserId;
      var result := RegisterResult(users, pk, input, cc);
      if result.Err? {
        return Err(result.error);
      }
      RegisterSound(users, pk, input, cc);
      users := users[pk := result.value];
      nextUserId := nextUserId + 1;
      r := Ok(pk);
    }

    /** PUT or PATCH on a profile. */
    method UpdateProfile(requester: UserId, target: UserId, input: UserInput, partial: bool, cc: CharClasses)
      returns (r: Result<UserId, Failure>)
      requires Valid() && requester in users
      modifies this
      ensures Valid()
      ensures var d := UpdateProfileDecision(old(users), old(users)[requester], target, input, partial, cc);
        && (d.Err? ==> r == Err(d.error) && unchanged(this))
        && (d.Ok? ==>
              && r == Ok(target)
              && users == old(users)[target := d.value]
              && members == old(members) && contacts == old(contacts)
              && nextMemberId == old(nextMemberId) && nextUserId == old(nextUserId))
    {
      var decision := UpdateProfileDecision(users, users[requester], target, input, partial, cc);
      if decision.Err? {
        return Err(decision.error);
      }
      ProfileUpdateSound(users, users[target], input, partial, cc);
      users := users[target := decision.value];
      r := Ok(target);
    }

    /** DELETE on a profile: staff only; the user's members go with it. */
    method DestroyProfile(requester: UserId, target: UserId) returns (r: Result<UserId, Failure>)
      requires Valid() && requester in users
      modifies this
      ensures Valid()
      ensures var d := DestroyProfileDecision(old(users), old(users)[requester], target);
        && (d.Err? ==> r == Err(d.error) && unchanged(this))
        && (d.Ok? ==>
              && r == Ok(target)
              && users == old(users) - {target}
              && members == RemoveMembers(old(members), OwnedBy(old(members), target))
              && contacts == old(contacts) - OwnedBy(old(members), target)
              && nextMemberId == old(nextMemberId) && nextUserId == old(nextUserId))
    {
      var decision := DestroyProfileDecision(users, users[requester], target);
      if decision.Err? {
        return Err(decision.error);
      }
      DeleteUser(target);
      r := Ok(target);
    }

    /** POST to the password endpoint: on a valid request the requesting user's password
        is replaced (200); otherwise the serializer's errors come back (400) and nothing
        changes. */
    method ChangePassword(requester: UserId, input: ChangePasswordInput, cc: CharClasses) returns (r: Result<(), Errors>)
      requires Valid() && requester in users
      modifies this
      ensures Valid()
      ensures var v := ChangePasswordValidate(old(users)[requester], input, cc);
        && (v.Err? ==> r == Err(v.error) && unchanged(this))
        && (v.Ok? ==>
              && r == Ok(())
              && users == old(users)[requester := old(users)[requester].(password := SetPassword(Some(v.value)))]
              && members == old(members) && contacts == old(contacts)
              && nextMemberId == old(nextMemberId) && nextUserId == old(nextUserId))
      ensures r.Ok? ==> forall attempt :: CheckPassword(users[requester].password, attempt) <==> attempt == input.newPassword.value
    {
      var decision := ChangePasswordDecision(users[requester], input, cc);
      if decision.Err? {
        return Err(decision.error);
      }
      users := users[requester := users[requester].(password := decision.value)];
      r := Ok(());
    }
  }
}
