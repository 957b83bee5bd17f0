/** users/permissions.py: the three permission predicates, over the requesting user and
    (for the object-level ones) the profile it targets. Profiles are compared by primary
    key, as model instances are. */
module Permissions {
  import opened UserModels

  predicate IsEmployee(u: User) {
    EmployeeGroup in u.groups
  }

  /** IsProfileOwner: the target profile is the requesting user's own. */
  predicate IsProfileOwner(requester: User, target: User) {
    target.pk == requester.pk
  }

  /** IsActiveEmployeeOrAdmin: an active user who is an employee or staff. */
  predicate IsActiveEmployeeOrAdmin(u: User) {
    u.isActive && (IsEmployee(u) || u.isStaff)
  }

  /** CanViewUserProfile: the owner always; anyone else when employee or staff, with
      no check of the active flag. */
  predicate CanViewUserProfile(requester: User, target: User) {
    if target.pk == requester.pk then true else IsEmployee(requester) || requester.isStaff
  }

  /** The framework's IsAdminUser: the staff flag. */
  predicate IsAdminUser(u: User) {
    u.isStaff
  }

  /** An inactive user is never let in by IsActiveEmployeeOrAdmin, staff or employee;
      an active one exactly when employee or staff. */
  lemma ActiveEmployeeOrAdminCases(u: User)
    ensures !u.isActive ==> !IsActiveEmployeeOrAdmin(u)
    ensures u.isActive ==> (IsActiveEmployeeOrAdmin(u) <==> EmployeeGroup in u.groups || u.isStaff)
  {
  }

  /** Viewing a profile: the owner always may; a non-owner exactly when employee or
      staff, whether active or not. */
  lemma ViewProfileCases(requester: User, target: User)
    ensures requester.pk == target.pk ==> CanViewUserProfile(requester, target)
    ensures requester.pk != target.pk ==>
      (CanViewUserProfile(requester, target) <==> EmployeeGroup in requester.groups || requester.isStaff)
    ensures CanViewUserProfile(requester, target) == CanViewUserProfile(requester.(isActive := !requester.isActive), target)
  {
  }

  /** Granting the employee group or the staff flag never withdraws a permission. */
  lemma GrantsAreMonotone(u: User, target: User, grantGroup: bool, grantStaff: bool)
    ensures var g := u.(groups := if grantGroup then u.groups + {EmployeeGroup} else u.groups,
                        isStaff := u.isStaff || grantStaff);
      && (IsActiveEmployeeOrAdmin(u) ==> IsActiveEmployeeOrAdmin(g))
      && (CanViewUserProfile(u, target) ==> CanViewUserProfile(g, target))
      && (IsProfileOwner(u, target) ==> IsProfileOwner(g, target))
      && (IsAdminUser(u) ==> IsAdminUser(g))
  {
  }
}
