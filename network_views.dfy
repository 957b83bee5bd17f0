/** electronics_network/views.py: the decision the member viewset reaches for create,
    update and destroy before anything is written — the permission gate, the row lookup,
    the serializer's field checks and `validate`, and the `debt` guard of
    `perform_update` — and the properties of the rows these decisions lead to. */
module NetworkViews {
  import opened Wrappers
  import opened Validation
  import opened NetworkSchema
  import opened Services
  import opened NetworkModels
  import opened NetworkSerializers
  import opened UserModels
  import opened Permissions

  /** POST to the member list: the viewset's only permission, then the serializer with
      no instance and a full write. */
  function CreateDecision(m: Members, requester: User, input: MemberInput): (r: Result<MemberData, Failure>)
    ensures !IsActiveEmployeeOrAdmin(requester) ==> r == Err(Forbidden)
    ensures r.Ok? <==>
      && IsActiveEmployeeOrAdmin(requester)
      && CheckFields(input, m, None, false).Ok?
      && Validate(CheckFields(input, m, None, false).value, None, m).Ok?
    ensures r.Ok? ==> CheckFields(input, m, None, false) == Ok(r.value) && Complete(r.value) && SupplierResolved(r.value, m)
    ensures IsActiveEmployeeOrAdmin(requester) && CheckFields(input, m, None, false).Err? ==>
              r == Err(Invalid(CheckFields(input, m, None, false).error))
    // a failed `validate` is reported under `supplier`
    ensures && IsActiveEmployeeOrAdmin(requester) && CheckFields(input, m, None, false).Ok?
            && Validate(CheckFields(input, m, None, false).value, None, m).Err? ==>
              r == Err(Invalid(map["supplier" :=
                     SupplierRejected(Validate(CheckFields(input, m, None, false).value, None, m).error)]))
  {
    if !IsActiveEmployeeOrAdmin(requester) then Err(Forbidden)
    else match CheckFields(input, m, None, false)
      case Err(e) => Err(Invalid(e))
      case Ok(data) =>
        match Validate(data, None, m)
        case Err(rule) => Err(Invalid(map["supplier" := SupplierRejected(rule)]))
        case Ok(d) => Ok(d)
  }

  /** PUT or PATCH on a member: the permission, the lookup, the serializer against the
      stored row, and then `perform_update` refuses validated data carrying `debt`. */
  function UpdateDecision(m: Members, requester: User, id: MemberId, input: MemberInput, partial: bool): (r: Result<MemberData, Failure>)
    ensures !IsActiveEmployeeOrAdmin(requester) ==> r == Err(Forbidden)
    ensures IsActiveEmployeeOrAdmin(requester) && id !in m ==> r == Err(NotFound)
    ensures r.Ok? <==>
      && IsActiveEmployeeOrAdmin(requester) && id in m
      && CheckFields(input, m, Some(id), partial).Ok?
      && Validate(CheckFields(input, m, Some(id), partial).value, Some(m[id].kind), m).Ok?
      && input.debt.Absent?
    ensures r.Ok? ==> CheckFields(input, m, Some(id), partial) == Ok(r.value) && r.value.debt.Absent?
    ensures IsActiveEmployeeOrAdmin(requester) && id in m && CheckFields(input, m, Some(id), partial).Err? ==>
              r == Err(Invalid(CheckFields(input, m, Some(id), partial).error))
    // a failed `validate` is reported under `supplier`, before the `debt` guard
    ensures && IsActiveEmployeeOrAdmin(requester) && id in m && CheckFields(input, m, Some(id), partial).Ok?
            && Validate(CheckFields(input, m, Some(id), partial).value, Some(m[id].kind), m).Err? ==>
              r == Err(Invalid(map["supplier" :=
                     SupplierRejected(Validate(CheckFields(input, m, Some(id), partial).value, Some(m[id].kind), m).error)]))
  {
    if !IsActiveEmployeeOrAdmin(requester) then Err(Forbidden)
    else if id !in m then Err(NotFound)
    else match CheckFields(input, m, Some(id), partial)
      case Err(e) => Err(Invalid(e))
      case Ok(data) =>
        match Validate(data, Some(m[id].kind), m)
        case Err(rule) => Err(Invalid(map["supplier" := SupplierRejected(rule)]))
        case Ok(d) => if "debt" in DataKeys(d) then Err(Invalid(map["debt" := DebtUpdateForbidden])) else Ok(d)
  }

  /** DELETE on a member: the permission, then the lookup. */
  function DestroyDecision(m: Members, requester: User, id: MemberId): (r: Result<MemberId, Failure>)
    ensures !IsActiveEmployeeOrAdmin(requester) ==> r == Err(Forbidden)
    ensures IsActiveEmployeeOrAdmin(requester) && id !in m ==> r == Err(NotFound)
    ensures r.Ok? <==> IsActiveEmployeeOrAdmin(requester) && id in m
    ensures r.Ok? ==> r.value == id
  {
    if !IsActiveEmployeeOrAdmin(requester) then Err(Forbidden)
    else if id !in m then Err(NotFound)
    else Ok(id)
  }

  /** An update whose payload passes the serializer but carries `debt` is refused under
      `debt`; the supplier rules are reported first. */
  lemma UpdateRejectsDebt(m: Members, requester: User, id: MemberId, input: MemberInput, partial: bool)
    requires IsActiveEmployeeOrAdmin(requester) && id in m
    requires CheckFields(input, m, Some(id), partial).Ok?
    requires Validate(CheckFields(input, m, Some(id), partial).value, Some(m[id].kind), m).Ok?
    requires input.debt.Given?
    ensures UpdateDecision(m, requester, id, input, partial) == Err(Invalid(map["debt" := DebtUpdateForbidden]))
  {
  }

  /** An accepted update keeps the bookkeeping columns: `debt`, `created_at` and the creator. */
  lemma UpdateKeepsBookkeeping(m: Members, requester: User, id: MemberId, input: MemberInput, partial: bool)
    requires UpdateDecision(m, requester, id, input, partial).Ok?
    ensures var x := PatchMember(m[id], UpdateDecision(m, requester, id, input, partial).value);
      x.debt == m[id].debt && x.createdAt == m[id].createdAt && x.user == m[id].user
  {
  }

  /** The row `perform_create` inserts: the creator is the requesting user whatever the
      payload says, `created_at` is the creation time, and `debt` is written from the
      payload when given (create has no debt guard), 0 otherwise. */
  lemma CreatedRow(m: Members, requester: User, input: MemberInput, now: int)
    requires CreateDecision(m, requester, input).Ok?
    ensures var row := NewMember(CreateDecision(m, requester, input).value, requester.pk, now);
      && row.user == requester.pk && row.createdAt == now
      && input.name == Given(row.name) && input.kind == Given(TypeValue(row.kind))
      && row.supplier == (if input.supplier.Given? then input.supplier.value else None)
      && row.debt as int == (if input.debt.Given? then input.debt.value else 0)
  {
  }

  /** A create that names an existing member's name is refused under `name`. */
  lemma DuplicateNameRejected(m: Members, requester: User, input: MemberInput)
    requires IsActiveEmployeeOrAdmin(requester)
    requires input.name.Given? && input.name.value != "" && NameTaken(m, input.name.value, None)
    ensures CreateDecision(m, requester, input).Err?
    ensures CreateDecision(m, requester, input).error.Invalid?
    ensures CreateDecision(m, requester, input).error.errors["name"] == NotUnique
  {
    assert NameError(input.name, m, None, false) == Some(NotUnique);
    assert FieldErrors(input, m, None, false)["name"] == NotUnique;
  }

  /** An update (PUT or PATCH) that renames a member to the name of another member is
      refused under `name`; keeping the member's own name is not a clash. */
  lemma UpdateDuplicateNameRejected(m: Members, requester: User, id: MemberId, input: MemberInput, partial: bool)
    requires IsActiveEmployeeOrAdmin(requester) && id in m
    requires input.name.Given? && input.name.value != "" && NameTaken(m, input.name.value, Some(id))
    ensures UpdateDecision(m, requester, id, input, partial).Err?
    ensures UpdateDecision(m, requester, id, input, partial).error.Invalid?
    ensures UpdateDecision(m, requester, id, input, partial).error.errors["name"] == NotUnique
  {
    assert NameError(input.name, m, Some(id), partial) == Some(NotUnique);
    var errors := FieldErrors(input, m, Some(id), partial);
    assert errors["name"] == NotUnique;
    assert UpdateDecision(m, requester, id, input, partial) == Err(Invalid(errors));
  }

  /** Creating a member under a fresh key, with its contact, keeps the store's integrity,
      and keeps the supplier graph acyclic when it was. */
  lemma CreatePreservesIntegrity(m: Members, contacts: Contacts, users: set<UserId>,
                                 requester: User, input: MemberInput, id: MemberId, now: int)
    requires Integrity(m, contacts, users) && id !in m && requester.pk in users
    requires CreateDecision(m, requester, input).Ok?
    ensures var data := CreateDecision(m, requester, input).value;
      var m' := m[id := NewMember(data, requester.pk, now)];
      && Integrity(m', contacts[id := ContactFrom(data.contact.value)], users)
      && (Acyclic(m) ==> Acyclic(m'))
  {
    var data := CreateDecision(m, requester, input).value;
    var row := NewMember(data, requester.pk, now);
    var m' := m[id := row];
    assert !NameTaken(m, row.name, None);
    forall a, b | a in m' && b in m' && a != b ensures m'[a].name != m'[b].name {
      if a == id {
        assert b in m && m[b].name != row.name;
      } else if b == id {
        assert a in m && m[a].name != row.name;
      }
    }
    if Acyclic(m) {
      var rank := SomeRank(m);
      var r' := rank[id := if row.supplier.Some? then rank[row.supplier.value] + 1 else 0];
      assert RankedBy(m', r');
    }
  }

  /** An accepted update keeps the store's integrity: the supplier exists, the name
      stays unique, contacts stay keyed by members. */
  lemma UpdatePreservesIntegrity(m: Members, contacts: Contacts, users: set<UserId>,
                                 requester: User, id: MemberId, input: MemberInput, partial: bool)
    requires Integrity(m, contacts, users)
    requires UpdateDecision(m, requester, id, input, partial).Ok?
    ensures var data := UpdateDecision(m, requester, id, input, partial).value;
      var m' := m[id := PatchMember(m[id], data)];
      && Integrity(m', contacts, users)
      && (id in contacts && TouchesContact(data) ==>
            Integrity(m', contacts[id := MergeContact(contacts[id], data.contact.value)], users))
  {
    var data := UpdateDecision(m, requester, id, input, partial).value;
    var x := PatchMember(m[id], data);
    var m' := m[id := x];
    if data.name.Given? {
      assert !NameTaken(m, data.name.value, Some(id));
    }
    forall a, b | a in m' && b in m' && a != b ensures m'[a].name != m'[b].name {
      if a == id {
        assert b in m && m[b].name != x.name;
      } else if b == id {
        assert a in m && m[a].name != x.name;
      }
    }
  }

  /** No cycle check guards an update: an entrepreneur may be patched to be its own
      supplier, the update is accepted, and the supplier graph is no longer acyclic. */
  lemma SelfSupplyAccepted(m: Members, contacts: Contacts, users: set<UserId>, requester: User, id: MemberId)
    requires Integrity(m, contacts, users) && IsActiveEmployeeOrAdmin(requester)
    requires id in m && m[id].kind == Entrepreneur
    ensures var input := MemberInput(Absent, Absent, Given(Some(id)), Absent, Absent);
      && UpdateDecision(m, requester, id, input, true).Ok?
      && !Acyclic(m[id := PatchMember(m[id], UpdateDecision(m, requester, id, input, true).value)])
  {
    var input := MemberInput(Absent, Absent, Given(Some(id)), Absent, Absent);
    assert ContactFieldErrors(map[], true) == {};
    assert FieldErrors(input, m, Some(id), true) == map[];
    UpdatePreservesIntegrity(m, contacts, users, requester, id, input, true);
    var m' := m[id := PatchMember(m[id], UpdateDecision(m, requester, id, input, true).value)];
    assert Hop(m', Some(id), 1) == Some(id);
    CycleNeverEnds(m', id, 1);
  }
}
