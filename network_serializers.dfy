/** electronics_network/serializers.py: the field checks the member serializer derives
    from the model, the type-dependent supplier rules of `validate`, and what `create`
    and `update` write. */
module NetworkSerializers {
  import opened Wrappers
  import opened Validation
  import opened NetworkSchema
  import opened Services
  import opened NetworkModels

  /** A nested contact payload (the contact serializer's writable keys). */
  type ContactData = map<ContactField, string>

  const ContactFields: set<ContactField> := {Email, Country, City, Street, HouseNumber}

  /** A request body for the member endpoints. `debt` is in cents. The read-only keys
      (`id`, `user`, `created_at`, `products`) are dropped by the serializer and so do
      not appear. */
  datatype MemberInput = MemberInput(
    name: Field<string>,
    kind: Field<string>,
    supplier: Field<Option<MemberId>>,
    debt: Field<int>,
    contact: Field<ContactData>)

  /** `validated_data`: the same keys, with their values parsed. */
  datatype MemberData = MemberData(
    name: Field<string>,
    kind: Field<MemberType>,
    supplier: Field<Option<MemberId>>,
    debt: Field<Cents>,
    contact: Field<ContactData>)

  /** `name`: required on a full write, not blank, unique among the other members,
      at most 254 characters. */
  function NameError(name: Field<string>, m: Members, instance: Option<MemberId>, partial: bool): Option<FieldError> {
    match name
    case Absent => if partial then None else Some(Required)
    case Given(n) =>
      if n == "" then Some(Blank)
      else if NameTaken(m, n, instance) then Some(NotUnique)
      else if |n| > NameMaxLength then Some(TooLong(NameMaxLength))
      else None
  }

  /** `type`: required on a full write, one of the three choices. */
  function TypeError(kind: Field<string>, partial: bool): Option<FieldError> {
    match kind
    case Absent => if partial then None else Some(Required)
    case Given(s) => if ParseType(s).None? then Some(InvalidChoice) else None
  }

  /** `supplier`: optional and nullable; a given key must name a stored member. */
  function SupplierError(supplier: Field<Option<MemberId>>, m: Members): Option<FieldError> {
    match supplier
    case Given(Some(id)) => if id in m then None else Some(DoesNotExist)
    case _ => None
  }

  /** `debt`: optional (it has a default); a given value must fit the decimal column. */
  function DebtError(debt: Field<int>): Option<FieldError> {
    match debt
    case Given(c) => if -MaxDebtCents <= c <= MaxDebtCents then None else Some(TooManyDigits)
    case Absent => None
  }

  /** One key of the nested contact: required on a full write, not blank, within its max_length. */
  function ContactFieldError(data: ContactData, f: ContactField, partial: bool): Option<FieldError> {
    if f !in data then (if partial then None else Some(Required))
    else if data[f] == "" then Some(Blank)
    else if |data[f]| > MaxLength(f) then Some(TooLong(MaxLength(f)))
    else None
  }

  function ContactFieldErrors(data: ContactData, partial: bool): set<ContactField> {
    set f | f in ContactFields && ContactFieldError(data, f, partial).Some?
  }

  /** `contact`: the nested serializer is required on a full write; its own errors are reported under `contact`. */
  function ContactError(contact: Field<ContactData>, partial: bool): Option<FieldError> {
    match contact
    case Absent => if partial then None else Some(Required)
    case Given(d) =>
      var bad := ContactFieldErrors(d, partial);
      if bad != {} then Some(ContactInvalid(bad)) else None
  }

  /** Every field error of a payload; each failing field is reported at once. */
  function FieldErrors(input: MemberInput, m: Members, instance: Option<MemberId>, partial: bool): Errors {
    Report("name", NameError(input.name, m, instance, partial))
    + Report("type", TypeError(input.kind, partial))
    + Report("supplier", SupplierError(input.supplier, m))
    + Report("debt", DebtError(input.debt))
    + Report("contact", ContactError(input.contact, partial))
  }

  /** A payload fit for `create`: the keys a full write requires, with a complete contact. */
  predicate Complete(data: MemberData) {
    && data.name.Given? && data.kind.Given? && data.contact.Given?
    && forall f :: f in data.contact.value
  }

  /** The supplier key, when given, names a stored member (the call of `validate` needs
      the supplier's own row). */
  predicate SupplierResolved(data: MemberData, m: Members) {
    data.supplier.Given? && data.supplier.value.Some? ==> data.supplier.value.value in m
  }

  /** Field-level validation: the keys and values of `validated_data`, or every field
      error at once. */
  function CheckFields(input: MemberInput, m: Members, instance: Option<MemberId>, partial: bool): (r: Result<MemberData, Errors>)
    ensures r.Err? <==> FieldErrors(input, m, instance, partial) != map[]
    ensures r.Err? ==> r.error == FieldErrors(input, m, instance, partial)
    ensures r.Ok? ==> SupplierResolved(r.value, m)
    ensures r.Ok? && !partial ==> Complete(r.value)
    ensures r.Ok? && r.value.name.Given? ==> !NameTaken(m, r.value.name.value, instance)
    // the values are the payload's own
    ensures r.Ok? ==> r.value.name == input.name && r.value.supplier == input.supplier && r.value.contact == input.contact
    ensures r.Ok? ==> (r.value.debt.Given? <==> input.debt.Given?)
    ensures r.Ok? && input.debt.Given? ==> r.value.debt.value as int == input.debt.value
    ensures r.Ok? ==> (r.value.kind.Given? <==> input.kind.Given?)
    ensures r.Ok? && input.kind.Given? ==> TypeValue(r.value.kind.value) == input.kind.value
  {
    var errors := FieldErrors(input, m, instance, partial);
    if errors != map[] then Err(errors)
    else
      assert "name" !in errors && "type" !in errors && "debt" !in errors && "contact" !in errors && "supplier" !in errors;
      var kind := if input.kind.Given? then Given(ParseType(input.kind.value).value) else Absent;
      var debt := if input.debt.Given? then Given(input.debt.value as Cents) else Absent;
      FullPayloadHasContact(input, m, instance, partial);
      Ok(MemberData(input.name, kind, input.supplier, debt, input.contact))
  }

  /** A full payload that passes the field checks carries every contact key. */
  lemma FullPayloadHasContact(input: MemberInput, m: Members, instance: Option<MemberId>, partial: bool)
    requires FieldErrors(input, m, instance, partial) == map[]
    ensures !partial ==> input.contact.Given? && forall f :: f in input.contact.value
  {
    var errors := FieldErrors(input, m, instance, partial);
    assert "contact" !in errors;
    if !partial {
      forall f ensures f in input.contact.value {
        assert f in ContactFields by { match f { case Email => case Country => case City => case Street => case HouseNumber => } }
        assert f !in ContactFieldErrors(input.contact.value, partial);
      }
    }
  }

  /** The effective type: the payload's, falling back to the stored instance's. */
  function EffectiveType(data: MemberData, instanceKind: Option<MemberType>): Option<MemberType> {
    if data.kind.Given? then Some(data.kind.value) else instanceKind
  }

  /** The supplier as `validate` reads it: from the payload only, null when the key is absent. */
  function PayloadSupplier(data: MemberData): Option<MemberId> {
    if data.supplier.Given? then data.supplier.value else None
  }

  /** Which supplier links are allowed, as a table over (type, supplier's type). */
  predicate LinkAllowed(t: Option<MemberType>, supplierKind: Option<MemberType>) {
    match t
    case None => true
    case Some(Factory) => supplierKind.None?
    case Some(Retail) => supplierKind.Some? && supplierKind.value != Entrepreneur
    case Some(Entrepreneur) => supplierKind.Some?
  }

  /** SupplyChainMemberSerializer.validate: the checks in their fixed order; the first
      failure is reported (always under `supplier`), otherwise the data is returned unchanged. */
  function Validate(data: MemberData, instanceKind: Option<MemberType>, m: Members): (r: Result<MemberData, SupplierRule>)
    requires SupplierResolved(data, m)
    ensures r.Ok? <==> LinkAllowed(EffectiveType(data, instanceKind),
                                   if PayloadSupplier(data).Some? then Some(m[PayloadSupplier(data).value].kind) else None)
    ensures r.Ok? ==> r.value == data
  {
    var supplier := PayloadSupplier(data);
    var t := EffectiveType(data, instanceKind);
    if t == Some(Factory) && supplier.Some? then Err(FactoryWithSupplier)
    else if t == Some(Retail) && supplier.None? then Err(RetailWithoutSupplier)
    else if t == Some(Retail) && m[supplier.value].kind == Entrepreneur then Err(RetailFromEntrepreneur)
    else if t == Some(Entrepreneur) && supplier.None? then Err(EntrepreneurWithoutSupplier)
    else Ok(data)
  }

  /** Which rule fires, for each type: a factory must have no supplier; a retail network
      is checked for a missing supplier before the supplier's type; an entrepreneur must
      have a supplier. */
  lemma ValidateRuleOrder(data: MemberData, instanceKind: Option<MemberType>, m: Members)
    requires SupplierResolved(data, m)
    ensures var t, s := EffectiveType(data, instanceKind), PayloadSupplier(data);
      && (Validate(data, instanceKind, m) == Err(FactoryWithSupplier) <==> t == Some(Factory) && s.Some?)
      && (Validate(data, instanceKind, m) == Err(RetailWithoutSupplier) <==> t == Some(Retail) && s.None?)
      && (Validate(data, instanceKind, m) == Err(RetailFromEntrepreneur) <==>
            t == Some(Retail) && s.Some? && m[s.value].kind == Entrepreneur)
      && (Validate(data, instanceKind, m) == Err(EntrepreneurWithoutSupplier) <==> t == Some(Entrepreneur) && s.None?)
  {
  }

  /** The supplier is read from the payload only: a partial update of a retail network or
      an entrepreneur that omits `supplier` (and `type`) is rejected, whatever the stored row's supplier. */
  lemma PartialUpdateWithoutSupplierRejected(data: MemberData, stored: Member, m: Members)
    requires SupplierResolved(data, m)
    requires data.kind.Absent? && data.supplier.Absent?
    requires stored.kind == Retail || stored.kind == Entrepreneur
    ensures Validate(data, Some(stored.kind), m) ==
      Err(if stored.kind == Retail then RetailWithoutSupplier else EntrepreneurWithoutSupplier)
  {
  }

  /** The row `create` inserts: the payload's values, the defaults of the missing optional
      columns (`debt` 0, `supplier` null), the requesting user and the creation time. */
  function NewMember(data: MemberData, user: UserId, now: int): (r: Member)
    requires data.name.Given? && data.kind.Given?
    ensures r.name == data.name.value && r.kind == data.kind.value
    // a missing supplier is null, and a given one (possibly null) is kept
    ensures r.supplier == (if data.supplier.Given? then data.supplier.value else None)
    // a missing debt is 0
    ensures r.debt == (if data.debt.Given? then data.debt.value else 0)
    // the creator and the creation time come from the request, not the payload
    ensures r.user == user && r.createdAt == now
  {
    Member(data.name.value, data.kind.value, PayloadSupplier(data), data.debt.OrElse(0), now, user)
  }

  /** The setattr loop of `update` over the member's own keys: each given key is written,
      the others (and the read-only `created_at`, `user`) keep their values. */
  function PatchMember(x: Member, data: MemberData): (r: Member)
    ensures r.createdAt == x.createdAt && r.user == x.user
    ensures r.name == (if data.name.Given? then data.name.value else x.name)
    ensures r.kind == (if data.kind.Given? then data.kind.value else x.kind)
    ensures r.supplier == (if data.supplier.Given? then data.supplier.value else x.supplier)
    ensures r.debt == (if data.debt.Given? then data.debt.value else x.debt)
  {
    x.(name := data.name.OrElse(x.name), kind := data.kind.OrElse(x.kind),
       supplier := data.supplier.OrElse(x.supplier), debt := data.debt.OrElse(x.debt))
  }

  /** The keys present in `validated_data`. */
  function DataKeys(d: MemberData): (keys: set<string>)
    ensures keys <= {"name", "type", "supplier", "debt", "contact"}
    ensures "name" in keys <==> d.name.Given?
    ensures "type" in keys <==> d.kind.Given?
    ensures "supplier" in keys <==> d.supplier.Given?
    ensures "debt" in keys <==> d.debt.Given?
    ensures "contact" in keys <==> d.contact.Given?
  {
    (if d.name.Given? then {"name"} else {})
    + (if d.kind.Given? then {"type"} else {})
    + (if d.supplier.Given? then {"supplier"} else {})
    + (if d.debt.Given? then {"debt"} else {})
    + (if d.contact.Given? then {"contact"} else {})
  }

  /** `setattr(instance, attr, value)` for one key of `validated_data`. */
  function SetMemberAttr(x: Member, key: string, data: MemberData): Member {
    if key == "name" && data.name.Given? then x.(name := data.name.value)
    else if key == "type" && data.kind.Given? then x.(kind := data.kind.value)
    else if key == "supplier" && data.supplier.Given? then x.(supplier := data.supplier.value)
    else if key == "debt" && data.debt.Given? then x.(debt := data.debt.value)
    else x
  }

  /** `for attr, value in validated_data.items(): setattr(instance, attr, value)`, once
      `contact` has been popped. */
  method SetMemberAttrs(x: Member, data: MemberData) returns (updated: Member)
    ensures updated == PatchMember(x, data)
  {
    updated := x;
    var keys := DataKeys(data) - {"contact"};
    var todo := keys;
    while todo != {}
      invariant todo <= keys
      invariant updated.createdAt == x.createdAt && updated.user == x.user
      invariant updated.name == if "name" in keys - todo then data.name.value else x.name
      invariant updated.kind == if "type" in keys - todo then data.kind.value else x.kind
      invariant updated.supplier == if "supplier" in keys - todo then data.supplier.value else x.supplier
      invariant updated.debt == if "debt" in keys - todo then data.debt.value else x.debt
      decreases todo
    {
      var key :| key in todo;
      updated := SetMemberAttr(updated, key, data);
      todo := todo - {key};
    }
  }

  /** A stored contact after the nested payload is applied: a given key overwrites that
      attribute, every other attribute keeps its value. */
  function MergeContact(c: Contact, data: ContactData): (r: Contact)
    ensures forall f :: Attr(r, f) == if f in data then data[f] else Attr(c, f)
  {
    Contact(
      if Email in data then data[Email] else c.email,
      if Country in data then data[Country] else c.country,
      if City in data then data[City] else c.city,
      if Street in data then data[Street] else c.street,
      if HouseNumber in data then data[HouseNumber] else c.houseNumber)
  }

  /** `for attr, value in contact_data.items(): setattr(contact, attr, value)`. */
  method SetContactAttrs(contact: Contact, data: ContactData) returns (updated: Contact)
    ensures updated == MergeContact(contact, data)
  {
    updated := contact;
    var todo := data.Keys;
    while todo != {}
      invariant todo <= data.Keys
      invariant forall f :: Attr(updated, f) == if f in data && f !in todo then data[f] else Attr(contact, f)
      decreases todo
    {
      var f :| f in todo;
      updated := SetAttr(updated, f, data[f]);
      todo := todo - {f};
    }
    ContactExtensional(updated, MergeContact(contact, data));
  }

  /** An empty payload leaves the contact as it was; applying a payload twice is
      applying it once; a complete payload replaces the contact outright. */
  lemma MergeContactLaws(c: Contact, data: ContactData)
    ensures MergeContact(c, map[]) == c
    ensures MergeContact(MergeContact(c, data), data) == MergeContact(c, data)
    ensures (forall f :: f in data) ==> MergeContact(c, data) == ContactFrom(data)
  {
    ContactExtensional(MergeContact(c, map[]), c);
    ContactExtensional(MergeContact(MergeContact(c, data), data), MergeContact(c, data));
    if forall f :: f in data {
      ContactExtensional(MergeContact(c, data), ContactFrom(data));
    }
  }

  /** `if contact_data:` — a nested payload that is absent or empty is skipped. */
  predicate TouchesContact(data: MemberData) {
    data.contact.Given? && data.contact.value != map[]
  }
}
