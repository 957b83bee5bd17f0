/** The record shapes of electronics_network/models.py: a supply-chain member, its
    contact data, and the constants their field declarations fix. */
module NetworkSchema {
  import opened Wrappers
  import opened Validation

  /** Primary keys of members and of users. */
  type MemberId = nat
  type UserId = nat

  /** The three choices of the `type` column. */
  datatype MemberType = Factory | Retail | Entrepreneur

  /** The value stored in the `type` column for each choice. */
  function TypeValue(t: MemberType): string {
    match t
    case Factory => "factory"
    case Retail => "retail"
    case Entrepreneur => "entrepreneur"
  }

  /** Choice validation of the `type` column: only the three stored values are accepted. */
  function ParseType(s: string): (r: Option<MemberType>)
    ensures r.Some? <==> s == "factory" || s == "retail" || s == "entrepreneur"
    ensures r.Some? ==> TypeValue(r.value) == s
  {
    if s == "factory" then Some(Factory)
    else if s == "retail" then Some(Retail)
    else if s == "entrepreneur" then Some(Entrepreneur)
    else None
  }

  lemma ParseTypeValue(t: MemberType)
    ensures ParseType(TypeValue(t)) == Some(t)
  {
  }

  /** `debt` is a decimal with at most 10 digits, 2 of them after the point; the model
      keeps it in cents, so its magnitude stays below 10^10. */
  const MaxDebtCents: int := 9_999_999_999
  newtype Cents = c: int | -MaxDebtCents <= c <= MaxDebtCents

  const NameMaxLength: nat := 254

  /** One row of SupplyChainMember. `createdAt` is the creation timestamp and `user` the
      creator; `level` is derived (see Services). */
  datatype Member = Member(
    name: string,
    kind: MemberType,
    supplier: Option<MemberId>,
    debt: Cents,
    createdAt: int,
    user: UserId)

  /** One row of ContactInfo; the row's `network_member` is the key it is stored under. */
  datatype Contact = Contact(
    email: string,
    country: string,
    city: string,
    street: string,
    houseNumber: string)

  function MaxLength(f: ContactField): nat {
    match f
    case Email => 254
    case Country => 99
    case City => 99
    case Street => 99
    case HouseNumber => 9
  }

  /** getattr on a contact. */
  function Attr(c: Contact, f: ContactField): string {
    match f
    case Email => c.email
    case Country => c.country
    case City => c.city
    case Street => c.street
    case HouseNumber => c.houseNumber
  }

  /** setattr on a contact: the named attribute takes the value, the others keep theirs. */
  function SetAttr(c: Contact, f: ContactField, v: string): (r: Contact)
    ensures Attr(r, f) == v
    ensures forall g :: g != f ==> Attr(r, g) == Attr(c, g)
  {
    match f
    case Email => c.(email := v)
    case Country => c.(country := v)
    case City => c.(city := v)
    case Street => c.(street := v)
    case HouseNumber => c.(houseNumber := v)
  }

  /** Two contacts with the same attributes are the same contact. */
  lemma ContactExtensional(a: Contact, b: Contact)
    requires forall f :: Attr(a, f) == Attr(b, f)
    ensures a == b
  {
    assert Attr(a, Email) == Attr(b, Email);
    assert Attr(a, Country) == Attr(b, Country);
    assert Attr(a, City) == Attr(b, City);
    assert Attr(a, Street) == Attr(b, Street);
    assert Attr(a, HouseNumber) == Attr(b, HouseNumber);
  }

  /** ContactInfo.objects.create(**contact_data) from a complete payload. */
  function ContactFrom(data: map<ContactField, string>): (r: Contact)
    requires forall f :: f in data
    ensures forall f :: Attr(r, f) == data[f]
  {
    Contact(data[Email], data[Country], data[City], data[Street], data[HouseNumber])
  }
}
