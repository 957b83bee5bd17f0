/** electronics_network/models.py: the integrity the store keeps for the member and
    contact tables, the `level` property, and what deletions do (the on_delete rules). */
module NetworkModels {
  import opened Wrappers
  import opened NetworkSchema
  import opened Services

  /** The ContactInfo table, keyed by its `network_member`: a member has at most one contact. */
  type Contacts = map<MemberId, Contact>

  /** `name` is unique across members. */
  ghost predicate UniqueNames(m: Members) {
    forall a, b :: a in m && b in m && a != b ==> m[a].name != m[b].name
  }

  /** Some member other than `except` already carries `name` (the uniqueness lookup). */
  predicate NameTaken(m: Members, name: string, except: Option<MemberId>) {
    exists id :: id in m && Some(id) != except && m[id].name == name
  }

  /** The creator foreign key names an existing user. */
  ghost predicate OwnersExist(m: Members, users: set<UserId>) {
    forall id :: id in m ==> m[id].user in users
  }

  /** What the database enforces for the two tables: the supplier and creator foreign
      keys, the unique name, and the contact's one-to-one link. Acyclicity is not part
      of it: nothing rejects a cycle of supplier references. */
  ghost predicate Integrity(m: Members, contacts: Contacts, users: set<UserId>) {
    && Closed(m)
    && UniqueNames(m)
    && contacts.Keys <= m.Keys
    && OwnersExist(m, users)
  }

  /** The `level` property: the level service applied to the member's own supplier. */
  method MemberLevel(m: Members, id: MemberId) returns (level: nat)
    requires Closed(m) && id in m && ChainEnds(m, m[id].supplier)
    ensures level == Level(m, m[id].supplier)
    ensures level == 0 <==> m[id].supplier.None?
    ensures m[id].supplier.Some? ==>
              && ChainEnds(m, m[m[id].supplier.value].supplier)
              && level == 1 + Level(m, m[m[id].supplier.value].supplier)
  {
    level := GetSupplyChainLevelBySupplier(m, m[id].supplier);
    if m[id].supplier.Some? {
      SupplierChainEnds(m, m[id].supplier.value);
    }
  }

  /** SET_NULL on one row: a supplier reference into the deleted rows becomes null. */
  function Unlink(x: Member, gone: set<MemberId>): Member {
    if x.supplier.Some? && x.supplier.value in gone then x.(supplier := None) else x
  }

  /** The member table after the rows in `gone` are deleted. */
  function RemoveMembers(m: Members, gone: set<MemberId>): (r: Members)
    // the deleted rows are gone and every other row survives
    ensures r.Keys == m.Keys - gone
    // no surviving row refers to a deleted one
    ensures forall id :: id in r && r[id].supplier.Some? ==> r[id].supplier.value !in gone
    // a survivor keeps every field, and keeps its supplier unless that supplier was deleted
    ensures forall id :: id in r ==> r[id].(supplier := m[id].supplier) == m[id]
    ensures forall id :: id in r && m[id].supplier.Some? && m[id].supplier.value !in gone ==>
              r[id].supplier == m[id].supplier
    // a survivor whose supplier was deleted is left with no supplier (SET_NULL)
    ensures forall id :: id in r && m[id].supplier.Some? && m[id].supplier.value in gone ==>
              r[id].supplier == None
  {
    map id | id in m && id !in gone :: Unlink(m[id], gone)
  }

  /** Deleting rows keeps the database's integrity, with the contacts of the deleted
      rows cascaded away. */
  lemma RemovePreservesIntegrity(m: Members, contacts: Contacts, users: set<UserId>, gone: set<MemberId>)
    requires Integrity(m, contacts, users)
    ensures Integrity(RemoveMembers(m, gone), contacts - gone, users)
  {
    var r := RemoveMembers(m, gone);
    forall id | id in r && r[id].supplier.Some? ensures r[id].supplier.value in r {
      assert m[id].supplier == r[id].supplier;
    }
    forall a, b | a in r && b in r && a != b ensures r[a].name != r[b].name {
      assert r[a].name == m[a].name && r[b].name == m[b].name;
    }
    forall id | id in r ensures r[id].user in users {
      assert r[id].user == m[id].user;
    }
  }

  /** Deleting rows only removes supplier links, so it cannot create a cycle. */
  lemma RemovePreservesAcyclic(m: Members, gone: set<MemberId>)
    requires Closed(m) && Acyclic(m)
    ensures Closed(RemoveMembers(m, gone)) && Acyclic(RemoveMembers(m, gone))
  {
    var r := RemoveMembers(m, gone);
    var rank := SomeRank(m);
    forall id | id in r && r[id].supplier.Some? ensures r[id].supplier.value in r {
      assert m[id].supplier == r[id].supplier;
    }
    forall id | id in r && r[id].supplier.Some?
      ensures r[id].supplier.value in rank && rank[r[id].supplier.value] < rank[id]
    {
      assert m[id].supplier == r[id].supplier;
    }
    assert RankedBy(r, rank);
  }

  /** Deleting a supplier: its dependents survive, with no supplier and so at level 0. */
  lemma DeleteSupplierOrphansDependents(m: Members, supplier: MemberId, id: MemberId)
    requires Closed(m)
    requires id in m && id != supplier && m[id].supplier == Some(supplier)
    ensures Closed(RemoveMembers(m, {supplier}))
    ensures Acyclic(m) ==> Acyclic(RemoveMembers(m, {supplier}))
    ensures id in RemoveMembers(m, {supplier})
    ensures RemoveMembers(m, {supplier})[id].supplier == None
    ensures && ChainEnds(RemoveMembers(m, {supplier}), RemoveMembers(m, {supplier})[id].supplier)
            && Level(RemoveMembers(m, {supplier}), RemoveMembers(m, {supplier})[id].supplier) == 0
  {
    var r := RemoveMembers(m, {supplier});
    forall x | x in r && r[x].supplier.Some? ensures r[x].supplier.value in r {
      assert m[x].supplier == r[x].supplier;
    }
    if Acyclic(m) {
      RemovePreservesAcyclic(m, {supplier});
    }
    assert Hop(r, r[id].supplier, 0) == None;
  }

  /** The members a user created: the rows the user's deletion cascades to. */
  function OwnedBy(m: Members, user: UserId): set<MemberId> {
    set id | id in m && m[id].user == user
  }

  /** Deleting a user deletes exactly the members whose creator the user is, and the
      creator key of every survivor still names a remaining user. */
  lemma DeleteUserCascades(m: Members, contacts: Contacts, users: set<UserId>, user: UserId)
    requires Integrity(m, contacts, users)
    ensures var r := RemoveMembers(m, OwnedBy(m, user));
      && (forall id :: id in r <==> id in m && m[id].user != user)
      && Integrity(r, contacts - OwnedBy(m, user), users - {user})
  {
    var gone := OwnedBy(m, user);
    var r := RemoveMembers(m, gone);
    RemovePreservesIntegrity(m, contacts, users, gone);
    forall id | id in r ensures r[id].user in users - {user} {
      assert r[id].user == m[id].user;
    }
  }
}
