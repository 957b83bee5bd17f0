/** electronics_network/admin.py: the `clear_debt` bulk action and the admin change
    form, in which `debt` and `created_at` are read-only. */
module NetworkAdmin {
  import opened Wrappers
  import opened NetworkSchema
  import opened Services
  import opened NetworkModels

  /** The member table after `queryset.update(debt=0)` over the selected rows. */
  function ClearedDebt(m: Members, selection: set<MemberId>): (r: Members)
    ensures r.Keys == m.Keys
    // every selected row owes nothing afterwards
    ensures forall id :: id in selection && id in m ==> r[id].debt == 0
    // rows outside the selection are untouched
    ensures forall id :: id in m && id !in selection ==> r[id] == m[id]
    // no field other than `debt` changes anywhere
    ensures forall id :: id in m ==> r[id].(debt := m[id].debt) == m[id]
  {
    map id | id in m :: if id in selection then m[id].(debt := 0) else m[id]
  }

  /** The count `update` reports: the selected rows it matched. */
  function ClearedCount(m: Members, selection: set<MemberId>): nat {
    |selection * m.Keys|
  }

  /** A selection taken from the table (as an admin queryset is) is counted in full. */
  lemma ClearedCountOfSelection(m: Members, selection: set<MemberId>)
    requires selection <= m.Keys
    ensures ClearedCount(m, selection) == |selection|
  {
    assert selection * m.Keys == selection;
  }

  /** Clearing twice is clearing once. */
  lemma ClearDebtIdempotent(m: Members, selection: set<MemberId>)
    ensures ClearedDebt(ClearedDebt(m, selection), selection) == ClearedDebt(m, selection)
  {
    var once := ClearedDebt(m, selection);
    var twice := ClearedDebt(once, selection);
    forall id | id in m ensures twice[id] == once[id] {
      if id in selection {
        assert once[id].debt == 0;
      }
    }
  }

  /** Clearing debt changes no key, name, supplier or creator, so the database's
      integrity and the shape of the supplier graph are kept. */
  lemma ClearDebtPreservesIntegrity(m: Members, contacts: Contacts, users: set<UserId>, selection: set<MemberId>)
    requires Integrity(m, contacts, users)
    ensures Integrity(ClearedDebt(m, selection), contacts, users)
    ensures Acyclic(m) ==> Acyclic(ClearedDebt(m, selection))
  {
    var r := ClearedDebt(m, selection);
    forall id | id in m ensures r[id].supplier == m[id].supplier && r[id].name == m[id].name && r[id].user == m[id].user {
      assert r[id].(debt := m[id].debt) == m[id];
    }
    if Acyclic(m) {
      var rank := SomeRank(m);
      assert RankedBy(r, rank);
    }
  }

  /** What the change form posts: every editable column of the row. */
  datatype ChangeForm = ChangeForm(name: string, kind: MemberType, supplier: Option<MemberId>, user: UserId)

  /** Saving the change form: the editable columns are written, the read-only ones kept,
      so `clear_debt` is the admin's only way to change a debt. */
  function SaveChangeForm(x: Member, form: ChangeForm): (r: Member)
    ensures r.debt == x.debt && r.createdAt == x.createdAt
    ensures r.name == form.name && r.kind == form.kind && r.supplier == form.supplier && r.user == form.user
  {
    x.(name := form.name, kind := form.kind, supplier := form.supplier, user := form.user)
  }
}
