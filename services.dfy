/** electronics_network/services.py: the level of a member, found by following
    supplier references until a member without a supplier is reached. */
module Services {
  import opened Wrappers
  import opened NetworkSchema

  /** The SupplyChainMember table, keyed by primary key. */
  type Members = map<MemberId, Member>

  /** The supplier foreign key: every supplier reference names a stored member. */
  ghost predicate Closed(m: Members) {
    forall id :: id in m && m[id].supplier.Some? ==> m[id].supplier.value in m
  }

  /** A reference that is either null or names a stored member. */
  predicate InStore(m: Members, s: Option<MemberId>) {
    s.Some? ==> s.value in m
  }

  /** `rank` strictly decreases along every supplier link. */
  ghost predicate RankedBy(m: Members, rank: map<MemberId, nat>) {
    && m.Keys <= rank.Keys
    && forall id :: id in m && m[id].supplier.Some? ==>
         m[id].supplier.value in rank && rank[m[id].supplier.value] < rank[id]
  }

  /** The supplier graph has no cycle. Nothing in the system enforces this. */
  ghost predicate Acyclic(m: Members) {
    exists rank :: RankedBy(m, rank)
  }

  ghost function SomeRank(m: Members): (rank: map<MemberId, nat>)
    requires Acyclic(m)
    ensures RankedBy(m, rank)
  {
    var rank :| RankedBy(m, rank); rank
  }

  /** The reference reached after `n` supplier hops from `s` (None once the chain has ended). */
  function Hop(m: Members, s: Option<MemberId>, n: nat): (r: Option<MemberId>)
    requires Closed(m) && InStore(m, s)
    ensures InStore(m, r)
    decreases n
  {
    if n == 0 || s.None? then s else Hop(m, m[s.value].supplier, n - 1)
  }

  /** One more hop from where `n` hops led. */
  lemma {:induction false} HopStep(m: Members, s: Option<MemberId>, n: nat)
    requires Closed(m) && InStore(m, s)
    requires Hop(m, s, n).Some?
    ensures Hop(m, s, n + 1) == m[Hop(m, s, n).value].supplier
    decreases n
  {
    if n > 0 {
      HopStep(m, m[s.value].supplier, n - 1);
    }
  }

  /** Hops compose. */
  lemma {:induction false} HopAdd(m: Members, s: Option<MemberId>, a: nat, b: nat)
    requires Closed(m) && InStore(m, s)
    ensures Hop(m, s, a + b) == Hop(m, Hop(m, s, a), b)
    decreases a
  {
    if a > 0 && s.Some? {
      HopAdd(m, m[s.value].supplier, a - 1, b);
    }
  }

  /** Once the chain has ended it stays ended. */
  lemma HopNoneStays(m: Members, s: Option<MemberId>, n: nat, k: nat)
    requires Closed(m) && InStore(m, s)
    requires Hop(m, s, n) == None && n <= k
    ensures Hop(m, s, k) == None
  {
    HopAdd(m, s, n, k - n);
  }

  /** After `l` hops the chain from `s` has ended, and after fewer it had not. */
  ghost predicate EndsFirstAt(m: Members, s: Option<MemberId>, l: nat)
    requires Closed(m) && InStore(m, s)
  {
    Hop(m, s, l) == None && forall k: nat :: k < l ==> Hop(m, s, k).Some?
  }

  /** A chain that ends has a first point where it ends. */
  lemma {:induction false} FirstEnd(m: Members, s: Option<MemberId>, n: nat)
    requires Closed(m) && InStore(m, s)
    requires Hop(m, s, n) == None
    ensures exists l: nat :: EndsFirstAt(m, s, l)
    decreases n
  {
    if n > 0 && Hop(m, s, n - 1) == None {
      FirstEnd(m, s, n - 1);
    } else {
      forall k: nat | k < n ensures Hop(m, s, k).Some? {
        if Hop(m, s, k) == None {
          HopNoneStays(m, s, k, n - 1);
        }
      }
      assert EndsFirstAt(m, s, n);
    }
  }

  /** The walk that starts at reference `s` reaches a member without supplier. */
  ghost predicate ChainEnds(m: Members, s: Option<MemberId>)
    requires Closed(m) && InStore(m, s)
  {
    exists n: nat :: Hop(m, s, n) == None
  }

  /** The number of hops after which the walk from `s` first reaches no supplier. */
  ghost function EndAt(m: Members, s: Option<MemberId>): (l: nat)
    requires Closed(m) && InStore(m, s) && ChainEnds(m, s)
    ensures EndsFirstAt(m, s, l)
  {
    var n: nat :| Hop(m, s, n) == None;
    FirstEnd(m, s, n);
    var l: nat :| EndsFirstAt(m, s, l);
    l
  }

  /** The first end of a walk is unique. */
  lemma FirstEndUnique(m: Members, s: Option<MemberId>, a: nat, b: nat)
    requires Closed(m) && InStore(m, s)
    requires EndsFirstAt(m, s, a) && EndsFirstAt(m, s, b)
    ensures a == b
  {
  }

  /** When the walk from a member ends, so does the walk from its supplier, one hop sooner. */
  lemma SupplierChainEnds(m: Members, id: MemberId)
    requires Closed(m) && id in m && ChainEnds(m, Some(id))
    ensures ChainEnds(m, m[id].supplier)
    ensures EndAt(m, m[id].supplier) + 1 == EndAt(m, Some(id))
  {
    var t := m[id].supplier;
    var l := EndAt(m, Some(id));
    assert l > 0 by { assert Hop(m, Some(id), 0) == Some(id); }
    assert Hop(m, Some(id), l) == Hop(m, t, l - 1);
    assert ChainEnds(m, t);
    forall k: nat | k < l - 1 ensures Hop(m, t, k).Some? {
      assert Hop(m, Some(id), k + 1) == Hop(m, t, k);
    }
    assert EndsFirstAt(m, t, l - 1);
    FirstEndUnique(m, t, l - 1, EndAt(m, t));
  }

  /** The level reached from reference `s`: 0 for no supplier, otherwise one more
      than the level of the supplier's own supplier reference. It is defined whenever
      the walk from `s` ends, whatever the rest of the store holds. */
  function Level(m: Members, s: Option<MemberId>): nat
    requires Closed(m) && InStore(m, s) && ChainEnds(m, s)
    decreases EndAt(m, s)
  {
    match s
    case None => 0
    case Some(id) =>
      SupplierChainEnds(m, id);
      1 + Level(m, m[id].supplier)
  }

  /** get_supply_chain_level_by_supplier: the `while supplier` loop, which only
      reassigns its two locals. A model instance is always truthy, so the guard is
      "the reference is not null". It terminates exactly when the walk ends. */
  method GetSupplyChainLevelBySupplier(m: Members, supplier: Option<MemberId>) returns (level: nat)
    requires Closed(m) && InStore(m, supplier) && ChainEnds(m, supplier)
    ensures level == Level(m, supplier)
    ensures Hop(m, supplier, level) == None
  {
    level := 0;
    var s := supplier;
    while s.Some?
      invariant InStore(m, s) && ChainEnds(m, s)
      invariant level + Level(m, s) == Level(m, supplier)
      invariant Hop(m, supplier, level) == s
      decreases EndAt(m, s)
    {
      SupplierChainEnds(m, s.value);
      HopStep(m, supplier, level);
      level := level + 1;
      s := m[s.value].supplier;
    }
  }

  /** The level is the number of hops to a member without supplier: after exactly
      that many hops the chain has ended, and after fewer it has not. */
  lemma {:induction false} LevelCountsHops(m: Members, s: Option<MemberId>)
    requires Closed(m) && InStore(m, s) && ChainEnds(m, s)
    ensures Hop(m, s, Level(m, s)) == None
    ensures forall k: nat :: k < Level(m, s) ==> Hop(m, s, k).Some?
    ensures Level(m, s) == EndAt(m, s)
    decreases EndAt(m, s)
  {
    match s
    case None =>
      FirstEndUnique(m, s, 0, EndAt(m, s));
    case Some(id) =>
      var t := m[id].supplier;
      SupplierChainEnds(m, id);
      LevelCountsHops(m, t);
      forall k: nat | k < Level(m, s) ensures Hop(m, s, k).Some? {
        if k > 0 {
          assert Hop(m, s, k) == Hop(m, t, k - 1);
        }
      }
  }

  /** The termination measure of a walk in an acyclic store. */
  ghost function Height(m: Members, s: Option<MemberId>): nat
    requires Closed(m) && Acyclic(m) && InStore(m, s)
  {
    if s.Some? then SomeRank(m)[s.value] + 1 else 0
  }

  /** In an acyclic store every walk ends. */
  lemma {:induction false} AcyclicChainEnds(m: Members, s: Option<MemberId>)
    requires Closed(m) && Acyclic(m) && InStore(m, s)
    ensures ChainEnds(m, s)
    decreases Height(m, s)
  {
    match s
    case None =>
      assert Hop(m, s, 0) == None;
    case Some(id) =>
      var t := m[id].supplier;
      AcyclicChainEnds(m, t);
      var n: nat :| Hop(m, t, n) == None;
      assert Hop(m, s, n + 1) == Hop(m, t, n);
  }

  /** Acyclicity is exactly the condition under which the loop terminates from every
      member: the rank exists iff every supplier chain reaches a member without supplier. */
  lemma AcyclicIffChainsEnd(m: Members)
    requires Closed(m)
    ensures Acyclic(m) <==> forall id :: id in m ==> ChainEnds(m, Some(id))
  {
    if Acyclic(m) {
      forall id | id in m ensures ChainEnds(m, Some(id)) {
        AcyclicChainEnds(m, Some(id));
      }
    }
    if forall id :: id in m ==> ChainEnds(m, Some(id)) {
      var rank := map id | id in m :: EndAt(m, Some(id));
      forall id | id in m && m[id].supplier.Some?
        ensures m[id].supplier.value in rank && rank[m[id].supplier.value] < rank[id]
      {
        SupplierChainEnds(m, id);
      }
      assert RankedBy(m, rank);
    }
  }

  /** Along the hops from `id`, the rank only goes down. */
  lemma {:induction false} RankDecreasesAlongHops(m: Members, rank: map<MemberId, nat>, id: MemberId, n: nat)
    requires Closed(m) && RankedBy(m, rank) && id in m
    requires n >= 1 && Hop(m, Some(id), n).Some?
    ensures rank[Hop(m, Some(id), n).value] < rank[id]
    decreases n
  {
    var sid := m[id].supplier.value;
    if n > 1 {
      assert Hop(m, Some(id), n) == Hop(m, Some(sid), n - 1);
      RankDecreasesAlongHops(m, rank, sid, n - 1);
    }
  }

  /** With a cycle through `id` the loop guard never becomes false: there is no cycle
      guard, so the walk does not terminate, and the store is not acyclic. */
  lemma CycleNeverEnds(m: Members, id: MemberId, n: nat)
    requires Closed(m) && id in m
    requires n >= 1 && Hop(m, Some(id), n) == Some(id)
    ensures forall k: nat :: Hop(m, Some(id), k).Some?
    ensures !Acyclic(m)
  {
    forall k: nat ensures Hop(m, Some(id), k).Some? {
      CycleHop(m, id, n, k);
    }
    if Acyclic(m) {
      RankDecreasesAlongHops(m, SomeRank(m), id, n);
    }
  }

  lemma {:induction false} CycleHop(m: Members, id: MemberId, n: nat, k: nat)
    requires Closed(m) && id in m
    requires n >= 1 && Hop(m, Some(id), n) == Some(id)
    ensures Hop(m, Some(id), k).Some?
    decreases k
  {
    if k >= n {
      HopAdd(m, Some(id), n, k - n);
      CycleHop(m, id, n, k - n);
    } else if Hop(m, Some(id), k) == None {
      HopNoneStays(m, Some(id), k, n);
    }
  }

  /** A walk that reaches a member on a cycle never ends, so the loop started there does not
      terminate, although the starting member need not lie on the cycle. */
  lemma ChainIntoCycleNeverEnds(m: Members, s: Option<MemberId>, j: nat, id: MemberId, n: nat)
    requires Closed(m) && InStore(m, s) && id in m
    requires Hop(m, s, j) == Some(id)
    requires n >= 1 && Hop(m, Some(id), n) == Some(id)
    ensures !ChainEnds(m, s)
  {
    if ChainEnds(m, s) {
      var k: nat :| Hop(m, s, k) == None;
      HopNoneStays(m, s, k, j + k);
      HopAdd(m, s, j, k);
      CycleHop(m, id, n, k);
    }
  }

  /** The level of a member is computed even when some other member of the store
      lies on a cycle: only the walked chain has to end. */
  lemma LevelBesideACycle(a: Member, b: Member)
    requires a.supplier == None && b.supplier == Some(1)
    ensures Closed(map[0 := a, 1 := b]) && !Acyclic(map[0 := a, 1 := b])
    ensures ChainEnds(map[0 := a, 1 := b], Some(0))
    ensures Level(map[0 := a, 1 := b], Some(0)) == 1
  {
    var m := map[0 := a, 1 := b];
    assert Hop(m, Some(1), 1) == Some(1);
    CycleNeverEnds(m, 1, 1);
    assert Hop(m, Some(0), 1) == None;
  }
}
