/** Ancestor and descendant limits of the mempool, and why admission keeps the latter. */
module ChainLimits {
  import opened Types
  import opened SpendGraph

  const MAX_ANCESTOR_COUNT: nat := 25
  const MAX_DESCENDANT_COUNT: nat := 25

  /** The transaction spends pool entry p directly. */
  ghost predicate HasParent(pool: Pool, tx: Tx, p: Id) {
    p in pool && SpendsFrom(tx, p)
  }

  /** The transaction spends a, directly or through other entries. */
  ghost predicate IsAbove(pool: Pool, tx: Tx, a: Id) {
    exists p :: HasParent(pool, tx, p) && (a == p || IsAncestor(pool, p, a))
  }

  ghost predicate DeepAncestry(pool: Pool, tx: Tx) {
    exists p :: HasParent(pool, tx, p) && |Ancestors(pool, p)| + 1 >= MAX_ANCESTOR_COUNT
  }

  ghost predicate CrowdedAncestor(pool: Pool, tx: Tx) {
    exists a :: IsAbove(pool, tx, a) && |Descendants(pool, a)| + 1 >= MAX_DESCENDANT_COUNT
  }

  /** No entry has more than 24 descendants in the pool. */
  ghost predicate Limited(pool: Pool) {
    forall a | a in pool :: |Descendants(pool, a)| < MAX_DESCENDANT_COUNT
  }

  /** No entry spends an output of the transaction. */
  ghost predicate Childless(pool: Pool, id: Id) {
    forall x | x in pool :: !SpendsFrom(pool[x].tx, id)
  }

  // ----- The check -----

  method CountDescendants(pool: Pool, id: Id) returns (n: nat)
    ensures n == |Descendants(pool, id)|
  {
    var ids := FindDescendantTxIds(pool, id);
    forall x
      ensures x in Elements(ids) <==> x in Descendants(pool, id)
    {
      if IsDescendant(pool, id, x) {
        DescendantIsEntry(pool, id, x);
      }
    }
    assert Elements(ids) == Descendants(pool, id);
    LengthIsCount(ids);
    n := |ids|;
  }

  lemma AncestorsAre(pool: Pool, id: Id, ids: seq<Id>)
    requires NoDuplicates(ids) && forall a :: a in ids <==> IsAncestor(pool, id, a)
    ensures |ids| == |Ancestors(pool, id)|
  {
    forall x
      ensures x in Elements(ids) <==> x in Ancestors(pool, id)
    {
      if IsAncestor(pool, id, x) {
        AncestorIsEntry(pool, id, x);
      }
    }
    assert Elements(ids) == Ancestors(pool, id);
    LengthIsCount(ids);
  }

  /** The first loop: the longest ancestry of a single parent. */
  method AncestorCount(pool: Pool, tx: Tx) returns (count: nat)
    ensures count >= MAX_ANCESTOR_COUNT <==> DeepAncestry(pool, tx)
  {
    count := 0;
    for i := 0 to |tx.ins|
      invariant count >= MAX_ANCESTOR_COUNT ==> DeepAncestry(pool, tx)
      invariant forall j | 0 <= j < i && tx.ins[j].toSpend.Some? && tx.ins[j].toSpend.value.txId in pool ::
                  |Ancestors(pool, tx.ins[j].toSpend.value.txId)| + 1 <= count
    {
      if tx.ins[i].toSpend.Some? {
        var parentId := tx.ins[i].toSpend.value.txId;
        if parentId in pool {
          var parentAncestors := FindAncestorTxIds(pool, parentId);
          AncestorsAre(pool, parentId, parentAncestors);
          assert HasParent(pool, tx, parentId);
          var depth := |parentAncestors| + 1;
          if depth > count {
            count := depth;
          }
        }
      }
    }
  }

  ghost predicate InLineage(pool: Pool, p: Id, a: Id) {
    a == p || IsAncestor(pool, p, a)
  }

  /** The inner part of the second loop: a parent and all its ancestors. */
  method LineageIsCrowded(pool: Pool, parentId: Id) returns (crowded: bool)
    ensures crowded <==> exists a :: InLineage(pool, parentId, a) &&
                                     |Descendants(pool, a)| + 1 >= MAX_DESCENDANT_COUNT
  {
    hide Descendants, IsAncestor, NoDuplicates;
    var ancestors := FindAncestorTxIds(pool, parentId);
    ancestors := ancestors + [parentId];
    for k := 0 to |ancestors|
      invariant forall j | 0 <= j < k :: |Descendants(pool, ancestors[j])| + 1 < MAX_DESCENDANT_COUNT
    {
      var n := CountDescendants(pool, ancestors[k]);
      if n + 1 >= MAX_DESCENDANT_COUNT {
        assert ancestors[k] in ancestors;
        assert InLineage(pool, parentId, ancestors[k]);
        return true;
      }
    }
    assert forall a | InLineage(pool, parentId, a) :: a in ancestors;
    crowded := false;
  }

  /** violates_chain_limits. */
  method ViolatesChainLimits(pool: Pool, tx: Tx) returns (violates: bool)
    ensures violates <==> DeepAncestry(pool, tx) || CrowdedAncestor(pool, tx)
  {
    hide DeepAncestry, IsAncestor, Descendants;
    var count := AncestorCount(pool, tx);
    if count >= MAX_ANCESTOR_COUNT {
      return true;
    }
    for i := 0 to |tx.ins|
      invariant forall j, a | 0 <= j < i && tx.ins[j].toSpend.Some? && tx.ins[j].toSpend.value.txId in pool &&
                              (a == tx.ins[j].toSpend.value.txId || IsAncestor(pool, tx.ins[j].toSpend.value.txId, a)) ::
                  |Descendants(pool, a)| + 1 < MAX_DESCENDANT_COUNT
    {
      if tx.ins[i].toSpend.Some? {
        var parentId := tx.ins[i].toSpend.value.txId;
        if parentId in pool {
          var crowded := LineageIsCrowded(pool, parentId);
          if crowded {
            assert HasParent(pool, tx, parentId);
            return true;
          }
        }
      }
    }
    violates := false;
  }

  // ----- Adding and removing entries -----

  /** In a pool with a new, childless entry, a path that does not end at it is an old path. */
  lemma OldPath(pool: Pool, e: Entry, p: seq<Id>)
    requires Childless(pool, e.tx.id) && !SpendsFrom(e.tx, e.tx.id) && e.tx.id !in pool
    requires |p| >= 2 && IsPath(ChildEdge(pool[e.tx.id := e]), p)
    ensures forall i | 0 <= i < |p| - 1 :: p[i] != e.tx.id
    ensures IsPath(ChildEdge(pool), p[..|p| - 1])
    ensures p[|p| - 1] != e.tx.id ==> IsPath(ChildEdge(pool), p)
  {
    var pool' := pool[e.tx.id := e];
    forall i | 0 <= i < |p| - 1
      ensures p[i] != e.tx.id
    {
      assert ChildEdge(pool')(p[i], p[i + 1]);
    }
    forall i | 0 <= i < |p| - 1 && p[i + 1] != e.tx.id
      ensures ChildEdge(pool)(p[i], p[i + 1])
    {
      assert ChildEdge(pool')(p[i], p[i + 1]);
    }
  }

  /** Walking a spend path backwards. */
  lemma PathUp(pool: Pool, p: seq<Id>)
    requires |p| >= 2 && p[0] in pool && IsPath(ChildEdge(pool), p)
    ensures IsAncestor(pool, p[|p| - 1], p[0])
  {
    forall i | 0 <= i < |p| - 1
      ensures ParentEdge(pool)(p[i + 1], p[i])
    {
      assert ChildEdge(pool)(p[i], p[i + 1]);
      assert i > 0 ==> ChildEdge(pool)(p[i - 1], p[i]);
    }
    ReversedPath(ChildEdge(pool), ParentEdge(pool), p);
  }

  /** The only new descendant is the new entry, and only its own ancestors gain it. */
  lemma NewDescendant(pool: Pool, e: Entry, a: Id, x: Id)
    requires Childless(pool, e.tx.id) && !SpendsFrom(e.tx, e.tx.id) && e.tx.id !in pool
    requires IsDescendant(pool[e.tx.id := e], a, x)
    ensures a != e.tx.id
    ensures if x == e.tx.id then a in pool ==> IsAbove(pool, e.tx, a) else IsDescendant(pool, a, x)
  {
    var pool' := pool[e.tx.id := e];
    var p :| |p| >= 2 && p[0] == a && p[|p| - 1] == x && IsPath(ChildEdge(pool'), p);
    OldPath(pool, e, p);
    var n := |p| - 1;
    if x == e.tx.id && a in pool {
      var parent := p[n - 1];
      assert ChildEdge(pool')(p[n - 1], p[n]);
      var q := p[..n];
      if n >= 2 {
        assert ChildEdge(pool)(q[n - 2], q[n - 1]);
        PathUp(pool, q);
      }
      assert HasParent(pool, e.tx, parent);
    }
  }

  /** Admission within the limits keeps them for every entry. */
  lemma AddKeepsLimits(pool: Pool, e: Entry)
    requires Limited(pool) && e.tx.id !in pool
    requires Childless(pool, e.tx.id) && !SpendsFrom(e.tx, e.tx.id)
    requires !CrowdedAncestor(pool, e.tx)
    ensures Limited(pool[e.tx.id := e])
  {
    hide IsDescendant, IsAbove, Childless;
    var pool' := pool[e.tx.id := e];
    forall a | a in pool'
      ensures |Descendants(pool', a)| < MAX_DESCENDANT_COUNT
    {
      var before, after := Descendants(pool, a), Descendants(pool', a);
      forall x | x in after
        ensures a != e.tx.id && (x == e.tx.id ==> IsAbove(pool, e.tx, a)) && (x != e.tx.id ==> x in before)
      {
        NewDescendant(pool, e, a, x);
      }
      if a == e.tx.id {
        assert after == {};
      } else if e.tx.id in after {
        SubsetSize(after, before + {e.tx.id});
      } else {
        SubsetSize(after, before);
      }
    }
  }

  lemma FewerDescendants(pool: Pool, sub: Pool, a: Id)
    requires forall x | x in sub :: x in pool && sub[x] == pool[x]
    ensures Descendants(sub, a) <= Descendants(pool, a)
    ensures |Descendants(sub, a)| <= |Descendants(pool, a)|
  {
    forall x | x in Descendants(sub, a)
      ensures x in Descendants(pool, a)
    {
      SubgraphReaches(ChildEdge(sub), ChildEdge(pool), a, x);
    }
    SubsetSize(Descendants(sub, a), Descendants(pool, a));
  }

  lemma RemoveKeepsLimits(pool: Pool, sub: Pool)
    requires Limited(pool) && forall x | x in sub :: x in pool && sub[x] == pool[x]
    ensures Limited(sub)
  {
    hide Descendants;
    forall a | a in sub
      ensures |Descendants(sub, a)| < MAX_DESCENDANT_COUNT
    {
      FewerDescendants(pool, sub, a);
    }
  }

  /** The limits are checked before conflicting entries go; fewer entries cannot break them. */
  lemma StillUncrowded(pool: Pool, sub: Pool, tx: Tx)
    requires !CrowdedAncestor(pool, tx) && forall x | x in sub :: x in pool && sub[x] == pool[x]
    ensures !CrowdedAncestor(sub, tx)
  {
    hide Descendants;
    forall a | IsAbove(sub, tx, a)
      ensures |Descendants(sub, a)| + 1 < MAX_DESCENDANT_COUNT
    {
      var p :| HasParent(sub, tx, p) && (a == p || IsAncestor(sub, p, a));
      assert HasParent(pool, tx, p);
      if a != p {
        SubgraphReaches(ParentEdge(sub), ParentEdge(pool), p, a);
        assert IsAncestor(pool, p, a);
      }
      assert IsAbove(pool, tx, a);
      FewerDescendants(pool, sub, a);
    }
  }
}
