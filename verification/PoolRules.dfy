/** What the mempool keeps true: sums over entries, coherence, families of descendants, conflicts.
    The UTXO map and the chain stay fixed. */
module PoolRules {
  import opened Types
  import opened TxRules
  import opened Ledger
  import opened SpendGraph
  import opened ChainLimits

  const MAX_MEMPOOL_SIZE: nat := 300 * 1024 * 1024
  const DUST_THRESHOLD: nat := 546
  const INCREMENTAL_RELAY_FEE: nat := 1000
  const TX_EXPIRE_SECS: int := 60 * 60 * 24 * 14

  /** The transactions alone, as lookups see the pool. */
  function PoolTxs(pool: Pool): map<Id, Tx> {
    map x | x in pool :: pool[x].tx
  }

  // ----- Sums over a pool -----

  ghost function Sum(pool: Pool, f: Entry -> nat): nat
    decreases |pool|
  {
    if pool == map[] then 0
    else
      var x :| x in pool;
      SmallerPool(pool, x);
      f(pool[x]) + Sum(pool - {x}, f)
  }

  lemma SmallerPool(pool: Pool, x: Id)
    requires x in pool
    ensures |pool - {x}| < |pool|
  {
    assert pool.Keys == (pool - {x}).Keys + {x};
  }

  lemma {:induction false} SumWithout(pool: Pool, f: Entry -> nat, x: Id)
    requires x in pool
    ensures Sum(pool, f) == f(pool[x]) + Sum(pool - {x}, f)
    decreases |pool|
  {
    var y :| y in pool && Sum(pool, f) == f(pool[y]) + Sum(pool - {y}, f);
    if y != x {
      SmallerPool(pool, x);
      SmallerPool(pool, y);
      SumWithout(pool - {y}, f, x);
      SumWithout(pool - {x}, f, y);
      assert pool - {y} - {x} == pool - {x} - {y};
    }
  }

  lemma SumWith(pool: Pool, f: Entry -> nat, x: Id, e: Entry)
    requires x !in pool
    ensures Sum(pool[x := e], f) == Sum(pool, f) + f(e)
  {
    SumWithout(pool[x := e], f, x);
    assert pool[x := e] - {x} == pool;
  }

  ghost function Restrict(pool: Pool, s: set<Id>): Pool {
    map x | x in pool && x in s :: pool[x]
  }

  lemma {:induction false} SumSplits(pool: Pool, f: Entry -> nat, s: set<Id>)
    ensures Sum(pool, f) == Sum(Restrict(pool, s), f) + Sum(pool - s, f)
    decreases |pool|
  {
    if pool == map[] {
      assert Restrict(pool, s) == map[] && pool - s == map[];
    } else {
      var x :| x in pool;
      SmallerPool(pool, x);
      SumSplits(pool - {x}, f, s);
      SumWithout(pool, f, x);
      if x in s {
        SumWithout(Restrict(pool, s), f, x);
        assert Restrict(pool, s) - {x} == Restrict(pool - {x}, s);
        assert pool - {x} - s == pool - s;
      } else {
        SumWithout(pool - s, f, x);
        assert pool - s - {x} == pool - {x} - s;
        assert Restrict(pool - {x}, s) == Restrict(pool, s);
      }
    }
  }

  lemma SumGrows(pool: Pool, f: Entry -> nat, a: set<Id>, b: set<Id>)
    requires a <= b
    ensures Sum(Restrict(pool, a), f) <= Sum(Restrict(pool, b), f)
  {
    SumSplits(Restrict(pool, b), f, a);
    assert Restrict(Restrict(pool, b), a) == Restrict(pool, a);
  }

  lemma SumAdds(pool: Pool, f: Entry -> nat, ids: set<Id>, id: Id)
    requires id in pool && id !in ids
    ensures Sum(Restrict(pool, ids + {id}), f) == Sum(Restrict(pool, ids), f) + f(pool[id])
  {
    assert Restrict(pool, ids + {id}) == Restrict(pool, ids)[id := pool[id]];
    SumWith(Restrict(pool, ids), f, id, pool[id]);
  }

  lemma SumOfUnion(pool: Pool, f: Entry -> nat, a: set<Id>, b: set<Id>)
    ensures Sum(Restrict(pool, a + b), f) <= Sum(Restrict(pool, a), f) + Sum(Restrict(pool, b), f)
  {
    var both := Restrict(pool, a + b);
    SumSplits(both, f, a);
    assert Restrict(both, a) == Restrict(pool, a);
    SumSplits(Restrict(pool, b), f, a);
    assert Restrict(pool, b) - a == both - a;
  }

  ghost function SizeOf(): Entry -> nat {
    (e: Entry) => e.size
  }

  ghost function FeeOf(): Entry -> nat {
    (e: Entry) => e.fee
  }

  // ----- Coherence -----

  ghost predicate EntryOk(rules: Rules, id: Id, e: Entry) {
    && e.tx.id == id && e.size == rules.txSize(e.tx) <= MAX_BLOCK_SIZE
    && e.feeRate == if e.size > 0 then e.fee / e.size else 0
  }

  ghost predicate Keyed(pool: Pool) {
    forall x | x in pool :: pool[x].tx.id == x
  }

  ghost predicate EntriesOk(rules: Rules, pool: Pool) {
    forall x | x in pool :: EntryOk(rules, x, pool[x])
  }

  ghost predicate InputsResolve(utxos: UtxoMap, pool: Pool, tx: Tx) {
    forall i | 0 <= i < |tx.ins| ::
      tx.ins[i].toSpend.Some? && (tx.ins[i].toSpend.value in utxos || tx.ins[i].toSpend.value.txId in pool)
  }

  /** Every entry's inputs come from the UTXO map or from another entry. */
  ghost predicate Resolved(utxos: UtxoMap, pool: Pool) {
    forall x | x in pool :: InputsResolve(utxos, pool, pool[x].tx)
  }

  /** No two entries spend the same output. */
  ghost predicate NoDoubleSpend(pool: Pool) {
    forall x, y | x in pool && y in pool && x != y :: InPoints(pool[x].tx) !! InPoints(pool[y].tx)
  }

  ghost predicate Coherent(rules: Rules, utxos: UtxoMap, pool: Pool) {
    EntriesOk(rules, pool) && Resolved(utxos, pool) && NoDoubleSpend(pool) && Limited(pool)
  }

  /** An order of arrival in which entries come after what they spend: the pool is acyclic. */
  ghost predicate Ranked(pool: Pool, rank: map<Id, nat>, next: nat) {
    && (forall x | x in pool :: x in rank && rank[x] < next)
    && (forall x, y | x in pool && y in pool && SpendsFrom(pool[x].tx, y) :: rank[y] < rank[x])
  }

  /** Entries were only removed, and no entry that is left spends one that went. */
  ghost predicate ClosedRemoval(pool: Pool, left: Pool) {
    && (forall x | x in left :: x in pool && left[x] == pool[x])
    && (forall x, y | x in left && y in pool && SpendsFrom(pool[x].tx, y) :: y in left)
  }

  lemma ClosedTransitive(a: Pool, b: Pool, c: Pool)
    requires ClosedRemoval(a, b) && ClosedRemoval(b, c)
    ensures ClosedRemoval(a, c)
  {
  }

  lemma ClosedKeepsCoherent(rules: Rules, utxos: UtxoMap, pool: Pool, left: Pool)
    requires Coherent(rules, utxos, pool) && ClosedRemoval(pool, left)
    ensures Coherent(rules, utxos, left)
  {
    RemoveKeepsLimits(pool, left);
    hide Limited, EntryOk, InPoints;
    forall x, i | x in left && 0 <= i < |left[x].tx.ins|
      ensures left[x].tx.ins[i].toSpend.Some?
      ensures left[x].tx.ins[i].toSpend.value in utxos || left[x].tx.ins[i].toSpend.value.txId in left
    {
      assert InputsResolve(utxos, pool, pool[x].tx);
      var p := left[x].tx.ins[i].toSpend.value;
      if p !in utxos {
        assert SpendsFrom(pool[x].tx, p.txId);
      }
    }
  }

  lemma RankedKeeps(pool: Pool, left: Pool, rank: map<Id, nat>, next: nat)
    requires Ranked(pool, rank, next) && ClosedRemoval(pool, left)
    ensures Ranked(left, rank, next)
  {
  }

  /** Removing entries together with all their descendants is closed. */
  lemma RemoveWithDescendants(pool: Pool, ids: set<Id>)
    requires forall a, x | a in ids && IsDescendant(pool, a, x) :: x in ids
    ensures ClosedRemoval(pool, pool - ids)
  {
    var left := pool - ids;
    forall x, y | x in left && y in pool && SpendsFrom(pool[x].tx, y)
      ensures y in left
    {
      if y in ids && x != y {
        OneEdge(ChildEdge(pool), y, x);
        assert IsDescendant(pool, y, x);
      }
    }
  }

  lemma DescendantsCompose(pool: Pool, a: Id, b: Id, c: Id)
    requires IsDescendant(pool, a, b) && IsDescendant(pool, b, c)
    ensures IsDescendant(pool, a, c)
  {
    var edge := ChildEdge(pool);
    var p :| |p| >= 2 && p[0] == a && p[|p| - 1] == b && IsPath(edge, p);
    var q :| |q| >= 2 && q[0] == b && q[|q| - 1] == c && IsPath(edge, q);
    var r := p + q[1..];
    forall i | 0 <= i < |r| - 1
      ensures edge(r[i], r[i + 1])
    {
      if i < |p| - 1 {
        assert edge(p[i], p[i + 1]);
      } else {
        assert edge(q[i - |p| + 1], q[i - |p| + 2]);
      }
    }
    assert IsPath(edge, r);
  }

  // ----- Insertion -----

  ghost predicate NotMined(utxos: UtxoMap, id: Id) {
    forall p | p in utxos :: p.txId != id
  }

  lemma NewIsChildless(utxos: UtxoMap, pool: Pool, id: Id)
    requires Resolved(utxos, pool) && NotMined(utxos, id) && id !in pool
    ensures Childless(pool, id)
  {
    forall x | x in pool
      ensures !SpendsFrom(pool[x].tx, id)
    {
      assert InputsResolve(utxos, pool, pool[x].tx);
    }
  }

  lemma InsertKeepsCoherent(rules: Rules, utxos: UtxoMap, pool: Pool, e: Entry)
    requires Coherent(rules, utxos, pool) && e.tx.id !in pool && EntryOk(rules, e.tx.id, e)
    requires InputsResolve(utxos, pool, e.tx) && NotMined(utxos, e.tx.id)
    requires !SpendsFrom(e.tx, e.tx.id) && !CrowdedAncestor(pool, e.tx)
    requires forall x | x in pool :: InPoints(e.tx) !! InPoints(pool[x].tx)
    ensures Coherent(rules, utxos, pool[e.tx.id := e])
  {
    hide Limited, CrowdedAncestor, EntryOk, InPoints, SpendsFrom;
    NewIsChildless(utxos, pool, e.tx.id);
    AddKeepsLimits(pool, e);
    var next := pool[e.tx.id := e];
    forall x | x in next
      ensures InputsResolve(utxos, next, next[x].tx)
    {
      assert x in pool ==> InputsResolve(utxos, pool, pool[x].tx);
    }
  }

  lemma InsertKeepsRank(pool: Pool, e: Entry, rank: map<Id, nat>, next: nat)
    requires Ranked(pool, rank, next) && e.tx.id !in pool
    requires Childless(pool, e.tx.id) && !SpendsFrom(e.tx, e.tx.id)
    ensures Ranked(pool[e.tx.id := e], rank[e.tx.id := next], next + 1)
  {
    hide SpendsFrom;
  }

  // ----- Families: entries together with their descendants -----

  ghost function Family(pool: Pool, id: Id): set<Id> {
    {id} + Descendants(pool, id)
  }

  ghost function FamilyOf(pool: Pool, ids: set<Id>): set<Id> {
    set x | x in pool && exists c :: c in ids && x in Family(pool, c)
  }

  lemma FamilyOfIsClosed(pool: Pool, ids: set<Id>)
    ensures ClosedRemoval(pool, pool - FamilyOf(pool, ids))
  {
    var gone := FamilyOf(pool, ids);
    forall a, x | a in gone && IsDescendant(pool, a, x)
      ensures x in gone
    {
      var c :| c in ids && a in Family(pool, c);
      DescendantIsEntry(pool, a, x);
      if a != c {
        DescendantsCompose(pool, c, a, x);
      }
      assert x in Family(pool, c);
    }
    RemoveWithDescendants(pool, gone);
  }

  lemma FamilyIsClosed(pool: Pool, id: Id)
    requires id in pool
    ensures ClosedRemoval(pool, pool - Family(pool, id))
  {
    FamilyOfIsClosed(pool, {id});
    assert Family(pool, id) == FamilyOf(pool, {id});
  }

  /** A path that ends among what is left runs, after its first step, through what is left. */
  lemma {:induction false} PathSurvives(pool: Pool, left: Pool, p: seq<Id>, i: nat)
    requires ClosedRemoval(pool, left) && IsPath(ChildEdge(pool), p)
    requires 1 <= i < |p| && p[|p| - 1] in left
    ensures p[i] in left && ChildEdge(left)(p[i - 1], p[i])
    decreases |p| - i
  {
    if i < |p| - 1 {
      PathSurvives(pool, left, p, i + 1);
      assert ChildEdge(pool)(p[i], p[i + 1]);
    }
    assert ChildEdge(pool)(p[i - 1], p[i]);
  }

  /** Whatever the order of removals, an entry that is left has the descendants it always had,
      as far as they are left. */
  lemma DescendantsSurvive(pool: Pool, left: Pool, id: Id, x: Id)
    requires ClosedRemoval(pool, left) && x in left
    ensures IsDescendant(pool, id, x) <==> IsDescendant(left, id, x)
  {
    if IsDescendant(pool, id, x) {
      var p :| |p| >= 2 && p[0] == id && p[|p| - 1] == x && IsPath(ChildEdge(pool), p);
      forall i | 0 <= i < |p| - 1
        ensures ChildEdge(left)(p[i], p[i + 1])
      {
        PathSurvives(pool, left, p, i + 1);
      }
      assert IsPath(ChildEdge(left), p);
    }
    if IsDescendant(left, id, x) {
      SubgraphReaches(ChildEdge(left), ChildEdge(pool), id, x);
    }
  }

  /** Removing one more family from what is left. */
  lemma NextFamily(pool: Pool, ids: set<Id>, id: Id)
    requires id in pool
    ensures var left := pool - FamilyOf(pool, ids);
            left - Family(left, id) == pool - FamilyOf(pool, ids + {id})
  {
    var left := pool - FamilyOf(pool, ids);
    FamilyOfIsClosed(pool, ids);
    hide ClosedRemoval, IsDescendant;
    forall x | x in left
      ensures x in Family(left, id) <==> x in Family(pool, id)
    {
      DescendantsSurvive(pool, left, id, x);
    }
    forall x | x in pool
      ensures x in FamilyOf(pool, ids + {id}) <==> x in FamilyOf(pool, ids) || x in Family(pool, id)
    {
      if x in Family(pool, id) {
        assert id in ids + {id};
      }
      if x in FamilyOf(pool, ids) {
        var c :| c in ids && x in Family(pool, c);
        assert c in ids + {id};
      }
    }
  }

  // ----- Conflicts -----

  /** The entries that spend an output the transaction spends. */
  ghost function Conflicting(pool: Pool, tx: Tx): set<Id> {
    set x | x in pool && !(InPoints(pool[x].tx) !! InPoints(tx))
  }

  /** What a replacement removes. */
  ghost function Evicted(pool: Pool, tx: Tx): set<Id> {
    FamilyOf(pool, Conflicting(pool, tx))
  }

  ghost function FamilyFee(pool: Pool): Entry -> nat {
    (e: Entry) => e.fee + Sum(Restrict(pool, Descendants(pool, e.tx.id)), FeeOf())
  }

  /** The fees the code adds up, a shared descendant once for every conflict it descends from. */
  ghost function ConflictFees(pool: Pool, ids: set<Id>): nat {
    Sum(Restrict(pool, ids), FamilyFee(pool))
  }

  lemma AddConflict(pool: Pool, ids: set<Id>, id: Id)
    requires id in pool && id !in ids && pool[id].tx.id == id
    ensures ConflictFees(pool, ids + {id}) ==
            ConflictFees(pool, ids) + pool[id].fee + Sum(Restrict(pool, Descendants(pool, id)), FeeOf())
  {
    SumAdds(pool, FamilyFee(pool), ids, id);
  }

  /** Counting shared descendants more than once only overstates what is lost. */
  lemma {:induction false} ConflictFeesCover(pool: Pool, ids: set<Id>)
    requires Keyed(pool) && ids <= pool.Keys
    ensures Sum(Restrict(pool, FamilyOf(pool, ids)), FeeOf()) <= ConflictFees(pool, ids)
  {
    hide FamilyOf, FamilyFee, Descendants, IsDescendant, ConflictFees;
    if ids == {} {
      NoFamily(pool);
    } else {
      var c :| c in ids;
      var rest := ids - {c};
      assert rest + {c} == ids;
      ConflictFeesCover(pool, rest);
      AddConflict(pool, rest, c);
      AddFamily(pool, rest, c);
    }
  }

  lemma NoFamily(pool: Pool)
    ensures Sum(Restrict(pool, FamilyOf(pool, {})), FeeOf()) == 0
  {
    assert Restrict(pool, FamilyOf(pool, {})) == map[];
  }

  lemma AddFamily(pool: Pool, rest: set<Id>, c: Id)
    requires c in pool
    ensures Sum(Restrict(pool, FamilyOf(pool, rest + {c})), FeeOf()) <=
            Sum(Restrict(pool, FamilyOf(pool, rest)), FeeOf()) + pool[c].fee +
            Sum(Restrict(pool, Descendants(pool, c)), FeeOf())
  {
    UnionOfFamilies(pool, rest, c);
    hide FamilyOf, Descendants, IsDescendant;
    var before := FamilyOf(pool, rest);
    SumOfUnion(pool, FeeOf(), before + {c}, Descendants(pool, c));
    SumOfUnion(pool, FeeOf(), before, {c});
    assert Restrict(pool, {c}) == map[][c := pool[c]];
    SumWith(map[], FeeOf(), c, pool[c]);
    assert Restrict(pool, FamilyOf(pool, rest + {c})) == Restrict(pool, before + {c} + Descendants(pool, c));
  }

  lemma UnionOfFamilies(pool: Pool, rest: set<Id>, c: Id)
    ensures forall x | x in pool :: x in FamilyOf(pool, rest + {c}) <==>
                                    x in FamilyOf(pool, rest) + {c} + Descendants(pool, c)
  {
    hide IsDescendant;
    forall x | x in pool
      ensures x in FamilyOf(pool, rest + {c}) <==> x in FamilyOf(pool, rest) + {c} + Descendants(pool, c)
    {
      if x in Family(pool, c) {
        assert c in rest + {c};
      }
      if x in FamilyOf(pool, rest) {
        var d :| d in rest && x in Family(pool, d);
        assert d in rest + {c};
      }
    }
  }

  lemma {:induction false} SumIsBounded(pool: Pool, f: Entry -> nat, bound: nat)
    requires forall x | x in pool :: f(pool[x]) <= bound
    ensures Sum(pool, f) <= |pool| * bound
    decreases |pool|
  {
    if pool != map[] {
      var x :| x in pool;
      SumWithout(pool, f, x);
      assert pool.Keys == (pool - {x}).Keys + {x};
      SmallerPool(pool, x);
      SumIsBounded(pool - {x}, f, bound);
      assert (|pool| - 1) * bound + bound == |pool| * bound;
    }
  }

  /** Every conflicting entry spends another of the transaction's inputs. */
  lemma ConflictsAreFew(pool: Pool, tx: Tx)
    requires NoDoubleSpend(pool)
    ensures |Conflicting(pool, tx)| <= |tx.ins|
  {
    ConflictsWithin(pool, tx, |tx.ins|);
    assert Conflicting(pool, tx) == SharersWithin(pool, tx, |tx.ins|);
  }

  ghost predicate SharesWithin(a: Tx, tx: Tx, n: nat)
    requires n <= |tx.ins|
  {
    exists i :: 0 <= i < n && tx.ins[i].toSpend.Some? && tx.ins[i].toSpend.value in InPoints(a)
  }

  ghost function SharersWithin(pool: Pool, tx: Tx, n: nat): set<Id>
    requires n <= |tx.ins|
  {
    set x | x in pool && SharesWithin(pool[x].tx, tx, n)
  }

  lemma {:induction false} ConflictsWithin(pool: Pool, tx: Tx, n: nat)
    requires NoDoubleSpend(pool) && n <= |tx.ins|
    ensures |SharersWithin(pool, tx, n)| <= n
  {
    var now := SharersWithin(pool, tx, n);
    if n == 0 {
      assert now == {};
    } else {
      ConflictsWithin(pool, tx, n - 1);
      var before := SharersWithin(pool, tx, n - 1);
      if x :| x in now && x !in before {
        forall y | y in now
          ensures y in before + {x}
        {
          if y !in before {
            OneMoreSharer(pool, tx, n - 1, x, y);
          }
        }
        hide SharersWithin;
        SubsetSize(now, before + {x});
      } else {
        hide SharersWithin;
        SubsetSize(now, before);
      }
    }
  }

  lemma OneMoreSharer(pool: Pool, tx: Tx, n: nat, x: Id, y: Id)
    requires NoDoubleSpend(pool) && n < |tx.ins|
    requires x in SharersWithin(pool, tx, n + 1) - SharersWithin(pool, tx, n)
    requires y in SharersWithin(pool, tx, n + 1) - SharersWithin(pool, tx, n)
    ensures x == y
  {
    hide InPoints;
    var p := tx.ins[n].toSpend.value;
    assert p in InPoints(pool[x].tx) && p in InPoints(pool[y].tx);
  }

  /** The entry spends the output. */
  method SpendsPoint(tx: Tx, p: OutPoint) returns (spends: bool)
    ensures spends <==> p in InPoints(tx)
  {
    for j := 0 to |tx.ins|
      invariant forall k | 0 <= k < j :: tx.ins[k].toSpend != Some(p)
    {
      if tx.ins[j].toSpend == Some(p) {
        assert tx.ins[j].toSpend.value in InPoints(tx);
        return true;
      }
    }
    spends := false;
  }

  /** find_conflicting_txs: every conflicting entry, once. */
  method FindConflictingTxs(pool: Pool, tx: Tx) returns (conflicting: seq<Id>)
    ensures NoDuplicates(conflicting) && Elements(conflicting) == Conflicting(pool, tx)
  {
    conflicting := [];
    for i := 0 to |tx.ins|
      invariant NoDuplicates(conflicting)
      invariant forall x | x in conflicting :: x in Conflicting(pool, tx)
      invariant forall x | x in pool && SharesWithin(pool[x].tx, tx, i) :: x in conflicting
    {
      if tx.ins[i].toSpend.Some? {
        conflicting := AddSpenders(pool, tx, i, conflicting);
      }
    }
    assert forall x | x in Conflicting(pool, tx) :: SharesWithin(pool[x].tx, tx, |tx.ins|);
  }

  /** One input: add the entries that spend the same output and are not listed yet. */
  method AddSpenders(pool: Pool, tx: Tx, i: nat, before: seq<Id>) returns (conflicting: seq<Id>)
    requires i < |tx.ins| && tx.ins[i].toSpend.Some? && NoDuplicates(before)
    requires forall x | x in before :: x in Conflicting(pool, tx)
    ensures NoDuplicates(conflicting) && forall x | x in before :: x in conflicting
    ensures forall x | x in conflicting :: x in Conflicting(pool, tx)
    ensures forall x | x in pool && tx.ins[i].toSpend.value in InPoints(pool[x].tx) :: x in conflicting
  {
    var p := tx.ins[i].toSpend.value;
    assert p in InPoints(tx);
    hide InPoints;
    conflicting := before;
    var todo := pool.Keys;
    while todo != {}
      invariant todo <= pool.Keys && NoDuplicates(conflicting)
      invariant forall x | x in before :: x in conflicting
      invariant forall x | x in conflicting :: x in Conflicting(pool, tx)
      invariant forall x | x in pool && x !in todo && p in InPoints(pool[x].tx) :: x in conflicting
      decreases |todo|
    {
      var id :| id in todo;
      todo := todo - {id};
      var spends := SpendsPoint(pool[id].tx, p);
      if spends {
        var alreadyFound := Contains(conflicting, id);
        if !alreadyFound {
          conflicting := conflicting + [id];
        }
      }
    }
  }

  predicate SignalsRbf(tx: Tx) {
    exists i :: 0 <= i < |tx.ins| && tx.ins[i].sequence != SEQUENCE_FINAL
  }
}
