/** The spend graph of the mempool: reachability, and the two worklists that compute it. */
module SpendGraph {
  import opened Types

  datatype Entry = Entry(tx: Tx, size: nat, fee: UInt64, feeRate: UInt64, insertionTime: int)

  type Pool = map<Id, Entry>

  // ----- Reachability -----

  type Edge = (Id, Id) -> bool

  ghost predicate IsPath(edge: Edge, p: seq<Id>) {
    forall i | 0 <= i < |p| - 1 :: edge(p[i], p[i + 1])
  }

  /** There is a path of at least one edge. */
  ghost predicate Reaches(edge: Edge, a: Id, b: Id) {
    exists p :: |p| >= 2 && p[0] == a && p[|p| - 1] == b && IsPath(edge, p)
  }

  lemma OneEdge(edge: Edge, a: Id, b: Id)
    requires edge(a, b)
    ensures Reaches(edge, a, b)
  {
    var p := [a, b];
    assert IsPath(edge, p);
  }

  lemma ExtendPath(edge: Edge, a: Id, b: Id, c: Id)
    requires (a == b || Reaches(edge, a, b)) && edge(b, c)
    ensures Reaches(edge, a, c)
  {
    if Reaches(edge, a, b) {
      var p :| |p| >= 2 && p[0] == a && p[|p| - 1] == b && IsPath(edge, p);
      var q := p + [c];
      assert forall i | 0 <= i < |q| - 1 :: q[i] == p[i];
      assert IsPath(edge, q);
    } else {
      OneEdge(edge, a, c);
    }
  }

  /** A set that holds the successors of a and of its own members holds whatever a reaches. */
  lemma ClosedSetHoldsAll(edge: Edge, s: set<Id>, a: Id)
    requires forall x, y | (x == a || x in s) && edge(x, y) :: y in s
    ensures forall b | Reaches(edge, a, b) :: b in s
  {
    forall b | Reaches(edge, a, b)
      ensures b in s
    {
      var p :| |p| >= 2 && p[0] == a && p[|p| - 1] == b && IsPath(edge, p);
      PathStaysInside(edge, s, p, |p| - 1);
    }
  }

  lemma {:induction false} PathStaysInside(edge: Edge, s: set<Id>, p: seq<Id>, i: nat)
    requires IsPath(edge, p) && 1 <= i < |p|
    requires forall x, y | (x == p[0] || x in s) && edge(x, y) :: y in s
    ensures p[i] in s
  {
    if i > 1 {
      PathStaysInside(edge, s, p, i - 1);
    }
    assert edge(p[i - 1], p[i]);
  }

  lemma SubgraphReaches(edge: Edge, edge': Edge, a: Id, b: Id)
    requires forall x, y | edge(x, y) :: edge'(x, y)
    requires Reaches(edge, a, b)
    ensures Reaches(edge', a, b)
  {
    var p :| |p| >= 2 && p[0] == a && p[|p| - 1] == b && IsPath(edge, p);
    assert IsPath(edge', p);
  }

  ghost function Reversed(p: seq<Id>): (r: seq<Id>)
    ensures |r| == |p| && forall i | 0 <= i < |p| :: r[i] == p[|p| - 1 - i]
  {
    seq(|p|, i requires 0 <= i < |p| => p[|p| - 1 - i])
  }

  lemma ReversedPath(edge: Edge, back: Edge, p: seq<Id>)
    requires |p| >= 2 && IsPath(edge, p)
    requires forall i | 0 <= i < |p| - 1 :: back(p[i + 1], p[i])
    ensures Reaches(back, p[|p| - 1], p[0])
  {
    var r := Reversed(p);
    forall i | 0 <= i < |r| - 1
      ensures back(r[i], r[i + 1])
    {
      var j := |p| - 2 - i;
      assert r[i] == p[j + 1] && r[i + 1] == p[j];
    }
    assert IsPath(back, r);
  }

  // ----- Spending -----

  predicate SpendsFrom(tx: Tx, id: Id) {
    exists i :: 0 <= i < |tx.ins| && tx.ins[i].toSpend.Some? && tx.ins[i].toSpend.value.txId == id
  }

  /** From a transaction to the pool entries that spend it. */
  ghost function ChildEdge(pool: Pool): Edge {
    (parent: Id, child: Id) => child in pool && child != parent && SpendsFrom(pool[child].tx, parent)
  }

  /** From a pool entry to the pool entries it spends. */
  ghost function ParentEdge(pool: Pool): Edge {
    (child: Id, parent: Id) => child in pool && parent in pool && SpendsFrom(pool[child].tx, parent)
  }

  ghost predicate IsDescendant(pool: Pool, a: Id, x: Id) {
    Reaches(ChildEdge(pool), a, x)
  }

  ghost predicate IsAncestor(pool: Pool, x: Id, a: Id) {
    Reaches(ParentEdge(pool), x, a)
  }

  lemma DescendantIsEntry(pool: Pool, a: Id, x: Id)
    requires IsDescendant(pool, a, x)
    ensures x in pool
  {
    var p :| |p| >= 2 && p[0] == a && p[|p| - 1] == x && IsPath(ChildEdge(pool), p);
    assert ChildEdge(pool)(p[|p| - 2], p[|p| - 1]);
  }

  ghost function Descendants(pool: Pool, a: Id): set<Id> {
    set x | x in pool && IsDescendant(pool, a, x)
  }

  ghost function Ancestors(pool: Pool, x: Id): set<Id> {
    set a | a in pool && IsAncestor(pool, x, a)
  }

  lemma AncestorIsEntry(pool: Pool, x: Id, a: Id)
    requires IsAncestor(pool, x, a)
    ensures a in pool
  {
    var p :| |p| >= 2 && p[0] == x && p[|p| - 1] == a && IsPath(ParentEdge(pool), p);
    assert ParentEdge(pool)(p[|p| - 2], p[|p| - 1]);
  }

  ghost predicate NoDuplicates(s: seq<Id>) {
    forall i, j | 0 <= i < j < |s| :: s[i] != s[j]
  }

  ghost function Elements(s: seq<Id>): set<Id> {
    set x | x in s
  }

  lemma {:induction false} LengthIsCount(s: seq<Id>)
    requires NoDuplicates(s)
    ensures |Elements(s)| == |s|
  {
    if s == [] {
      assert Elements(s) == {};
    } else {
      var n := |s| - 1;
      LengthIsCount(s[..n]);
      assert s == s[..n] + [s[n]];
      assert Elements(s) == Elements(s[..n]) + {s[n]};
    }
  }

  // ----- The worklists -----

  /** Linear search, as the code checks for an id already found. */
  method Contains(s: seq<Id>, id: Id) returns (found: bool)
    ensures found <==> id in s
  {
    for i := 0 to |s|
      invariant forall j | 0 <= j < i :: s[j] != id
    {
      if s[i] == id {
        return true;
      }
    }
    found := false;
  }

  method SpendsOutputOf(tx: Tx, id: Id) returns (spends: bool)
    ensures spends <==> SpendsFrom(tx, id)
  {
    for i := 0 to |tx.ins|
      invariant forall j | 0 <= j < i :: !(tx.ins[j].toSpend.Some? && tx.ins[j].toSpend.value.txId == id)
    {
      if tx.ins[i].toSpend.Some? && tx.ins[i].toSpend.value.txId == id {
        return true;
      }
    }
    spends := false;
  }

  /** Nodes that are known but not in the queue have all their successors known. */
  ghost predicate Expanded(edge: Edge, root: Id, known: seq<Id>, queue: seq<Id>) {
    forall x, y | (x == root || x in known) && x !in queue && edge(x, y) :: y in known
  }

  ghost predicate Found(edge: Edge, root: Id, known: seq<Id>) {
    NoDuplicates(known) && forall x | x in known :: Reaches(edge, root, x)
  }

  lemma Finish(edge: Edge, root: Id, known: seq<Id>)
    requires Found(edge, root, known) && Expanded(edge, root, known, [])
    ensures forall x :: x in known <==> Reaches(edge, root, x)
  {
    ClosedSetHoldsAll(edge, Elements(known), root);
  }

  lemma AddFound(edge: Edge, root: Id, known: seq<Id>, current: Id, id: Id)
    requires Found(edge, root, known) && id !in known
    requires (current == root || current in known) && edge(current, id)
    ensures Found(edge, root, known + [id])
  {
    ExtendPath(edge, root, current, id);
  }

  lemma KnownFitsInPool(pool: Pool, edge: Edge, root: Id, known: seq<Id>)
    requires Found(edge, root, known) && forall x | x in known :: x in pool
    ensures |known| <= |pool|
  {
    LengthIsCount(known);
    assert Elements(known) <= pool.Keys;
    SubsetSize(Elements(known), pool.Keys);
  }

  lemma {:induction false} SubsetSize(a: set<Id>, b: set<Id>)
    requires a <= b
    ensures |a| <= |b|
  {
    if a != {} {
      var x :| x in a;
      SubsetSize(a - {x}, b - {x});
    }
  }

  /** One pass over the pool, in whatever order the map is iterated: collect the children of
      `current` that are not known yet. */
  method ExpandChildren(pool: Pool, root: Id, current: Id, known0: seq<Id>, queue0: seq<Id>)
    returns (known: seq<Id>, queue: seq<Id>)
    requires Found(ChildEdge(pool), root, known0) && (current == root || current in known0)
    requires forall x | x in known0 :: x in pool
    requires Expanded(ChildEdge(pool), root, known0, queue0 + [current])
    requires forall x | x in queue0 :: x == root || x in known0
    ensures Found(ChildEdge(pool), root, known) && Expanded(ChildEdge(pool), root, known, queue)
    ensures forall x | x in known :: x in pool
    ensures forall x | x in queue :: x == root || x in known
    ensures |known| - |known0| == |queue| - |queue0| >= 0
  {
    var edge := ChildEdge(pool);
    known, queue := known0, queue0;
    var todo := pool.Keys;
    while todo != {}
      invariant todo <= pool.Keys
      invariant Found(edge, root, known) && forall x | x in known :: x in pool
      invariant forall x | x in known0 :: x in known
      invariant forall x | x in queue :: x == root || x in known
      invariant Expanded(edge, root, known, queue + [current])
      invariant forall y | y !in todo && edge(current, y) :: y in known
      invariant |known| - |known0| == |queue| - |queue0| >= 0
      decreases |todo|
    {
      var id :| id in todo;
      todo := todo - {id};
      if id != current {
        var spends := SpendsOutputOf(pool[id].tx, current);
        if spends {
          var alreadyFound := Contains(known, id);
          if !alreadyFound {
            AddFound(edge, root, known, current, id);
            PushExpanded(edge, root, known, queue, current, id);
            known := known + [id];
            queue := queue + [id];
          }
        }
      }
    }
    PopExpanded(edge, root, known, queue, current);
  }

  lemma PushExpanded(edge: Edge, root: Id, known: seq<Id>, queue: seq<Id>, current: Id, id: Id)
    requires Expanded(edge, root, known, queue + [current])
    ensures Expanded(edge, root, known + [id], queue + [id] + [current])
  {
    forall x, y | (x == root || x in known + [id]) && x !in queue + [id] + [current] && edge(x, y)
      ensures y in known + [id]
    {
      assert x != id && x !in queue + [current];
    }
  }

  lemma PopExpanded(edge: Edge, root: Id, known: seq<Id>, queue: seq<Id>, current: Id)
    requires Expanded(edge, root, known, queue + [current])
    requires forall y | edge(current, y) :: y in known
    ensures Expanded(edge, root, known, queue)
  {
    forall x, y | (x == root || x in known) && x !in queue && edge(x, y)
      ensures y in known
    {
      if x != current {
        assert x !in queue + [current];
      }
    }
  }

  /** find_descendant_tx_ids: exactly the transitive spenders, each once. */
  method FindDescendantTxIds(pool: Pool, txId: Id) returns (descendants: seq<Id>)
    ensures NoDuplicates(descendants)
    ensures forall x :: x in descendants <==> IsDescendant(pool, txId, x)
  {
    ghost var edge := ChildEdge(pool);
    descendants := [];
    var queue := [txId];
    while queue != []
      invariant Found(edge, txId, descendants) && Expanded(edge, txId, descendants, queue)
      invariant forall x | x in descendants :: x in pool
      invariant forall x | x in queue :: x == txId || x in descendants
      decreases |pool| - |descendants|, |queue|
    {
      var current := queue[|queue| - 1];
      assert queue == queue[..|queue| - 1] + [current];
      queue := queue[..|queue| - 1];
      descendants, queue := ExpandChildren(pool, txId, current, descendants, queue);
      KnownFitsInPool(pool, edge, txId, descendants);
    }
    Finish(edge, txId, descendants);
  }

  /** The inputs of `current`, in order: collect its parents in the pool that are not known yet. */
  method ExpandParents(pool: Pool, root: Id, current: Id, known0: seq<Id>, queue0: seq<Id>)
    returns (known: seq<Id>, queue: seq<Id>)
    requires Found(ParentEdge(pool), root, known0) && (current == root || current in known0)
    requires forall x | x in known0 :: x in pool
    requires Expanded(ParentEdge(pool), root, known0, queue0 + [current])
    requires forall x | x in queue0 :: x == root || x in known0
    ensures Found(ParentEdge(pool), root, known) && Expanded(ParentEdge(pool), root, known, queue)
    ensures forall x | x in known :: x in pool
    ensures forall x | x in queue :: x == root || x in known
    ensures |known| - |known0| == |queue| - |queue0| >= 0
  {
    var edge := ParentEdge(pool);
    known, queue := known0, queue0;
    if current in pool {
      var tx := pool[current].tx;
      for i := 0 to |tx.ins|
        invariant Found(edge, root, known) && forall x | x in known :: x in pool
        invariant forall x | x in known0 :: x in known
        invariant forall x | x in queue :: x == root || x in known
        invariant Expanded(edge, root, known, queue + [current])
        invariant forall j | 0 <= j < i && tx.ins[j].toSpend.Some? && tx.ins[j].toSpend.value.txId in pool ::
                    tx.ins[j].toSpend.value.txId in known
        invariant |known| - |known0| == |queue| - |queue0| >= 0
      {
        if tx.ins[i].toSpend.Some? {
          var parentId := tx.ins[i].toSpend.value.txId;
          if parentId in pool {
            var alreadyFound := Contains(known, parentId);
            if !alreadyFound {
              assert SpendsFrom(tx, parentId);
              AddFound(edge, root, known, current, parentId);
              PushExpanded(edge, root, known, queue, current, parentId);
              known := known + [parentId];
              queue := queue + [parentId];
            }
          }
        }
      }
    }
    PopExpanded(edge, root, known, queue, current);
  }

  /** find_ancestor_tx_ids: exactly the entries transitively spent, each once. */
  method FindAncestorTxIds(pool: Pool, txId: Id) returns (ancestors: seq<Id>)
    ensures NoDuplicates(ancestors)
    ensures forall a :: a in ancestors <==> IsAncestor(pool, txId, a)
  {
    ghost var edge := ParentEdge(pool);
    ancestors := [];
    var queue := [txId];
    while queue != []
      invariant Found(edge, txId, ancestors) && Expanded(edge, txId, ancestors, queue)
      invariant forall x | x in ancestors :: x in pool
      invariant forall x | x in queue :: x == txId || x in ancestors
      decreases |pool| - |ancestors|, |queue|
    {
      var current := queue[|queue| - 1];
      assert queue == queue[..|queue| - 1] + [current];
      queue := queue[..|queue| - 1];
      ancestors, queue := ExpandParents(pool, txId, current, ancestors, queue);
      KnownFitsInPool(pool, edge, txId, ancestors);
    }
    Finish(edge, txId, ancestors);
  }
}
