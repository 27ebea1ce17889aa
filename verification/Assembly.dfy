/** Block assembly: parents-first insertion under a size limit, and greedy selection by package
    fee rate. */
module Assembly {
  import opened Types
  import opened TxRules
  import opened SpendGraph
  import opened PoolRules
  import opened Wire
  import opened Arithmetic
  import PoolMoney
  import Serialization

  /** What stays fixed while a block is assembled; the rank is the pool's order of arrival. */
  datatype Env = Env(codec: Codec, utxos: UtxoMap, pool: Pool, base: Block, rank: map<Id, nat>, next: nat)

  /** The pool is acyclic, and no 32-bit size can wrap. */
  ghost predicate EnvOk(g: Env) {
    && Ranked(g.pool, g.rank, g.next)
    && (forall x | x in g.pool :: g.pool[x].tx.id == x && |EncodeTx(g.codec, g.pool[x].tx)| <= MAX_BLOCK_SIZE)
    && |EncodeBlock(g.codec, g.base)| <= MAX_BLOCK_SIZE
  }

  /** The entries added so far, in order, and the running block size. */
  datatype Asm = Asm(order: seq<Id>, size: nat)

  function Bytes(g: Env): Entry -> nat {
    (e: Entry) => |EncodeTx(g.codec, e.tx)|
  }

  ghost function Rank(g: Env, id: Id): nat {
    if id in g.rank then g.rank[id] else 0
  }

  predicate InputFound(g: Env, txIn: TxIn) {
    txIn.toSpend.Some? && (txIn.toSpend.value in g.utxos || FindInPool(txIn.toSpend.value, PoolTxs(g.pool)).Some?)
  }

  // ----- One insertion -----

  /** try_add_to_block as a function of the state; None is its failure. */
  ghost function Add(g: Env, s: Asm, id: Id): Option<Asm>
    requires EnvOk(g)
    decreases Rank(g, id), 1, 0
  {
    if id in s.order || id !in g.pool then Some(s)
    else
      match AddInputs(g, s, id, 0)
      case None => None
      case Some(t) =>
        var size := t.size + Bytes(g)(g.pool[id]);
        Some(if size < MAX_BLOCK_SIZE then Asm(t.order + [id], size) else t)
  }

  /** Its loop over the inputs, from input i on. */
  ghost function AddInputs(g: Env, s: Asm, id: Id, i: nat): Option<Asm>
    requires EnvOk(g) && id in g.pool && i <= |g.pool[id].tx.ins|
    decreases Rank(g, id), 0, |g.pool[id].tx.ins| - i
  {
    var ins := g.pool[id].tx.ins;
    if i == |ins| then Some(s)
    else if !InputFound(g, ins[i]) then None
    else
      var p := ins[i].toSpend.value;
      if p in g.utxos then AddInputs(g, s, id, i + 1)
      else
        ParentRanksLower(g, id, i);
        match Add(g, s, p.txId)
        case None => None
        case Some(t) => AddInputs(g, t, id, i + 1)
  }

  lemma ParentRanksLower(g: Env, id: Id, i: nat)
    requires EnvOk(g) && id in g.pool && i < |g.pool[id].tx.ins|
    requires g.pool[id].tx.ins[i].toSpend.Some? && g.pool[id].tx.ins[i].toSpend.value.txId in g.pool
    ensures Rank(g, g.pool[id].tx.ins[i].toSpend.value.txId) < Rank(g, id)
  {
    assert SpendsFrom(g.pool[id].tx, g.pool[id].tx.ins[i].toSpend.value.txId);
  }

  // ----- What an entry needs -----

  /** Input i of the child spends an output of the parent that is not in the UTXO map. */
  ghost predicate NeedsAt(g: Env, child: Id, parent: Id, i: int) {
    && child in g.pool && parent in g.pool && 0 <= i < |g.pool[child].tx.ins|
    && var p := g.pool[child].tx.ins[i].toSpend;
       p.Some? && p.value !in g.utxos && p.value.txId == parent
  }

  ghost function NeedEdge(g: Env): Edge {
    (child: Id, parent: Id) => exists i :: NeedsAt(g, child, parent, i)
  }

  /** The entry and every entry it depends on, however indirectly. */
  ghost function Needed(g: Env, id: Id): set<Id> {
    set x | x in g.pool && (x == id || Reaches(NeedEdge(g), id, x))
  }

  ghost predicate Resolves(g: Env, id: Id) {
    id in g.pool ==> forall i | 0 <= i < |g.pool[id].tx.ins| :: InputFound(g, g.pool[id].tx.ins[i])
  }

  ghost predicate AllResolve(g: Env, ids: set<Id>) {
    forall x | x in ids :: Resolves(g, x)
  }

  lemma PrependEdge(edge: Edge, a: Id, b: Id, c: Id)
    requires edge(a, b) && (b == c || Reaches(edge, b, c))
    ensures Reaches(edge, a, c)
  {
    if b == c {
      OneEdge(edge, a, b);
    } else {
      var p :| |p| >= 2 && p[0] == b && p[|p| - 1] == c && IsPath(edge, p);
      var q := [a] + p;
      forall i | 0 <= i < |q| - 1
        ensures edge(q[i], q[i + 1])
      {
        assert i > 0 ==> edge(p[i - 1], p[i]);
      }
      assert IsPath(edge, q);
    }
  }

  lemma FirstStep(edge: Edge, a: Id, c: Id) returns (b: Id)
    requires Reaches(edge, a, c)
    ensures edge(a, b) && (b == c || Reaches(edge, b, c))
  {
    var p :| |p| >= 2 && p[0] == a && p[|p| - 1] == c && IsPath(edge, p);
    b := p[1];
    assert edge(p[0], p[1]);
    if |p| > 2 {
      var q := p[1..];
      forall i | 0 <= i < |q| - 1
        ensures edge(q[i], q[i + 1])
      {
        assert edge(p[i + 1], p[i + 2]);
      }
      assert IsPath(edge, q);
    }
  }

  lemma {:induction false} PathRanksLower(g: Env, p: seq<Id>, i: nat)
    requires EnvOk(g) && IsPath(NeedEdge(g), p) && i + 1 < |p|
    ensures Rank(g, p[i + 1]) < Rank(g, p[0])
  {
    assert NeedEdge(g)(p[i], p[i + 1]);
    var k :| NeedsAt(g, p[i], p[i + 1], k);
    ParentRanksLower(g, p[i], k);
    if i > 0 {
      PathRanksLower(g, p, i - 1);
    }
  }

  lemma NeededRanksLower(g: Env, id: Id, x: Id)
    requires EnvOk(g) && Reaches(NeedEdge(g), id, x)
    ensures Rank(g, x) < Rank(g, id)
  {
    var p :| |p| >= 2 && p[0] == id && p[|p| - 1] == x && IsPath(NeedEdge(g), p);
    PathRanksLower(g, p, |p| - 2);
  }

  lemma FoundIsEntry(g: Env, id: Id, i: nat)
    requires id in g.pool && i < |g.pool[id].tx.ins| && InputFound(g, g.pool[id].tx.ins[i])
    requires g.pool[id].tx.ins[i].toSpend.value !in g.utxos
    ensures NeedsAt(g, id, g.pool[id].tx.ins[i].toSpend.value.txId, i)
  {
  }

  /** Parents' needs are needs, and not the entry itself. */
  lemma ParentNeeds(g: Env, id: Id, parent: Id, i: int)
    requires EnvOk(g) && NeedsAt(g, id, parent, i)
    ensures Needed(g, parent) <= Needed(g, id) - {id}
  {
    forall x | x in Needed(g, parent)
      ensures x in Needed(g, id) && x != id
    {
      PrependEdge(NeedEdge(g), id, parent, x);
      NeededRanksLower(g, id, x);
    }
  }

  lemma NeedsComeFromParents(g: Env, id: Id, x: Id) returns (parent: Id, i: int)
    requires x in Needed(g, id) && x != id
    ensures NeedsAt(g, id, parent, i) && x in Needed(g, parent)
  {
    parent := FirstStep(NeedEdge(g), id, x);
    assert NeedEdge(g)(id, parent);
    i :| NeedsAt(g, id, parent, i);
  }

  // ----- Every insertion -----

  ghost function SizeWith(g: Env, ids: set<Id>): nat {
    |EncodeBlock(g.codec, g.base)| + Sum(Restrict(g.pool, ids), Bytes(g))
  }

  /** No entry twice, only entries of the pool, and the size is what it should be and below the
      limit once anything was added. */
  ghost predicate Fine(g: Env, s: Asm) {
    && NoDuplicates(s.order) && Elements(s.order) <= g.pool.Keys
    && s.size == SizeWith(g, Elements(s.order))
    && (s.order != [] ==> s.size < MAX_BLOCK_SIZE)
  }

  ghost predicate Grew(s: Asm, t: Asm, allowed: set<Id>) {
    s.order <= t.order && Elements(t.order) <= Elements(s.order) + allowed
  }

  lemma GrewTransitive(s: Asm, t: Asm, u: Asm, a: set<Id>, b: set<Id>)
    requires Grew(s, t, a) && Grew(t, u, b) && a <= b
    ensures Grew(s, u, b)
  {
  }

  lemma GrewAppend(s: Asm, t: Asm, needed: set<Id>, id: Id, size: nat)
    requires Grew(s, t, needed - {id}) && id in needed && id !in s.order
    ensures id !in t.order && Grew(s, t, needed) && Grew(s, Asm(t.order + [id], size), needed)
  {
    assert id in t.order ==> id in Elements(t.order);
  }

  lemma FineAppend(g: Env, s: Asm, id: Id)
    requires Fine(g, s) && id in g.pool && id !in s.order
    requires s.size + Bytes(g)(g.pool[id]) < MAX_BLOCK_SIZE
    ensures Fine(g, Asm(s.order + [id], s.size + Bytes(g)(g.pool[id])))
  {
    assert Elements(s.order + [id]) == Elements(s.order) + {id};
    SumAdds(g.pool, Bytes(g), Elements(s.order), id);
  }

  lemma {:induction false} AddGrows(g: Env, s: Asm, id: Id)
    requires EnvOk(g) && Fine(g, s)
    ensures Add(g, s, id).Some? ==> Fine(g, Add(g, s, id).value) && Grew(s, Add(g, s, id).value, Needed(g, id))
    decreases Rank(g, id), 1, 0
  {
    hide EnvOk, Fine, Bytes, NoDuplicates, Grew, Needed, Elements, AddInputs;
    if id in s.order || id !in g.pool {
      GrewNothing(s, Needed(g, id));
    } else {
      AddInputsGrows(g, s, id, 0);
      if AddInputs(g, s, id, 0).Some? {
        var t := AddInputs(g, s, id, 0).value;
        NeedsItself(g, id);
        GrewAppend(s, t, Needed(g, id), id, t.size + Bytes(g)(g.pool[id]));
        if t.size + Bytes(g)(g.pool[id]) < MAX_BLOCK_SIZE {
          FineAppend(g, t, id);
        }
      }
    }
  }

  lemma GrewNothing(s: Asm, allowed: set<Id>)
    ensures Grew(s, s, allowed)
  {
  }

  lemma NeedsItself(g: Env, id: Id)
    requires id in g.pool
    ensures id in Needed(g, id)
  {
  }

  lemma {:induction false} AddInputsGrows(g: Env, s: Asm, id: Id, i: nat)
    requires EnvOk(g) && Fine(g, s) && id in g.pool && i <= |g.pool[id].tx.ins|
    ensures AddInputs(g, s, id, i).Some? ==>
              Fine(g, AddInputs(g, s, id, i).value) && Grew(s, AddInputs(g, s, id, i).value, Needed(g, id) - {id})
    decreases Rank(g, id), 0, |g.pool[id].tx.ins| - i
  {
    hide EnvOk, Fine, Needed, Grew, Add, FindInPool;
    var ins := g.pool[id].tx.ins;
    if i == |ins| {
      GrewNothing(s, Needed(g, id) - {id});
    } else if InputFound(g, ins[i]) {
      var p := ins[i].toSpend.value;
      if p in g.utxos {
        AddInputsGrows(g, s, id, i + 1);
      } else {
        FoundIsEntry(g, id, i);
        ParentRanksLower(g, id, i);
        ParentNeeds(g, id, p.txId, i);
        AddGrows(g, s, p.txId);
        if Add(g, s, p.txId).Some? {
          var t := Add(g, s, p.txId).value;
          AddInputsGrows(g, t, id, i + 1);
          if AddInputs(g, t, id, i + 1).Some? {
            GrewTransitive(s, t, AddInputs(g, t, id, i + 1).value, Needed(g, p.txId), Needed(g, id) - {id});
          }
        }
      }
    }
  }

  // ----- When everything asked for gets in -----

  /** Every entry comes after the entries it needs. */
  ghost predicate ParentsFirst(g: Env, order: seq<Id>) {
    forall k, p | 0 <= k < |order| && NeedEdge(g)(order[k], p) :: p in order[..k]
  }

  lemma ClosedBelow(g: Env, order: seq<Id>, id: Id)
    requires ParentsFirst(g, order) && id in order
    ensures Needed(g, id) <= Elements(order)
  {
    forall x, y | (x == id || x in Elements(order)) && NeedEdge(g)(x, y)
      ensures y in Elements(order)
    {
      var k :| 0 <= k < |order| && order[k] == x;
      assert y in order[..k];
    }
    ClosedSetHoldsAll(NeedEdge(g), Elements(order), id);
  }

  /** What the inputs from i on ask for is there. */
  ghost predicate HasNeeds(g: Env, id: Id, i: nat, order: seq<Id>) {
    forall p, j | j >= i && NeedsAt(g, id, p, j) :: p in order
  }

  lemma HasNeedsStep(g: Env, id: Id, i: nat, order: seq<Id>)
    requires id in g.pool && i <= |g.pool[id].tx.ins|
    ensures i == |g.pool[id].tx.ins| ==> HasNeeds(g, id, i, order)
    ensures i < |g.pool[id].tx.ins| && HasNeeds(g, id, i + 1, order) ==>
              var q := g.pool[id].tx.ins[i].toSpend;
              (q.Some? && (q.value in g.utxos || q.value.txId in order)) ==> HasNeeds(g, id, i, order)
  {
  }

  lemma ParentsFirstAppend(g: Env, order: seq<Id>, id: Id)
    requires ParentsFirst(g, order) && HasNeeds(g, id, 0, order)
    ensures ParentsFirst(g, order + [id])
  {
    var next := order + [id];
    forall k, p | 0 <= k < |next| && NeedEdge(g)(next[k], p)
      ensures p in next[..k]
    {
      if k < |order| {
        assert next[k] == order[k] && next[..k] == order[..k];
      } else {
        var i :| NeedsAt(g, id, p, i);
        assert next[..k] == order;
      }
    }
  }

  /** There is room for the entry and everything it needs. */
  ghost predicate Fits(g: Env, s: Asm, id: Id) {
    SizeWith(g, Elements(s.order) + Needed(g, id)) < MAX_BLOCK_SIZE
  }

  lemma FitsLess(g: Env, s: Asm, id: Id, t: Asm, id': Id)
    requires Fits(g, s, id) && Needed(g, id') <= Needed(g, id)
    requires Elements(t.order) <= Elements(s.order) + Needed(g, id)
    ensures Fits(g, t, id')
  {
    hide Needed, Elements;
    SumGrows(g.pool, Bytes(g), Elements(t.order) + Needed(g, id'), Elements(s.order) + Needed(g, id));
  }

  lemma AppendFits(g: Env, s: Asm, id: Id, t: Asm)
    requires Fits(g, s, id) && Fine(g, t) && id in g.pool && id !in t.order && id in Needed(g, id)
    requires Elements(t.order) <= Elements(s.order) + Needed(g, id)
    ensures t.size + Bytes(g)(g.pool[id]) < MAX_BLOCK_SIZE
  {
    assert id !in Elements(t.order);
    hide Needed, Elements, NoDuplicates;
    SumAdds(g.pool, Bytes(g), Elements(t.order), id);
    SumGrows(g.pool, Bytes(g), Elements(t.order) + {id}, Elements(s.order) + Needed(g, id));
  }

  lemma {:induction false} AddsEverything(g: Env, s: Asm, id: Id)
    requires EnvOk(g) && Fine(g, s) && ParentsFirst(g, s.order) && id in g.pool && Fits(g, s, id)
    ensures Add(g, s, id).Some? ==>
              Needed(g, id) <= Elements(Add(g, s, id).value.order) && ParentsFirst(g, Add(g, s, id).value.order)
    decreases Rank(g, id), 1, 0
  {
    hide EnvOk, Fine, Bytes, NoDuplicates, Grew, Needed, Elements, AddInputs, Fits, ParentsFirst, NeedsAt;
    if id in s.order {
      ClosedBelow(g, s.order, id);
    } else {
      AddInputsGrows(g, s, id, 0);
      AddInputsEverything(g, s, id, 0);
      if AddInputs(g, s, id, 0).Some? {
        var t := AddInputs(g, s, id, 0).value;
        NeedsItself(g, id);
        GrewAppend(s, t, Needed(g, id), id, 0);
        GrewWithin(s, t, Needed(g, id));
        AppendFits(g, s, id, t);
        ParentsFirstAppend(g, t.order, id);
        assert id in t.order + [id];
        ClosedBelow(g, t.order + [id], id);
      }
    }
  }

  lemma GrewWithin(s: Asm, t: Asm, allowed: set<Id>)
    requires Grew(s, t, allowed)
    ensures Elements(s.order) <= Elements(t.order) <= Elements(s.order) + allowed
    ensures forall x | x in s.order :: x in t.order
  {
  }

  lemma {:induction false} AddInputsEverything(g: Env, s: Asm, id: Id, i: nat)
    requires EnvOk(g) && Fine(g, s) && ParentsFirst(g, s.order) && id in g.pool && Fits(g, s, id)
    requires i <= |g.pool[id].tx.ins|
    ensures AddInputs(g, s, id, i).Some? ==> ParentsFirst(g, AddInputs(g, s, id, i).value.order)
    ensures AddInputs(g, s, id, i).Some? ==> HasNeeds(g, id, i, AddInputs(g, s, id, i).value.order)
    decreases Rank(g, id), 0, |g.pool[id].tx.ins| - i
  {
    hide EnvOk, Fine, Needed, Grew, Add, FindInPool, ParentsFirst, Fits, NeedsAt, Elements, HasNeeds;
    var ins := g.pool[id].tx.ins;
    if i < |ins| && InputFound(g, ins[i]) {
      var p := ins[i].toSpend.value;
      if p in g.utxos {
        AddInputsEverything(g, s, id, i + 1);
      } else {
        FoundIsEntry(g, id, i);
        NeedsAreEntries(g, id, p.txId, i);
        ParentRanksLower(g, id, i);
        ParentGetsIn(g, s, id, p.txId, i);
        if Add(g, s, p.txId).Some? {
          var t := Add(g, s, p.txId).value;
          AddInputsEverything(g, t, id, i + 1);
          AddInputsGrows(g, t, id, i + 1);
          if AddInputs(g, t, id, i + 1).Some? {
            GrewWithin(t, AddInputs(g, t, id, i + 1).value, Needed(g, id) - {id});
          }
        }
      }
    }
    if AddInputs(g, s, id, i).Some? {
      HasNeedsStep(g, id, i, AddInputs(g, s, id, i).value.order);
    }
  }

  lemma NeedsAreEntries(g: Env, id: Id, p: Id, i: int)
    requires NeedsAt(g, id, p, i)
    ensures p in g.pool
  {
  }

  /** The recursive call for one parent leaves room for the rest. */
  lemma {:induction false} ParentGetsIn(g: Env, s: Asm, id: Id, p: Id, i: nat)
    requires EnvOk(g) && Fine(g, s) && ParentsFirst(g, s.order) && Fits(g, s, id)
    requires id in g.pool && NeedsAt(g, id, p, i) && p in g.pool && Rank(g, p) < Rank(g, id)
    ensures Add(g, s, p).Some? ==>
              var t := Add(g, s, p).value;
              Fine(g, t) && ParentsFirst(g, t.order) && Fits(g, t, id) && p in t.order
    decreases Rank(g, p), 2, 0
  {
    hide EnvOk, Fine, Needed, Grew, Add, ParentsFirst, Fits, NeedsAt, Elements;
    ParentNeeds(g, id, p, i);
    NeedsItself(g, p);
    FitsLess(g, s, id, s, p);
    AddGrows(g, s, p);
    AddsEverything(g, s, p);
    if Add(g, s, p).Some? {
      var t := Add(g, s, p).value;
      GrewWithin(s, t, Needed(g, p));
      FitsLess(g, s, id, t, id);
      ElementIsIn(t.order, p);
    }
  }

  lemma ElementIsIn(order: seq<Id>, id: Id)
    ensures id in Elements(order) <==> id in order
  {
  }

  /** The exact condition for an insertion to bring in the entry with everything it needs. */
  lemma EverythingIffItFits(g: Env, s: Asm, id: Id)
    requires EnvOk(g) && Fine(g, s) && ParentsFirst(g, s.order) && id in g.pool && Add(g, s, id).Some?
    ensures Needed(g, id) <= Elements(Add(g, s, id).value.order) <==> Fits(g, s, id)
    ensures Fits(g, s, id) ==> ParentsFirst(g, Add(g, s, id).value.order)
  {
    hide *;
    if Fits(g, s, id) {
      AddsEverything(g, s, id);
    }
    AddGrows(g, s, id);
    var t := Add(g, s, id).value;
    if Needed(g, id) <= Elements(t.order) {
      FitsIfAllIn(g, s, id, t);
    }
  }

  lemma FitsIfAllIn(g: Env, s: Asm, id: Id, t: Asm)
    requires Fine(g, t) && Grew(s, t, Needed(g, id)) && id in g.pool && Needed(g, id) <= Elements(t.order)
    ensures Fits(g, s, id)
  {
    hide NoDuplicates, Needed, SizeWith;
    NeedsItself(g, id);
    ElementIsIn(t.order, id);
    assert Elements(t.order) == Elements(s.order) + Needed(g, id);
  }

  // ----- When an insertion fails -----

  ghost predicate Clean(g: Env, order: seq<Id>) {
    forall a | a in order :: AllResolve(g, Needed(g, a))
  }

  ghost predicate InputsResolveFrom(g: Env, id: Id, i: nat)
    requires id in g.pool
  {
    forall j | i <= j < |g.pool[id].tx.ins| :: InputResolves(g, g.pool[id].tx.ins[j])
  }

  ghost predicate InputResolves(g: Env, txIn: TxIn) {
    && InputFound(g, txIn)
    && (txIn.toSpend.value !in g.utxos ==> AllResolve(g, Needed(g, txIn.toSpend.value.txId)))
  }

  lemma ResolvesByInputs(g: Env, id: Id)
    requires EnvOk(g) && id in g.pool
    ensures InputsResolveFrom(g, id, 0) <==> AllResolve(g, Needed(g, id))
  {
    hide EnvOk, FindInPool;
    NeedsItself(g, id);
    if InputsResolveFrom(g, id, 0) {
      forall x | x in Needed(g, id)
        ensures Resolves(g, x)
      {
        if x != id {
          var parent, i := NeedsComeFromParents(g, id, x);
          assert InputResolves(g, g.pool[id].tx.ins[i]);
        } else {
          assert forall j | 0 <= j < |g.pool[id].tx.ins| :: InputResolves(g, g.pool[id].tx.ins[j]);
        }
      }
    }
    if AllResolve(g, Needed(g, id)) {
      assert Resolves(g, id);
      hide Needed, Resolves;
      forall j | 0 <= j < |g.pool[id].tx.ins|
        ensures InputResolves(g, g.pool[id].tx.ins[j])
      {
        var txIn := g.pool[id].tx.ins[j];
        assert InputFound(g, txIn) by {
          FoundAt(g, id, j);
        }
        if txIn.toSpend.value !in g.utxos {
          FoundIsEntry(g, id, j);
          ParentNeeds(g, id, txIn.toSpend.value.txId, j);
        }
      }
    }
  }

  lemma FoundAt(g: Env, id: Id, j: nat)
    requires id in g.pool && j < |g.pool[id].tx.ins| && Resolves(g, id)
    ensures InputFound(g, g.pool[id].tx.ins[j])
  {
  }

  /** An insertion fails exactly if the entry, or something it needs, has an input that is found
      neither in the UTXO map nor in the pool. */
  lemma {:induction false} AddSucceedsIff(g: Env, s: Asm, id: Id)
    requires EnvOk(g) && Clean(g, s.order)
    ensures Add(g, s, id).Some? <==> (id in g.pool ==> AllResolve(g, Needed(g, id)))
    ensures Add(g, s, id).Some? ==> Clean(g, Add(g, s, id).value.order)
    decreases Rank(g, id), 1, 0
  {
    hide EnvOk, Needed, AllResolve, Bytes, AddInputs;
    if id !in s.order && id in g.pool {
      AddInputsSucceedIff(g, s, id, 0);
      ResolvesByInputs(g, id);
    }
  }

  lemma {:induction false} AddInputsSucceedIff(g: Env, s: Asm, id: Id, i: nat)
    requires EnvOk(g) && Clean(g, s.order) && id in g.pool && i <= |g.pool[id].tx.ins|
    ensures AddInputs(g, s, id, i).Some? <==> InputsResolveFrom(g, id, i)
    ensures AddInputs(g, s, id, i).Some? ==> Clean(g, AddInputs(g, s, id, i).value.order)
    decreases Rank(g, id), 0, |g.pool[id].tx.ins| - i
  {
    hide EnvOk, Needed, AllResolve, Add, FindInPool, Clean;
    var ins := g.pool[id].tx.ins;
    if i < |ins| {
      assert InputsResolveFrom(g, id, i) <==> InputResolves(g, ins[i]) && InputsResolveFrom(g, id, i + 1);
      if InputFound(g, ins[i]) {
        var p := ins[i].toSpend.value;
        if p in g.utxos {
          AddInputsSucceedIff(g, s, id, i + 1);
        } else {
          FoundIsEntry(g, id, i);
          ParentRanksLower(g, id, i);
          AddSucceedsIff(g, s, p.txId);
          if Add(g, s, p.txId).Some? {
            AddInputsSucceedIff(g, Add(g, s, p.txId).value, id, i + 1);
          }
        }
      }
    }
  }

  // ----- When something does not fit -----

  /** An oversize parent is skipped: asking for it changes nothing, so the outer loop would pick it
      again, and asking for its child puts the child into the block without it. */
  lemma OversizeParentIsSkipped(g: Env, parent: Id, child: Id)
    requires EnvOk(g) && parent in g.pool && child in g.pool && parent != child
    requires |g.pool[parent].tx.ins| == 1 && g.pool[parent].tx.ins[0].toSpend.Some?
    requires g.pool[parent].tx.ins[0].toSpend.value in g.utxos
    requires |g.pool[child].tx.ins| == 1 && InputFound(g, g.pool[child].tx.ins[0])
    requires NeedsAt(g, child, parent, 0)
    requires |EncodeBlock(g.codec, g.base)| + Bytes(g)(g.pool[parent]) >= MAX_BLOCK_SIZE
    requires |EncodeBlock(g.codec, g.base)| + Bytes(g)(g.pool[child]) < MAX_BLOCK_SIZE
    ensures var start := Asm([], |EncodeBlock(g.codec, g.base)|);
            && Add(g, start, parent) == Some(start)
            && Add(g, start, child) == Some(Asm([child], start.size + Bytes(g)(g.pool[child])))
            && !ParentsFirst(g, [child])
  {
    hide *;
    var start := Asm([], |EncodeBlock(g.codec, g.base)|);
    MinedInputsOnly(g, start, parent);
    OneSkippedParent(g, start, child, parent);
    assert start.order + [child] == [child];
    ChildAlone(g, parent, child);
  }

  lemma MinedInputsOnly(g: Env, s: Asm, id: Id)
    requires EnvOk(g) && id in g.pool && id !in s.order
    requires |g.pool[id].tx.ins| == 1 && g.pool[id].tx.ins[0].toSpend.Some?
    requires g.pool[id].tx.ins[0].toSpend.value in g.utxos && s.size + Bytes(g)(g.pool[id]) >= MAX_BLOCK_SIZE
    ensures Add(g, s, id) == Some(s)
  {
    hide EnvOk, FindInPool, EncodeTx, EncodeBlock;
    assert AddInputs(g, s, id, 1) == Some(s);
    assert AddInputs(g, s, id, 0) == Some(s);
  }

  lemma OneSkippedParent(g: Env, s: Asm, id: Id, parent: Id)
    requires EnvOk(g) && id in g.pool && id !in s.order
    requires |g.pool[id].tx.ins| == 1 && InputFound(g, g.pool[id].tx.ins[0]) && NeedsAt(g, id, parent, 0)
    requires Add(g, s, parent) == Some(s) && s.size + Bytes(g)(g.pool[id]) < MAX_BLOCK_SIZE
    ensures Add(g, s, id) == Some(Asm(s.order + [id], s.size + Bytes(g)(g.pool[id])))
  {
    hide EnvOk, FindInPool, EncodeTx, EncodeBlock;
    assert AddInputs(g, s, id, 1) == Some(s);
    assert AddInputs(g, s, id, 0) == Some(s);
  }

  lemma ChildAlone(g: Env, parent: Id, child: Id)
    requires NeedsAt(g, child, parent, 0)
    ensures !ParentsFirst(g, [child])
  {
    hide NeedsAt;
    assert NeedEdge(g)([child][0], parent);
  }

  // ----- Package rates -----

  function Quotient(fee: nat, size: nat): nat {
    if size > 0 then fee / size else 0
  }

  /** The fees and sizes of an entry and of its ancestors that are not yet in the block. */
  ghost function PackageFee(pool: Pool, id: Id, added: set<Id>): nat
    requires id in pool
  {
    pool[id].fee + Sum(Restrict(pool, Ancestors(pool, id) - added), FeeOf())
  }

  ghost function PackageSize(pool: Pool, id: Id, added: set<Id>): nat
    requires id in pool
  {
    pool[id].size + Sum(Restrict(pool, Ancestors(pool, id) - added), SizeOf())
  }

  /** Fee over size of the package, in 64 bits; 0 for an id without an entry. */
  ghost function PackageRate(pool: Pool, id: Id, added: set<Id>): nat {
    if id !in pool then 0
    else Quotient(PackageFee(pool, id, added) % TWO_64, PackageSize(pool, id, added) % TWO_64)
  }

  ghost function EffectiveRate(pool: Pool, id: Id, added: set<Id>): nat
    requires id in pool
  {
    if pool[id].feeRate > PackageRate(pool, id, added) then pool[id].feeRate else PackageRate(pool, id, added)
  }

  /** Neither the entry's own rate nor the fees of its package, in 64 bits, are above r coins a byte. */
  ghost predicate PaysAtMost(pool: Pool, id: Id, added: set<Id>, r: nat)
    requires id in pool
  {
    && pool[id].feeRate <= r
    && var fee, size := PackageFee(pool, id, added) % TWO_64, PackageSize(pool, id, added) % TWO_64;
       size > 0 ==> fee < (r + 1) * size
  }

  /** Every rate that bounds what this entry pays bounds what any other entry that is left pays. */
  ghost predicate IsBest(pool: Pool, added: set<Id>, id: Id) {
    && id in pool && id !in added
    && forall x, r: nat | x in pool && x !in added && PaysAtMost(pool, id, added, r) :: PaysAtMost(pool, x, added, r)
  }

  lemma QuotientBounds(fee: nat, size: nat)
    ensures var q := Quotient(fee, size);
            if size == 0 then q == 0 else q * size <= fee < (q + 1) * size
  {
  }

  lemma QuotientIff(fee: nat, size: nat, r: nat)
    ensures Quotient(fee, size) <= r <==> (size > 0 ==> fee < (r + 1) * size)
  {
    QuotientBounds(fee, size);
    if size > 0 {
      var q := Quotient(fee, size);
      hide Quotient;
      if q <= r {
        Scale(size, q + 1, r + 1);
      } else {
        Scale(size, r + 1, q);
      }
    }
  }

  /** The effective rate is the least rate that bounds what an entry and its package pay. */
  lemma EffectiveRateIff(pool: Pool, id: Id, added: set<Id>, r: nat)
    requires id in pool
    ensures EffectiveRate(pool, id, added) <= r <==> PaysAtMost(pool, id, added, r)
  {
    hide PackageFee, PackageSize, Quotient;
    QuotientIff(PackageFee(pool, id, added) % TWO_64, PackageSize(pool, id, added) % TWO_64, r);
  }

  lemma IsBestIff(pool: Pool, added: set<Id>, id: Id)
    requires id in pool && id !in added
    ensures IsBest(pool, added, id) <==>
            forall x | x in pool && x !in added :: EffectiveRate(pool, x, added) <= EffectiveRate(pool, id, added)
  {
    hide EffectiveRate, PaysAtMost;
    forall x, r: nat | x in pool
      ensures EffectiveRate(pool, x, added) <= r <==> PaysAtMost(pool, x, added, r)
    {
      EffectiveRateIff(pool, x, added, r);
    }
    assert PaysAtMost(pool, id, added, EffectiveRate(pool, id, added));
  }

  /** The rate kept in an entry is its own fee over its own size, rounded down. */
  ghost predicate OwnRate(e: Entry) {
    0 < e.size < TWO_64 && e.fee < TWO_64 && e.feeRate * e.size <= e.fee < (e.feeRate + 1) * e.size
  }

  lemma EntryHasOwnRate(rules: Rules, id: Id, e: Entry)
    requires EntryOk(rules, id, e) && e.size > 0
    ensures OwnRate(e)
  {
  }

  lemma NoneLeft(pool: Pool, id: Id, added: set<Id>)
    requires id in pool && Ancestors(pool, id) <= added
    ensures PackageFee(pool, id, added) == pool[id].fee && PackageSize(pool, id, added) == pool[id].size
  {
    hide Ancestors;
    assert Restrict(pool, Ancestors(pool, id) - added) == map[];
  }

  /** An entry whose ancestors are all in the block is compared by its own fee rate. */
  lemma AloneByOwnRate(pool: Pool, id: Id, added: set<Id>, r: nat)
    requires id in pool && Ancestors(pool, id) <= added && OwnRate(pool[id])
    ensures PaysAtMost(pool, id, added, r) <==> pool[id].feeRate <= r
  {
    NoneLeft(pool, id, added);
    var e := pool[id];
    hide PackageFee, PackageSize;
    if e.feeRate <= r {
      Scale(e.size, e.feeRate + 1, r + 1);
    }
  }

  /** One whose package pays more than its own rate is compared by its package. */
  lemma ByPackage(pool: Pool, id: Id, added: set<Id>, r: nat)
    requires id in pool
    requires var fee, size := PackageFee(pool, id, added), PackageSize(pool, id, added);
             fee < TWO_64 && 0 < size < TWO_64 && fee >= (pool[id].feeRate + 1) * size
    ensures PaysAtMost(pool, id, added, r) <==> PackageFee(pool, id, added) < (r + 1) * PackageSize(pool, id, added)
  {
    hide PackageFee, PackageSize;
    if r < pool[id].feeRate {
      Scale(PackageSize(pool, id, added), r + 1, pool[id].feeRate + 1);
    }
  }

  /** Of two entries with nothing left above them, one with the lower fee rate is never the best. */
  lemma BestPaysMost(pool: Pool, added: set<Id>, id: Id, x: Id)
    requires IsBest(pool, added, id) && x in pool && x !in added
    requires Ancestors(pool, id) <= added && Ancestors(pool, x) <= added && OwnRate(pool[id]) && OwnRate(pool[x])
    ensures pool[x].feeRate <= pool[id].feeRate
  {
    hide PaysAtMost, OwnRate, Ancestors;
    AloneByOwnRate(pool, id, added, pool[id].feeRate);
    AloneByOwnRate(pool, x, added, pool[id].feeRate);
  }

  lemma AncestorsListed(pool: Pool, id: Id, ids: seq<Id>)
    requires forall x :: x in ids <==> IsAncestor(pool, id, x)
    ensures Elements(ids) == Ancestors(pool, id) && forall x | x in ids :: x in pool
  {
    hide IsAncestor;
    forall x | IsAncestor(pool, id, x)
      ensures x in pool
    {
      AncestorIsEntry(pool, id, x);
    }
  }

  lemma NextAncestor(pool: Pool, ids: seq<Id>, j: nat, excluded: set<Id>)
    requires NoDuplicates(ids) && j < |ids| && ids[j] in pool
    ensures var before, after := Elements(ids[..j]) - excluded, Elements(ids[..j + 1]) - excluded;
            if ids[j] in excluded then after == before
            else && Sum(Restrict(pool, after), FeeOf()) == Sum(Restrict(pool, before), FeeOf()) + pool[ids[j]].fee
                 && Sum(Restrict(pool, after), SizeOf()) == Sum(Restrict(pool, before), SizeOf()) + pool[ids[j]].size
  {
    var before := Elements(ids[..j]) - excluded;
    assert Elements(ids[..j + 1]) == Elements(ids[..j]) + {ids[j]} && ids[j] !in Elements(ids[..j]);
    if ids[j] !in excluded {
      assert Elements(ids[..j + 1]) - excluded == before + {ids[j]};
      SumAdds(pool, FeeOf(), before, ids[j]);
      SumAdds(pool, SizeOf(), before, ids[j]);
    } else {
      assert Elements(ids[..j + 1]) - excluded == before;
    }
  }

  lemma NoAncestors(pool: Pool, ids: seq<Id>, excluded: set<Id>)
    ensures Sum(Restrict(pool, Elements(ids[..0]) - excluded), FeeOf()) == 0
    ensures Sum(Restrict(pool, Elements(ids[..0]) - excluded), SizeOf()) == 0
  {
    assert Restrict(pool, Elements(ids[..0]) - excluded) == map[];
  }

  method AddWrapped(ghost total: nat, wrapped: nat, x: nat) returns (sum: nat)
    requires wrapped == total % TWO_64
    ensures sum == (total + x) % TWO_64
  {
    WrapAdd(total, x);
    sum := (wrapped + x) % TWO_64;
  }

  /** compute_ancestor_package_fee_rate. */
  method ComputeAncestorPackageFeeRate(pool: Pool, txId: Id, excluded: set<Id>) returns (rate: nat)
    ensures rate == PackageRate(pool, txId, excluded)
    ensures txId !in pool ==> rate == 0
    ensures txId in pool ==>
              var fee, size := PackageFee(pool, txId, excluded) % TWO_64, PackageSize(pool, txId, excluded) % TWO_64;
              if size == 0 then rate == 0 else rate * size <= fee < (rate + 1) * size
  {
    if txId !in pool {
      return 0;
    }
    hide Quotient, Ancestors, IsAncestor, Sum, Restrict, Elements, NoDuplicates;
    var ancestors := FindAncestorTxIds(pool, txId);
    AncestorsListed(pool, txId, ancestors);
    var totalFee, totalSize := SumAncestors(pool, txId, ancestors, excluded);
    QuotientBounds(totalFee, totalSize);
    rate := Quotient(totalFee, totalSize);
  }

  method SumAncestors(pool: Pool, txId: Id, ancestors: seq<Id>, excluded: set<Id>)
    returns (totalFee: nat, totalSize: nat)
    requires txId in pool && NoDuplicates(ancestors) && forall x | x in ancestors :: x in pool
    ensures totalFee == (pool[txId].fee + Sum(Restrict(pool, Elements(ancestors) - excluded), FeeOf())) % TWO_64
    ensures totalSize == (pool[txId].size + Sum(Restrict(pool, Elements(ancestors) - excluded), SizeOf())) % TWO_64
  {
    hide *;
    ghost var fees, sizes := 0, 0;
    totalFee := AddWrapped(0, 0, pool[txId].fee);
    totalSize := AddWrapped(0, 0, pool[txId].size);
    NoAncestors(pool, ancestors, excluded);
    for j := 0 to |ancestors|
      invariant fees == Sum(Restrict(pool, Elements(ancestors[..j]) - excluded), FeeOf())
      invariant sizes == Sum(Restrict(pool, Elements(ancestors[..j]) - excluded), SizeOf())
      invariant totalFee == (pool[txId].fee + fees) % TWO_64
      invariant totalSize == (pool[txId].size + sizes) % TWO_64
    {
      NextAncestor(pool, ancestors, j, excluded);
      if ancestors[j] !in excluded {
        var e := pool[ancestors[j]];
        totalFee := AddWrapped(pool[txId].fee + fees, totalFee, e.fee);
        totalSize := AddWrapped(pool[txId].size + sizes, totalSize, e.size);
        fees, sizes := fees + e.fee, sizes + e.size;
      }
    }
    assert ancestors[..|ancestors|] == ancestors;
  }

  /** The inner loop of select_from_mempool, in whatever order the map is iterated. */
  method PickBest(pool: Pool, added: set<Id>) returns (best: Option<Id>)
    ensures best.Some? ==> IsBest(pool, added, best.value)
    ensures best.None? ==> pool.Keys <= added
    ensures best.Some? ==>
              forall x | && x in pool && x !in added && Ancestors(pool, x) <= added && OwnRate(pool[x])
                         && Ancestors(pool, best.value) <= added && OwnRate(pool[best.value]) ::
                pool[x].feeRate <= pool[best.value].feeRate
  {
    hide EffectiveRate, PackageRate, IsBest, OwnRate, Ancestors, PaysAtMost;
    best := None;
    var bestRate := 0;
    var todo := pool.Keys;
    while todo != {}
      invariant todo <= pool.Keys
      invariant best.Some? ==> best.value in pool && best.value !in added && bestRate == EffectiveRate(pool, best.value, added)
      invariant best.None? ==> forall x | x in pool && x !in todo :: x in added
      invariant best.Some? ==> forall x | x in pool && x !in todo && x !in added :: EffectiveRate(pool, x, added) <= bestRate
      decreases |todo|
    {
      var id :| id in todo;
      todo := todo - {id};
      if id !in added {
        var pkgRate := ComputeAncestorPackageFeeRate(pool, id, added);
        var effectiveRate := Max(pool[id].feeRate, pkgRate);
        EffectiveIs(pool, id, added);
        if effectiveRate > bestRate || best.None? {
          bestRate, best := effectiveRate, Some(id);
        }
      }
    }
    if best.Some? {
      IsBestIff(pool, added, best.value);
      forall x | && x in pool && x !in added && Ancestors(pool, x) <= added && OwnRate(pool[x])
                 && Ancestors(pool, best.value) <= added && OwnRate(pool[best.value])
        ensures pool[x].feeRate <= pool[best.value].feeRate
      {
        BestPaysMost(pool, added, best.value, x);
      }
    }
  }

  function Max(a: nat, b: nat): nat {
    if a < b then b else a
  }

  lemma EffectiveIs(pool: Pool, id: Id, added: set<Id>)
    requires id in pool
    ensures EffectiveRate(pool, id, added) == Max(pool[id].feeRate, PackageRate(pool, id, added))
  {
  }

  // ----- Greedy runs -----

  ghost function AddedAfter(g: Env, picks: seq<Id>): set<Id> {
    if picks == [] then {} else AddedAfter(g, picks[..|picks| - 1]) + Needed(g, picks[|picks| - 1])
  }

  /** Every pick had the best rate among what was left. */
  ghost predicate GreedyRun(g: Env, picks: seq<Id>) {
    picks == [] ||
    (GreedyRun(g, picks[..|picks| - 1]) &&
     IsBest(g.pool, AddedAfter(g, picks[..|picks| - 1]), picks[|picks| - 1]))
  }

  /** The order holds the picks in turn, each with what it needed and did not have. */
  ghost predicate InRunOrder(g: Env, picks: seq<Id>, order: seq<Id>) {
    forall k | 0 <= k <= |picks| ::
      var n := |AddedAfter(g, picks[..k])|;
      n <= |order| && Elements(order[..n]) == AddedAfter(g, picks[..k])
  }

  lemma NextPick(g: Env, picks: seq<Id>, order: seq<Id>, id: Id, order': seq<Id>)
    requires GreedyRun(g, picks) && Elements(order) == AddedAfter(g, picks) && InRunOrder(g, picks, order)
    requires IsBest(g.pool, Elements(order), id)
    requires order <= order' && NoDuplicates(order') && Elements(order') == Elements(order) + Needed(g, id)
    ensures GreedyRun(g, picks + [id]) && Elements(order') == AddedAfter(g, picks + [id])
    ensures InRunOrder(g, picks + [id], order')
  {
    hide IsBest, Needed, Elements, NoDuplicates;
    var next := picks + [id];
    assert next[..|picks|] == picks;
    LengthIsCount(order');
    assert order'[..|order'|] == order' && next[..|next|] == next;
    EarlierPicks(g, picks, order, id, order');
    hide AddedAfter;
  }

  /** What the order says of the earlier picks does not change. */
  lemma EarlierPicks(g: Env, picks: seq<Id>, order: seq<Id>, id: Id, order': seq<Id>)
    requires InRunOrder(g, picks, order) && order <= order'
    ensures forall k | 0 <= k <= |picks| ::
              var n := |AddedAfter(g, (picks + [id])[..k])|;
              n <= |order'| && Elements(order'[..n]) == AddedAfter(g, (picks + [id])[..k])
  {
    hide AddedAfter, Elements;
    forall k | 0 <= k <= |picks|
      ensures var n := |AddedAfter(g, (picks + [id])[..k])|;
              n <= |order'| && Elements(order'[..n]) == AddedAfter(g, (picks + [id])[..k])
    {
      assert (picks + [id])[..k] == picks[..k];
      var n := |AddedAfter(g, picks[..k])|;
      assert order'[..n] == order[..n];
    }
  }

  // ----- What the order says of fee rates -----

  /** Nothing else in the pool needs the entry. */
  ghost predicate NeededByNone(g: Env, y: Id) {
    forall x | x in g.pool && y in Needed(g, x) :: x == y
  }

  lemma {:induction false} PickOf(g: Env, picks: seq<Id>, y: Id) returns (k: nat)
    requires GreedyRun(g, picks) && y in AddedAfter(g, picks) && NeededByNone(g, y)
    ensures k < |picks| && picks[k] == y && IsBest(g.pool, AddedAfter(g, picks[..k]), y)
  {
    hide IsBest, Needed;
    var n := |picks| - 1;
    if y in AddedAfter(g, picks[..n]) {
      k := PickOf(g, picks[..n], y);
      assert picks[..n][..k] == picks[..k];
    } else {
      k := n;
      PickIsEntry(g.pool, AddedAfter(g, picks[..n]), picks[n]);
    }
  }

  lemma PickIsEntry(pool: Pool, added: set<Id>, id: Id)
    requires IsBest(pool, added, id)
    ensures id in pool && id !in added
  {
  }

  /** What is in before the pick stands before it. */
  lemma PickStandsAt(order: seq<Id>, n: nat, b: nat)
    requires NoDuplicates(order) && n <= |order| && b < |order| && order[b] !in Elements(order[..n])
    ensures n <= b && forall c | c in order[b + 1..] :: c !in Elements(order[..n])
  {
    forall c | c in order[b + 1..]
      ensures c !in Elements(order[..n])
    {
      var i :| 0 <= i < |order[b + 1..]| && order[b + 1..][i] == c;
      assert order[b + 1 + i] == c;
    }
  }

  /** The order of a greedy block: of an entry that nothing else needs and that waits for nothing, there is
      a point at which everything that was in stands before it, and no entry behind it then paid more than
      its own rate, neither alone nor with what it still needed. */
  lemma NoneBehindPaidMore(g: Env, picks: seq<Id>, order: seq<Id>, b: nat) returns (n: nat)
    requires GreedyRun(g, picks) && InRunOrder(g, picks, order) && NoDuplicates(order)
    requires Elements(order) == AddedAfter(g, picks) && b < |order| && order[b] in g.pool
    requires NeededByNone(g, order[b]) && Ancestors(g.pool, order[b]) == {} && OwnRate(g.pool[order[b]])
    ensures n <= b && forall c | c in order[b + 1..] && c in g.pool ::
                        PaysAtMost(g.pool, c, Elements(order[..n]), g.pool[order[b]].feeRate)
  {
    var y := order[b];
    hide PaysAtMost, OwnRate, Ancestors, NeededByNone, GreedyRun, AddedAfter, NoDuplicates;
    assert y in Elements(order);
    hide Elements;
    var k := PickOf(g, picks, y);
    n := |AddedAfter(g, picks[..k])|;
    var added := Elements(order[..n]);
    AloneByOwnRate(g.pool, y, added, g.pool[y].feeRate);
    PickIsEntry(g.pool, added, y);
    PickStandsAt(order, n, b);
  }

  /** Entries on their own come in the order of their fee rates. */
  lemma LonersAreSorted(g: Env, picks: seq<Id>, order: seq<Id>, a: nat, b: nat)
    requires GreedyRun(g, picks) && InRunOrder(g, picks, order) && NoDuplicates(order)
    requires Elements(order) == AddedAfter(g, picks) && a < b < |order| && order[a] in g.pool && order[b] in g.pool
    requires NeededByNone(g, order[a]) && Ancestors(g.pool, order[a]) == {} && OwnRate(g.pool[order[a]])
    requires Ancestors(g.pool, order[b]) == {} && OwnRate(g.pool[order[b]])
    ensures g.pool[order[b]].feeRate <= g.pool[order[a]].feeRate
  {
    hide GreedyRun, InRunOrder, NoDuplicates, Elements, NeededByNone, Ancestors, OwnRate, AddedAfter, PaysAtMost;
    var n := NoneBehindPaidMore(g, picks, order, a);
    assert order[b] == order[a + 1..][b - a - 1];
    AloneByOwnRate(g.pool, order[b], Elements(order[..n]), g.pool[order[a]].feeRate);
  }

  // ----- The state -----

  ghost function TxsOf(pool: Pool, order: seq<Id>): seq<Tx>
    requires forall x | x in order :: x in pool
  {
    seq(|order|, i requires 0 <= i < |order| => pool[order[i]].tx)
  }

  lemma ElementsAppend(order: seq<Id>, id: Id)
    ensures Elements(order + [id]) == Elements(order) + {id}
  {
  }

  lemma BlockGrows(codec: Codec, b: Block, tx: Tx)
    ensures |EncodeBlock(codec, b.(txs := b.txs + [tx]))| == |EncodeBlock(codec, b)| + |EncodeTx(codec, tx)|
  {
    var b' := b.(txs := b.txs + [tx]);
    SameHeader(codec, b, b');
    hide Header, EncodeTx;
    Serialization.EncodeAllNext(TxEncoder(codec), b'.txs, |b.txs|);
    assert b'.txs[..|b.txs|] == b.txs && b'.txs[..|b.txs| + 1] == b'.txs;
    ListLength(TxEncoder(codec), b.txs);
    ListLength(TxEncoder(codec), b'.txs);
  }

  lemma SameHeader(codec: Codec, a: Block, b: Block)
    requires b == a.(txs := b.txs)
    ensures Header(codec, a) == Header(codec, b)
  {
  }

  lemma ListLength<T>(encode: T -> seq<Byte>, xs: seq<T>)
    ensures |EncodeList(encode, xs)| == 4 + |EncodeAll(encode, xs)|
  {
    IntLength(|xs|, 4);
  }

  /** A block under construction. */
  class Assembler {
    const codec: Codec
    const utxos: UtxoMap
    const entries: Pool
    ghost const g: Env
    var block: Block
    var addedToBlock: set<Id>
    var currentBlockSize: UInt32
    ghost var order: seq<Id>

    ghost predicate Linked() {
      EnvOk(g) && g.codec == codec && g.utxos == utxos && g.pool == entries
    }

    ghost function State(): Asm
      reads `order, `currentBlockSize
    {
      Asm(order, currentBlockSize)
    }

    /** The block is the one started with and the transactions added since, and the running size
        is its serialized size. */
    ghost predicate Valid()
      reads this
    {
      && Linked() && Fine(g, State()) && addedToBlock == Elements(order)
      && (forall x | x in order :: x in entries)
      && block == g.base.(txs := g.base.txs + TxsOf(entries, order))
      && currentBlockSize == |EncodeBlock(codec, block)|
    }

    constructor (codec: Codec, utxos: UtxoMap, entries: Pool, start: Block, ghost rank: map<Id, nat>, ghost next: nat)
      requires EnvOk(Env(codec, utxos, entries, start, rank, next))
      ensures Valid() && order == [] && block == start && g == Env(codec, utxos, entries, start, rank, next)
    {
      this.codec, this.utxos, this.entries := codec, utxos, entries;
      g := Env(codec, utxos, entries, start, rank, next);
      block, addedToBlock, currentBlockSize, order := start, {}, |EncodeBlock(codec, start)|, [];
      new;
      assert Restrict(entries, {}) == map[];
      assert start.txs + TxsOf(entries, []) == start.txs;
    }

    /** try_add_to_block. When it fails the caller throws the block away. */
    method TryAddToBlock(txId: Id) returns (ok: bool)
      requires Valid()
      modifies this
      ensures Valid() && old(order) <= order
      ensures ok <==> Add(g, old(State()), txId).Some?
      ensures ok ==> State() == Add(g, old(State()), txId).value
      decreases Rank(g, txId)
    {
      hide EnvOk, Fine, NoDuplicates, EncodeBlock, EncodeTx, FindInPool;
      ghost var start := State();
      assert txId in Elements(order) <==> txId in order;
      if txId in addedToBlock || txId !in entries {
        return true;
      }
      var tx := entries[txId].tx;
      for i := 0 to |tx.ins|
        invariant Valid() && start.order <= order
        invariant AddInputs(g, start, txId, 0) == AddInputs(g, State(), txId, i)
      {
        if tx.ins[i].toSpend.None? {
          return false;
        }
        var p := tx.ins[i].toSpend.value;
        if p !in utxos {
          if FindInPool(p, PoolTxs(entries)).None? {
            return false;
          }
          FoundIsEntry(g, txId, i);
          NeedsAreEntries(g, txId, p.txId, i);
          ParentRanksLower(g, txId, i);
          ok := TryAddToBlock(p.txId);
          if !ok {
            return;
          }
        }
      }
      AddInputsGrows(g, start, txId, 0);
      NeedsItself(g, txId);
      GrewAppend(start, State(), Needed(g, txId), txId, 0);
      Append(txId);
      ok := true;
    }

    /** The end of try_add_to_block: append the transaction if it fits. */
    method Append(txId: Id)
      requires Valid() && txId in entries && txId !in order
      modifies this
      ensures Valid()
      ensures var size := old(currentBlockSize) + |EncodeTx(codec, entries[txId].tx)|;
              State() == if size < MAX_BLOCK_SIZE then Asm(old(order) + [txId], size) else old(State())
    {
      hide NoDuplicates, EncodeBlock, EncodeTx, EnvOk, Fine, Elements;
      var tx := entries[txId].tx;
      var size := |EncodeTx(codec, tx)|;
      if currentBlockSize + size >= MAX_BLOCK_SIZE {
        return;
      }
      FineAppend(g, State(), txId);
      BlockGrows(codec, block, tx);
      assert TxsOf(entries, order + [txId]) == TxsOf(entries, order) + [tx];
      ElementsAppend(order, txId);
      block := block.(txs := block.txs + [tx]);
      currentBlockSize := currentBlockSize + size;
      addedToBlock := addedToBlock + {txId};
      order := order + [txId];
    }

    /** The rounds of select_from_mempool; `None` means that the loop is still running after so
        many. Each round inserts the best entry that is left. The loop ends with the block it was
        given if the insertion fails, and otherwise when every entry is in: each once, parents first,
        in the order of the greedy picks. */
    method SelectFromMempool(rounds: nat) returns (result: Option<Block>, ghost picks: seq<Id>)
      requires Valid() && order == []
      modifies this
      ensures result.None? ==> IsRun(g, picks) && |picks| == rounds
      ensures result.Some? && !AllResolve(g, entries.Keys) ==> result.value == g.base
      ensures result.Some? && AllResolve(g, entries.Keys) ==>
                && Valid() && result.value == block && Elements(order) == entries.Keys && NoDuplicates(order)
                && (entries != map[] ==> SizeWith(g, entries.Keys) < MAX_BLOCK_SIZE)
                && ParentsFirst(g, order) && GreedyRun(g, picks) && InRunOrder(g, picks, order)
                && Elements(order) == AddedAfter(g, picks)
      ensures SizeWith(g, entries.Keys) < MAX_BLOCK_SIZE && rounds > |entries| ==> result.Some?
    {
      hide EnvOk, Fine, NoDuplicates, EncodeBlock, EncodeTx, Elements, AllResolve, ParentsFirst, Clean, Needed,
           GreedyRun, InRunOrder, SizeWith, IsBest, AddedAfter, Add, Reached;
      var start := block;
      picks := [];
      StartOfRun(g, order);
      StartReached(g, State());
      ghost var fits := SizeWith(g, entries.Keys) < MAX_BLOCK_SIZE;
      for round := 0 to rounds
        invariant Valid() && Clean(g, order) && Reached(g, picks, State()) && |picks| == round
        invariant fits ==> ParentsFirst(g, order) && |order| >= round
        invariant fits ==> GreedyRun(g, picks) && InRunOrder(g, picks, order) && Elements(order) == AddedAfter(g, picks)
      {
        ghost var s := State();
        OrderFits(g, s);
        var best := PickBest(entries, addedToBlock);
        if best.None? {
          AllIn(g, s, picks);
          result := Some(block);
          return;
        }
        var id := best.value;
        AddSucceedsIff(g, s, id);
        BestIsNew(g, s, id);
        var ok := TryAddToBlock(id);
        if !ok {
          SomeInputMissing(g, id);
          result := Some(start);
          return;
        }
        if fits {
          OneMorePick(g, s, id, picks);
        }
        OneMoreRound(g, s, id, picks);
        picks := picks + [id];
      }
      if fits {
        OrderFits(g, State());
      }
      RunEnds(g, picks, State());
      result := None;
    }
  }

  // ----- When the loop ends -----

  ghost function StartState(g: Env): Asm {
    Asm([], |EncodeBlock(g.codec, g.base)|)
  }

  /** The outer loop gets from the start to the state by these picks, each the best at its turn. */
  ghost predicate Reached(g: Env, picks: seq<Id>, t: Asm)
    requires EnvOk(g)
  {
    if picks == [] then t == StartState(g)
    else
      var n := |picks| - 1;
      exists s :: Reached(g, picks[..n], s) && IsBest(g.pool, Elements(s.order), picks[n]) && Add(g, s, picks[n]) == Some(t)
  }

  ghost predicate IsRun(g: Env, picks: seq<Id>)
    requires EnvOk(g)
  {
    exists t :: Reached(g, picks, t)
  }

  lemma RunEnds(g: Env, picks: seq<Id>, t: Asm)
    requires EnvOk(g) && Reached(g, picks, t)
    ensures IsRun(g, picks)
  {
    hide Reached;
  }

  lemma StartReached(g: Env, s: Asm)
    requires EnvOk(g) && Fine(g, s) && s.order == []
    ensures Reached(g, [], s) && Fine(g, StartState(g))
  {
    hide EncodeBlock;
    assert Restrict(g.pool, Elements([])) == map[];
  }

  lemma OneMoreRound(g: Env, s: Asm, id: Id, picks: seq<Id>)
    requires EnvOk(g) && Reached(g, picks, s) && IsBest(g.pool, Elements(s.order), id) && Add(g, s, id).Some?
    ensures Reached(g, picks + [id], Add(g, s, id).value)
  {
    hide EnvOk, IsBest, Add, Elements;
    var next := picks + [id];
    assert next[..|picks|] == picks && next[|picks|] == id;
  }

  /** Once everything is in, it fits. */
  lemma AllInFits(g: Env, s: Asm)
    requires Fine(g, s) && s.order != [] && g.pool.Keys <= Elements(s.order)
    ensures SizeWith(g, g.pool.Keys) < MAX_BLOCK_SIZE
  {
    assert Elements(s.order) == g.pool.Keys;
  }

  lemma AllIn(g: Env, s: Asm, picks: seq<Id>)
    requires EnvOk(g) && Fine(g, s) && Clean(g, s.order) && g.pool.Keys <= Elements(s.order) && Reached(g, picks, s)
    requires SizeWith(g, g.pool.Keys) < MAX_BLOCK_SIZE ==>
               && ParentsFirst(g, s.order) && GreedyRun(g, picks) && InRunOrder(g, picks, s.order)
               && Elements(s.order) == AddedAfter(g, picks)
    ensures AllResolve(g, g.pool.Keys) && Elements(s.order) == g.pool.Keys && NoDuplicates(s.order)
    ensures g.pool != map[] ==> SizeWith(g, g.pool.Keys) < MAX_BLOCK_SIZE
    ensures ParentsFirst(g, s.order) && GreedyRun(g, picks) && InRunOrder(g, picks, s.order)
    ensures Elements(s.order) == AddedAfter(g, picks)
  {
    hide *;
    CleanMeansAll(g, s.order);
    FineParts(g, s);
    if g.pool != map[] {
      var x :| x in g.pool;
      ElementIsIn(s.order, x);
      AllInFits(g, s);
    } else {
      NoPicks(g, s, picks);
      StartOfRun(g, s.order);
    }
  }

  lemma NoPicks(g: Env, s: Asm, picks: seq<Id>)
    requires EnvOk(g) && g.pool == map[] && Fine(g, s) && Reached(g, picks, s)
    ensures picks == [] && s.order == []
  {
    hide EnvOk, Add, PaysAtMost, SizeWith, NoDuplicates;
    assert forall x | x in s.order :: x in Elements(s.order);
  }

  lemma {:induction false} BestExists(pool: Pool, added: set<Id>, left: set<Id>) returns (best: Id)
    requires left != {} && left <= pool.Keys && left !! added
    ensures best in left && forall x | x in left :: EffectiveRate(pool, x, added) <= EffectiveRate(pool, best, added)
    decreases |left|
  {
    hide EffectiveRate;
    var y :| y in left;
    if left == {y} {
      best := y;
    } else {
      var other := BestExists(pool, added, left - {y});
      best := if EffectiveRate(pool, other, added) < EffectiveRate(pool, y, added) then y else other;
    }
  }

  lemma {:induction false} ReachedIsFine(g: Env, picks: seq<Id>, t: Asm)
    requires EnvOk(g) && Reached(g, picks, t)
    ensures Fine(g, t) && Clean(g, t.order)
  {
    hide EnvOk, Fine, IsBest, Add, Needed, AllResolve, Elements;
    if picks == [] {
      StartFine(g);
    } else {
      var n := |picks| - 1;
      var s :| Reached(g, picks[..n], s) && IsBest(g.pool, Elements(s.order), picks[n]) && Add(g, s, picks[n]) == Some(t);
      ReachedIsFine(g, picks[..n], s);
      AddGrows(g, s, picks[n]);
      AddSucceedsIff(g, s, picks[n]);
    }
  }

  lemma StartFine(g: Env)
    ensures Fine(g, StartState(g)) && Clean(g, StartState(g).order)
  {
    hide EncodeBlock;
    assert Restrict(g.pool, Elements([])) == map[];
  }

  /** A pool that does not fit: whatever was picked so far, there is a best entry left, its insertion
      succeeds, and the loop goes on. */
  lemma NeverEnds(g: Env, picks: seq<Id>, t: Asm) returns (id: Id)
    requires EnvOk(g) && AllResolve(g, g.pool.Keys) && g.pool != map[]
    requires SizeWith(g, g.pool.Keys) >= MAX_BLOCK_SIZE && Reached(g, picks, t)
    ensures IsBest(g.pool, Elements(t.order), id) && Add(g, t, id).Some?
    ensures Reached(g, picks + [id], Add(g, t, id).value)
  {
    hide *;
    ReachedIsFine(g, picks, t);
    SomethingLeft(g, t);
    var left := g.pool.Keys - Elements(t.order);
    id := BestExists(g.pool, Elements(t.order), left);
    BestIs(g.pool, Elements(t.order), id);
    NeedsResolve(g, id);
    AddSucceedsIff(g, t, id);
    OneMoreRound(g, t, id, picks);
  }

  lemma BestIs(pool: Pool, added: set<Id>, id: Id)
    requires id in pool && id !in added
    requires forall x | x in pool.Keys - added :: EffectiveRate(pool, x, added) <= EffectiveRate(pool, id, added)
    ensures IsBest(pool, added, id)
  {
    hide EffectiveRate, IsBest;
    IsBestIff(pool, added, id);
  }

  lemma SomethingLeft(g: Env, t: Asm)
    requires Fine(g, t) && g.pool != map[] && SizeWith(g, g.pool.Keys) >= MAX_BLOCK_SIZE
    ensures g.pool.Keys - Elements(t.order) != {}
  {
    hide *;
    var x :| x in g.pool;
    ElementIsIn(t.order, x);
    if g.pool.Keys <= Elements(t.order) {
      AllInFits(g, t);
    } else {
      var y :| y in g.pool.Keys && y !in Elements(t.order);
      assert y in g.pool.Keys - Elements(t.order);
    }
  }

  lemma NeedsResolve(g: Env, id: Id)
    requires AllResolve(g, g.pool.Keys)
    ensures AllResolve(g, Needed(g, id))
  {
    hide Resolves;
  }

  lemma {:induction false} RunsOfAnyLength(g: Env, n: nat) returns (picks: seq<Id>)
    requires EnvOk(g) && AllResolve(g, g.pool.Keys) && g.pool != map[] && SizeWith(g, g.pool.Keys) >= MAX_BLOCK_SIZE
    ensures IsRun(g, picks) && |picks| == n
  {
    hide EnvOk, AllResolve, SizeWith, Reached, Add, IsBest;
    if n == 0 {
      StartFine(g);
      StartReached(g, StartState(g));
      picks := [];
      RunEnds(g, picks, StartState(g));
    } else {
      var before := RunsOfAnyLength(g, n - 1);
      var t :| Reached(g, before, t);
      var id := NeverEnds(g, before, t);
      picks := before + [id];
      RunEnds(g, picks, Add(g, t, id).value);
    }
  }

  lemma {:induction false} RunsAreShort(g: Env, picks: seq<Id>, t: Asm)
    requires EnvOk(g) && SizeWith(g, g.pool.Keys) < MAX_BLOCK_SIZE && Reached(g, picks, t)
    ensures Fine(g, t) && ParentsFirst(g, t.order) && |picks| <= |t.order| <= |g.pool|
    ensures GreedyRun(g, picks) && InRunOrder(g, picks, t.order) && Elements(t.order) == AddedAfter(g, picks)
  {
    hide EnvOk, Fine, IsBest, Add, Needed, Elements, ParentsFirst, GreedyRun, InRunOrder, AddedAfter, SizeWith;
    ReachedIsFine(g, picks, t);
    OrderFits(g, t);
    if picks == [] {
      StartOfRun(g, t.order);
    } else {
      var n := |picks| - 1;
      var s :| Reached(g, picks[..n], s) && IsBest(g.pool, Elements(s.order), picks[n]) && Add(g, s, picks[n]) == Some(t);
      RunsAreShort(g, picks[..n], s);
      OneMorePick(g, s, picks[n], picks[..n]);
      assert picks[..n] + [picks[n]] == picks;
    }
  }

  ghost predicate RunsWithin(g: Env, bound: nat)
    requires EnvOk(g)
  {
    forall picks | IsRun(g, picks) :: |picks| <= bound
  }

  /** The loop of select_from_mempool ends, for a pool in which every input is found, if and only if
      the whole pool fits into the block. */
  lemma LoopEndsIff(g: Env)
    requires EnvOk(g) && AllResolve(g, g.pool.Keys) && g.pool != map[]
    ensures (exists bound: nat :: RunsWithin(g, bound)) <==> SizeWith(g, g.pool.Keys) < MAX_BLOCK_SIZE
  {
    hide EnvOk, AllResolve, SizeWith, Reached;
    if SizeWith(g, g.pool.Keys) < MAX_BLOCK_SIZE {
      forall picks | IsRun(g, picks)
        ensures |picks| <= |g.pool|
      {
        var t :| Reached(g, picks, t);
        RunsAreShort(g, picks, t);
      }
      assert RunsWithin(g, |g.pool|);
    } else if bound: nat :| RunsWithin(g, bound) {
      var picks := RunsOfAnyLength(g, bound + 1);
    }
  }

  /** After these picks the best entry that is left would be picked without getting in: something it
      needs, or the entry itself, is too big. */
  ghost predicate StuckAt(g: Env, picks: seq<Id>, s: Asm, id: Id)
    requires EnvOk(g)
  {
    Reached(g, picks, s) && IsBest(g.pool, Elements(s.order), id) && Add(g, s, id) == Some(s)
  }

  ghost predicate CanStick(g: Env)
    requires EnvOk(g)
  {
    exists picks, s, id :: StuckAt(g, picks, s, id)
  }

  lemma {:induction false} StuckForEver(g: Env, picks: seq<Id>, s: Asm, id: Id, n: nat)
    requires EnvOk(g) && StuckAt(g, picks, s, id)
    ensures Reached(g, picks + seq(n, _ => id), s)
  {
    hide EnvOk, Reached, IsBest, Add, Elements;
    if n == 0 {
      assert picks + seq(0, _ => id) == picks;
    } else {
      StuckForEver(g, picks, s, id, n - 1);
      OneMoreRound(g, s, id, picks + seq(n - 1, _ => id));
      assert picks + seq(n - 1, _ => id) + [id] == picks + seq(n, _ => id);
    }
  }

  lemma GrewOrSame(g: Env, s: Asm, t: Asm)
    requires Fine(g, s) && Fine(g, t) && s.order <= t.order
    ensures s == t || |s.order| < |t.order|
  {
    hide SizeWith, NoDuplicates, Elements;
    assert |s.order| == |t.order| ==> s.order == t.order;
  }

  lemma {:induction false} RoundsAreEntries(g: Env, picks: seq<Id>, t: Asm)
    requires EnvOk(g) && !CanStick(g) && Reached(g, picks, t)
    ensures |picks| <= |t.order|
  {
    hide EnvOk, Fine, IsBest, Add, Elements, CanStick, Clean, Needed;
    if picks != [] {
      var n := |picks| - 1;
      var s :| Reached(g, picks[..n], s) && IsBest(g.pool, Elements(s.order), picks[n]) && Add(g, s, picks[n]) == Some(t);
      RoundsAreEntries(g, picks[..n], s);
      ReachedIsFine(g, picks[..n], s);
      AddGrows(g, s, picks[n]);
      GrewOrSame(g, s, t);
      if s == t {
        SticksHere(g, picks[..n], s, picks[n]);
      }
    }
  }

  lemma SticksHere(g: Env, picks: seq<Id>, s: Asm, id: Id)
    requires EnvOk(g) && StuckAt(g, picks, s, id)
    ensures CanStick(g)
  {
    hide StuckAt;
  }

  /** For any pool, also one in which some input is found nowhere: the rounds are bounded exactly if
      no run comes to a best entry that resolves and adds nothing. Otherwise the loop ends after at most
      as many rounds as there are entries, and one more. */
  lemma LoopEndsIffNeverStuck(g: Env)
    requires EnvOk(g)
    ensures (exists bound: nat :: RunsWithin(g, bound)) <==> !CanStick(g)
    ensures !CanStick(g) ==> RunsWithin(g, |g.pool|)
  {
    hide EnvOk, Reached, StuckAt;
    if CanStick(g) {
      var picks, s, id :| StuckAt(g, picks, s, id);
      if bound: nat :| RunsWithin(g, bound) {
        StuckForEver(g, picks, s, id, bound + 1);
        RunEnds(g, picks + seq(bound + 1, _ => id), s);
      }
    } else {
      forall picks | IsRun(g, picks)
        ensures |picks| <= |g.pool|
      {
        var t :| Reached(g, picks, t);
        RoundsAreEntries(g, picks, t);
        ReachedIsFine(g, picks, t);
        OrderFits(g, t);
      }
      assert RunsWithin(g, |g.pool|);
    }
  }

  /** In a pool that admission kept sane every input is found. */
  lemma FundedResolves(g: Env)
    requires PoolMoney.Funded(g.utxos, g.pool)
    ensures AllResolve(g, g.pool.Keys)
  {
    hide FindInPool, NotMined;
    forall x, i | x in g.pool && 0 <= i < |g.pool[x].tx.ins|
      ensures InputFound(g, g.pool[x].tx.ins[i])
    {
      assert PoolMoney.Backed(g.utxos, g.pool, g.pool[x]);
      assert PoolMoney.Provided(g.utxos, g.pool, g.pool[x].tx.ins[i].toSpend.value);
    }
  }

  /** A looping pool: a single entry that does not fit is the best one in every round and never gets
      in. */
  lemma {:induction false} OversizeEntryLoops(g: Env, id: Id, n: nat)
    requires EnvOk(g) && g.pool.Keys == {id}
    requires |g.pool[id].tx.ins| == 1 && g.pool[id].tx.ins[0].toSpend.Some?
    requires g.pool[id].tx.ins[0].toSpend.value in g.utxos
    requires |EncodeBlock(g.codec, g.base)| + Bytes(g)(g.pool[id]) >= MAX_BLOCK_SIZE
    ensures IsBest(g.pool, Elements(StartState(g).order), id)
    ensures Reached(g, seq(n, _ => id), StartState(g))
  {
    hide EnvOk, EncodeBlock, EncodeTx, PaysAtMost;
    if n > 0 {
      OversizeEntryLoops(g, id, n - 1);
      MinedInputsOnly(g, StartState(g), id);
      hide Reached, Add;
      OneMoreRound(g, StartState(g), id, seq(n - 1, _ => id));
      assert seq(n - 1, _ => id) + [id] == seq(n, _ => id);
    }
  }

  lemma StartOfRun(g: Env, order: seq<Id>)
    requires order == []
    ensures ParentsFirst(g, order) && Clean(g, order) && GreedyRun(g, []) && InRunOrder(g, [], order)
    ensures Elements(order) == AddedAfter(g, [])
  {
  }

  lemma FineParts(g: Env, s: Asm)
    requires Fine(g, s)
    ensures NoDuplicates(s.order) && Elements(s.order) <= g.pool.Keys
  {
  }

  /** With room for the whole pool there is room for any entry. */
  lemma EverythingFits(g: Env, s: Asm, id: Id)
    requires Fine(g, s) && SizeWith(g, g.pool.Keys) < MAX_BLOCK_SIZE
    ensures Fits(g, s, id)
  {
    SumGrows(g.pool, Bytes(g), Elements(s.order) + Needed(g, id), g.pool.Keys);
  }

  lemma OrderFits(g: Env, s: Asm)
    requires Fine(g, s)
    ensures |s.order| <= |g.pool|
  {
    LengthIsCount(s.order);
    SubsetSize(Elements(s.order), g.pool.Keys);
  }

  lemma BestIsNew(g: Env, s: Asm, id: Id)
    requires IsBest(g.pool, Elements(s.order), id)
    ensures id in g.pool && id !in s.order
  {
  }

  lemma SomeInputMissing(g: Env, id: Id)
    requires !AllResolve(g, Needed(g, id))
    ensures !AllResolve(g, g.pool.Keys)
  {
    hide Resolves;
  }

  lemma CleanMeansAll(g: Env, order: seq<Id>)
    requires Clean(g, order) && g.pool.Keys <= Elements(order)
    ensures AllResolve(g, g.pool.Keys)
  {
    hide Resolves;
    forall x | x in g.pool
      ensures Resolves(g, x)
    {
      assert x in order && x in Needed(g, x);
      assert AllResolve(g, Needed(g, x));
    }
  }

  /** One round of the outer loop. */
  lemma OneMorePick(g: Env, s: Asm, id: Id, picks: seq<Id>)
    requires EnvOk(g) && Fine(g, s) && ParentsFirst(g, s.order) && Add(g, s, id).Some?
    requires SizeWith(g, g.pool.Keys) < MAX_BLOCK_SIZE && IsBest(g.pool, Elements(s.order), id)
    requires GreedyRun(g, picks) && InRunOrder(g, picks, s.order) && Elements(s.order) == AddedAfter(g, picks)
    ensures var t := Add(g, s, id).value;
            && ParentsFirst(g, t.order) && |s.order| < |t.order|
            && GreedyRun(g, picks + [id]) && InRunOrder(g, picks + [id], t.order)
            && Elements(t.order) == AddedAfter(g, picks + [id])
  {
    hide EnvOk, Fine, NoDuplicates, ParentsFirst, GreedyRun, InRunOrder, SizeWith, IsBest, AddedAfter, Add, Needed,
         Elements;
    var t := Add(g, s, id).value;
    BestIsNew(g, s, id);
    EverythingFits(g, s, id);
    AddGrows(g, s, id);
    AddsEverything(g, s, id);
    FineParts(g, t);
    NeedsItself(g, id);
    ElementIsIn(t.order, id);
    GrewWithin(s, t, Needed(g, id));
    assert Elements(t.order) == Elements(s.order) + Needed(g, id);
    NextPick(g, picks, s.order, id, t.order);
  }
}
