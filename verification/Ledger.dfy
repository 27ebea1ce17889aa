/** The map of unspent outputs as a fold over the connected blocks, and what disconnecting a
    block does to it. */
module Ledger {
  import opened Types

  // ----- Connecting -----

  ghost function InPoints(tx: Tx): set<OutPoint> {
    set i | 0 <= i < |tx.ins| && tx.ins[i].toSpend.Some? :: tx.ins[i].toSpend.value
  }

  ghost function OutPoints(tx: Tx): set<OutPoint> {
    set i | 0 <= i < |tx.outs| :: OutPoint(tx.id, i)
  }

  ghost predicate FitsHeight(height: int) {
    0 <= height < 0x8000_0000_0000_0000
  }

  /** The entries a transaction's outputs get at a height. */
  ghost function Created(tx: Tx, height: int): (m: UtxoMap)
    requires FitsHeight(height)
    ensures m.Keys == OutPoints(tx)
  {
    map p | p in OutPoints(tx) :: Utxo(tx.outs[p.idx], p, tx.IsCoinbase(), height)
  }

  ghost function ApplyTx(m: UtxoMap, tx: Tx, height: int): UtxoMap
    requires FitsHeight(height)
  {
    (m - InPoints(tx)) + Created(tx, height)
  }

  ghost function ApplyTxs(m: UtxoMap, txs: seq<Tx>, height: int): UtxoMap
    requires FitsHeight(height)
  {
    if txs == [] then m
    else ApplyTx(ApplyTxs(m, txs[..|txs| - 1], height), txs[|txs| - 1], height)
  }

  /** The UTXO map of a chain: every block after the first `base` ones applied at its height,
      which is its index plus one. */
  ghost function Fold(base: nat, chain: seq<Block>): UtxoMap
    requires FitsHeight(|chain|)
  {
    if |chain| <= base then map[]
    else
      var n := |chain| - 1;
      ApplyTxs(Fold(base, chain[..n]), chain[n].txs, n + 1)
  }

  // ----- Looking outputs up in the chain -----

  datatype Found = Found(tx: Tx, height: nat)

  /** A transaction and the height of its block: the first one with the id. */
  ghost function FindInTxs(txs: seq<Tx>, id: Id): Option<Tx> {
    if txs == [] then None
    else if txs[0].id == id then Some(txs[0])
    else FindInTxs(txs[1..], id)
  }

  ghost function FindTx(chain: seq<Block>, id: Id): Option<Found> {
    if chain == [] then None
    else
      var n := |chain| - 1;
      var earlier := FindTx(chain[..n], id);
      if earlier.Some? then earlier
      else
        var here := FindInTxs(chain[n].txs, id);
        if here.Some? then Some(Found(here.value, n + 1)) else None
  }

  ghost function LookUp(chain: seq<Block>, p: OutPoint): Option<Utxo>
    requires FitsHeight(|chain|)
  {
    FindTxHeight(chain, p.txId);
    var found := FindTx(chain, p.txId);
    if found.Some? && 0 <= p.idx < |found.value.tx.outs|
    then Some(Utxo(found.value.tx.outs[p.idx], p, found.value.tx.IsCoinbase(), found.value.height))
    else None
  }

  lemma {:induction false} FindTxHeight(chain: seq<Block>, id: Id)
    ensures FindTx(chain, id).Some? ==> 1 <= FindTx(chain, id).value.height <= |chain|
  {
    if chain != [] {
      FindTxHeight(chain[..|chain| - 1], id);
    }
  }

  // ----- Ids -----

  ghost function IdsOf(txs: seq<Tx>): set<Id> {
    set i | 0 <= i < |txs| :: txs[i].id
  }

  ghost function ChainIds(chain: seq<Block>): set<Id> {
    if chain == [] then {} else ChainIds(chain[..|chain| - 1]) + IdsOf(chain[|chain| - 1].txs)
  }

  ghost predicate DistinctIds(txs: seq<Tx>) {
    forall i, j | 0 <= i < j < |txs| :: txs[i].id != txs[j].id
  }

  /** The block's transaction ids are new to the chain and differ from each other. */
  ghost predicate FreshIds(chain: seq<Block>, b: Block) {
    DistinctIds(b.txs) && IdsOf(b.txs) !! ChainIds(chain)
  }

  ghost predicate UniqueIds(chain: seq<Block>) {
    forall i | 0 <= i < |chain| :: FreshIds(chain[..i], chain[i])
  }

  /** No transaction of the block spends an output of the same block. */
  ghost predicate NoSameBlockSpend(b: Block) {
    forall i, p | 0 <= i < |b.txs| && p in InPoints(b.txs[i]) :: p.txId !in IdsOf(b.txs)
  }

  lemma {:induction false} FindInTxsFirst(txs: seq<Tx>, id: Id)
    ensures id !in IdsOf(txs) ==> FindInTxs(txs, id).None?
    ensures DistinctIds(txs) ==> forall i | 0 <= i < |txs| && txs[i].id == id :: FindInTxs(txs, id) == Some(txs[i])
  {
    if txs != [] {
      var rest := txs[1..];
      FindInTxsFirst(rest, id);
      assert forall i | 1 <= i < |txs| :: rest[i - 1] == txs[i];
      if id !in IdsOf(txs) {
        assert txs[0].id in IdsOf(txs);
        assert forall i | 0 <= i < |rest| :: rest[i].id == txs[i + 1].id;
        assert id !in IdsOf(rest);
      }
    }
  }

  lemma {:induction false} FindTxOnlyKnown(chain: seq<Block>, id: Id)
    ensures FindTx(chain, id).Some? ==> id in ChainIds(chain)
  {
    if chain != [] {
      FindTxOnlyKnown(chain[..|chain| - 1], id);
      FindInTxsFirst(chain[|chain| - 1].txs, id);
    }
  }

  // ----- Every entry of the fold is what the chain says it is -----

  lemma {:induction false} ApplyTxsEntries(m: UtxoMap, txs: seq<Tx>, height: int, p: OutPoint)
    requires FitsHeight(height)
    requires p in ApplyTxs(m, txs, height)
    ensures var u := ApplyTxs(m, txs, height)[p];
            (p in m && u == m[p]) || exists i :: 0 <= i < |txs| && p in OutPoints(txs[i]) && u == Created(txs[i], height)[p]
  {
    if txs != [] {
      var k := |txs| - 1;
      if p !in OutPoints(txs[k]) {
        ApplyTxsEntries(m, txs[..k], height, p);
      }
    }
  }

  lemma LookUpEarlier(chain: seq<Block>, p: OutPoint)
    requires FitsHeight(|chain|) && chain != []
    requires LookUp(chain[..|chain| - 1], p).Some?
    ensures LookUp(chain, p) == LookUp(chain[..|chain| - 1], p)
  {
  }

  lemma LookUpHere(chain: seq<Block>, i: nat, p: OutPoint)
    requires FitsHeight(|chain|) && chain != []
    requires var n := |chain| - 1;
             FreshIds(chain[..n], chain[n]) && i < |chain[n].txs| && p in OutPoints(chain[n].txs[i])
    ensures var n := |chain| - 1;
            && LookUp(chain, p) == Some(Created(chain[n].txs[i], n + 1)[p])
            && Created(chain[n].txs[i], n + 1)[p].height == n + 1
            && p.txId in ChainIds(chain)
  {
    var n := |chain| - 1;
    var b := chain[n];
    assert b.txs[i].id in IdsOf(b.txs);
    FindTxOnlyKnown(chain[..n], p.txId);
    FindInTxsFirst(b.txs, p.txId);
  }

  lemma {:induction false} FoldAgreesWithChain(base: nat, chain: seq<Block>, p: OutPoint)
    requires FitsHeight(|chain|) && UniqueIds(chain)
    requires p in Fold(base, chain)
    ensures LookUp(chain, p) == Some(Fold(base, chain)[p])
    ensures p.txId in ChainIds(chain)
    ensures 1 <= Fold(base, chain)[p].height <= |chain|
  {
    if |chain| > base {
      var n := |chain| - 1;
      var before, b := chain[..n], chain[n];
      var m := Fold(base, before);
      assert Fold(base, chain) == ApplyTxs(m, b.txs, n + 1);
      assert FreshIds(before, b);
      assert ChainIds(chain) == ChainIds(before) + IdsOf(b.txs);
      UniquePrefix(chain, n);
      hide *;
      ApplyTxsEntries(m, b.txs, n + 1, p);
      if p in m && Fold(base, chain)[p] == m[p] {
        FoldAgreesWithChain(base, before, p);
        LookUpEarlier(chain, p);
      } else {
        var i :| 0 <= i < |b.txs| && p in OutPoints(b.txs[i]) && Fold(base, chain)[p] == Created(b.txs[i], n + 1)[p];
        LookUpHere(chain, i, p);
      }
    }
  }

  lemma UniquePrefix(chain: seq<Block>, n: nat)
    requires UniqueIds(chain) && n <= |chain|
    ensures UniqueIds(chain[..n])
  {
    forall i | 0 <= i < n
      ensures FreshIds(chain[..n][..i], chain[..n][i])
    {
      assert chain[..n][..i] == chain[..i];
      assert FreshIds(chain[..i], chain[i]);
    }
  }

  // ----- Disconnecting -----

  /** What disconnecting puts back for a transaction's inputs: the outputs the chain holds. */
  ghost function Restored(points: set<OutPoint>, chain: seq<Block>): UtxoMap
    requires FitsHeight(|chain|)
  {
    map p | p in points && LookUp(chain, p).Some? :: LookUp(chain, p).value
  }

  ghost function UndoTx(m: UtxoMap, tx: Tx, chain: seq<Block>): UtxoMap
    requires FitsHeight(|chain|)
  {
    (m + Restored(InPoints(tx), chain)) - OutPoints(tx)
  }

  /** disconnect_block walks the transactions forwards. */
  ghost function UndoTxs(m: UtxoMap, txs: seq<Tx>, chain: seq<Block>): UtxoMap
    requires FitsHeight(|chain|)
  {
    if txs == [] then m
    else UndoTx(UndoTxs(m, txs[..|txs| - 1], chain), txs[|txs| - 1], chain)
  }

  ghost function AllIns(txs: seq<Tx>): set<OutPoint> {
    if txs == [] then {} else AllIns(txs[..|txs| - 1]) + InPoints(txs[|txs| - 1])
  }

  ghost function AllCreated(txs: seq<Tx>, height: int): UtxoMap
    requires FitsHeight(height)
  {
    if txs == [] then map[] else AllCreated(txs[..|txs| - 1], height) + Created(txs[|txs| - 1], height)
  }

  ghost function AllOuts(txs: seq<Tx>): set<OutPoint> {
    if txs == [] then {} else AllOuts(txs[..|txs| - 1]) + OutPoints(txs[|txs| - 1])
  }

  /** No transaction spends an output of an earlier one in the list. */
  ghost predicate NoEarlierParent(txs: seq<Tx>) {
    forall i, j | 0 <= i < j < |txs| :: InPoints(txs[j]) !! OutPoints(txs[i])
  }

  /** Every input is unspent before the block or created inside it, as validation demands. */
  ghost predicate Resolvable(m: UtxoMap, txs: seq<Tx>) {
    forall p | p in AllIns(txs) :: p in m || p in AllOuts(txs)
  }

  lemma {:induction false} AllMembers(txs: seq<Tx>, p: OutPoint)
    ensures p in AllIns(txs) <==> exists i :: 0 <= i < |txs| && p in InPoints(txs[i])
    ensures p in AllOuts(txs) <==> exists i :: 0 <= i < |txs| && p in OutPoints(txs[i])
  {
    if txs != [] {
      var k := |txs| - 1;
      AllMembers(txs[..k], p);
      assert forall i | 0 <= i < k :: txs[..k][i] == txs[i];
      if p in InPoints(txs[k]) || p in OutPoints(txs[k]) {
        assert txs[k] == txs[|txs| - 1];
      }
    }
  }

  lemma {:induction false} CreatedKeys(txs: seq<Tx>, height: int)
    requires FitsHeight(height)
    ensures AllCreated(txs, height).Keys == AllOuts(txs)
  {
    if txs != [] {
      CreatedKeys(txs[..|txs| - 1], height);
    }
  }

  lemma LastSpendsNoneBefore(txs: seq<Tx>)
    requires txs != [] && NoEarlierParent(txs)
    ensures InPoints(txs[|txs| - 1]) !! AllOuts(txs[..|txs| - 1])
    ensures NoEarlierParent(txs[..|txs| - 1])
  {
    var k := |txs| - 1;
    forall p | p in InPoints(txs[k])
      ensures p !in AllOuts(txs[..k])
    {
      AllMembers(txs[..k], p);
      assert forall i | 0 <= i < k :: txs[..k][i] == txs[i];
    }
  }

  lemma {:induction false} ApplyClosedForm(m: UtxoMap, txs: seq<Tx>, height: int)
    requires FitsHeight(height) && NoEarlierParent(txs)
    ensures ApplyTxs(m, txs, height) == (m - AllIns(txs)) + AllCreated(txs, height)
  {
    if txs != [] {
      var k := |txs| - 1;
      LastSpendsNoneBefore(txs);
      ApplyClosedForm(m, txs[..k], height);
      CreatedKeys(txs[..k], height);
      Regroup(m, AllIns(txs[..k]), AllCreated(txs[..k], height), InPoints(txs[k]), Created(txs[k], height));
    }
  }

  lemma Regroup(m: UtxoMap, i: set<OutPoint>, c: UtxoMap, i': set<OutPoint>, c': UtxoMap)
    requires i' !! c.Keys
    ensures (((m - i) + c) - i') + c' == (m - (i + i')) + (c + c')
  {
  }

  lemma RegroupUndo(u: UtxoMap, r: UtxoMap, o: set<OutPoint>, r': UtxoMap, o': set<OutPoint>)
    requires r'.Keys !! o
    ensures (((u + r) - o) + r') - o' == (u + (r + r')) - (o + o')
  {
  }

  lemma {:induction false} UndoClosedForm(u: UtxoMap, txs: seq<Tx>, chain: seq<Block>)
    requires FitsHeight(|chain|) && NoEarlierParent(txs)
    ensures UndoTxs(u, txs, chain) == (u + Restored(AllIns(txs), chain)) - AllOuts(txs)
  {
    if txs == [] {
      assert Restored({}, chain) == map[];
    } else {
      var k := |txs| - 1;
      LastSpendsNoneBefore(txs);
      UndoClosedForm(u, txs[..k], chain);
      RestoredUnion(AllIns(txs[..k]), InPoints(txs[k]), chain);
      RegroupUndo(u, Restored(AllIns(txs[..k]), chain), AllOuts(txs[..k]), Restored(InPoints(txs[k]), chain), OutPoints(txs[k]));
    }
  }

  lemma RestoredUnion(a: set<OutPoint>, b: set<OutPoint>, chain: seq<Block>)
    requires FitsHeight(|chain|)
    ensures Restored(a + b, chain) == Restored(a, chain) + Restored(b, chain)
    ensures Restored(b, chain).Keys <= b
  {
  }

  /** Adding what was taken away and taking away what was added. */
  lemma Cancel(m: UtxoMap, ins: set<OutPoint>, c: UtxoMap, r: UtxoMap)
    requires m.Keys !! c.Keys
    requires forall p | p in ins && p !in c :: p in m && p in r && r[p] == m[p]
    requires r.Keys <= ins
    ensures (((m - ins) + c) + r) - c.Keys == m
  {
  }

  /** The chain still holds, and returns, every unspent output from before its last block. */
  lemma LookUpUnspent(base: nat, chain: seq<Block>, p: OutPoint)
    requires FitsHeight(|chain|) && UniqueIds(chain) && base < |chain|
    requires p in Fold(base, chain[..|chain| - 1])
    ensures LookUp(chain, p) == Some(Fold(base, chain[..|chain| - 1])[p])
  {
    UniquePrefix(chain, |chain| - 1);
    FoldAgreesWithChain(base, chain[..|chain| - 1], p);
    LookUpEarlier(chain, p);
  }

  /** New transactions have no unspent outputs yet. */
  lemma FreshOutputs(base: nat, chain: seq<Block>)
    requires FitsHeight(|chain|) && UniqueIds(chain) && base < |chain|
    ensures Fold(base, chain[..|chain| - 1]).Keys !! AllOuts(chain[|chain| - 1].txs)
  {
    var n := |chain| - 1;
    UniquePrefix(chain, n);
    assert FreshIds(chain[..n], chain[n]);
    forall p | p in Fold(base, chain[..n])
      ensures p !in AllOuts(chain[n].txs)
    {
      FoldAgreesWithChain(base, chain[..n], p);
      AllMembers(chain[n].txs, p);
    }
  }

  /** Disconnecting the tip restores the map from before it, when no transaction of the block
      spends an output of an earlier one in it. */
  lemma UndoRestores(base: nat, chain: seq<Block>)
    requires FitsHeight(|chain|) && UniqueIds(chain) && base < |chain|
    requires Resolvable(Fold(base, chain[..|chain| - 1]), chain[|chain| - 1].txs)
    requires NoEarlierParent(chain[|chain| - 1].txs)
    ensures UndoTxs(Fold(base, chain), chain[|chain| - 1].txs, chain) == Fold(base, chain[..|chain| - 1])
  {
    var n := |chain| - 1;
    var m, txs := Fold(base, chain[..n]), chain[n].txs;
    assert Fold(base, chain) == ApplyTxs(m, txs, n + 1);
    FreshOutputs(base, chain);
    hide *;
    ApplyClosedForm(m, txs, n + 1);
    UndoClosedForm(Fold(base, chain), txs, chain);
    CreatedKeys(txs, n + 1);
    var r := Restored(AllIns(txs), chain);
    RestoredUnion({}, AllIns(txs), chain);
    forall p | p in AllIns(txs) && p !in AllCreated(txs, n + 1)
      ensures p in m && p in r && r[p] == m[p]
    {
      ResolvedBefore(m, txs, p);
      LookUpUnspent(base, chain, p);
      RestoredAt(AllIns(txs), chain, p);
    }
    Cancel(m, AllIns(txs), AllCreated(txs, n + 1), r);
  }

  lemma ResolvedBefore(m: UtxoMap, txs: seq<Tx>, p: OutPoint)
    requires Resolvable(m, txs) && p in AllIns(txs) && p !in AllOuts(txs)
    ensures p in m
  {
  }

  lemma RestoredAt(points: set<OutPoint>, chain: seq<Block>, p: OutPoint)
    requires FitsHeight(|chain|) && p in points && LookUp(chain, p).Some?
    ensures p in Restored(points, chain) && Restored(points, chain)[p] == LookUp(chain, p).value
  {
  }

  /** An output restored by a later transaction than its creator is never removed again. */
  lemma {:induction false} PhantomStays(u: UtxoMap, txs: seq<Tx>, chain: seq<Block>, j: nat, p: OutPoint)
    requires FitsHeight(|chain|) && j < |txs|
    requires p in InPoints(txs[j]) && LookUp(chain, p).Some?
    requires forall k | j <= k < |txs| :: p !in OutPoints(txs[k])
    ensures p in UndoTxs(u, txs, chain)
  {
    var n := |txs| - 1;
    if j < n {
      PhantomStays(u, txs[..n], chain, j, p);
    } else {
      assert p in Restored(InPoints(txs[n]), chain);
    }
  }

  /** Undo is exact if and only if no transaction of the block spends an output of an earlier one. */
  lemma UndoIsExactIff(base: nat, chain: seq<Block>)
    requires FitsHeight(|chain|) && UniqueIds(chain) && base < |chain|
    requires Resolvable(Fold(base, chain[..|chain| - 1]), chain[|chain| - 1].txs)
    ensures UndoTxs(Fold(base, chain), chain[|chain| - 1].txs, chain) == Fold(base, chain[..|chain| - 1])
            <==> NoEarlierParent(chain[|chain| - 1].txs)
  {
    var n := |chain| - 1;
    var txs := chain[n].txs;
    if NoEarlierParent(txs) {
      UndoRestores(base, chain);
    } else {
      var i, j :| 0 <= i < j < |txs| && !(InPoints(txs[j]) !! OutPoints(txs[i]));
      var p :| p in InPoints(txs[j]) && p in OutPoints(txs[i]);
      FreshOutputs(base, chain);
      AllMembers(txs, p);
      assert FreshIds(chain[..n], chain[n]);
      LookUpHere(chain, i, p);
      PhantomStays(Fold(base, chain), txs, chain, j, p);
    }
  }

  // ----- The algorithms -----

  ghost function InPointsUpTo(tx: Tx, k: nat): set<OutPoint>
    requires k <= |tx.ins|
  {
    set i | 0 <= i < k && tx.ins[i].toSpend.Some? :: tx.ins[i].toSpend.value
  }

  ghost function OutPointsUpTo(tx: Tx, k: nat): set<OutPoint> {
    set i | 0 <= i < k :: OutPoint(tx.id, i)
  }

  ghost function CreatedUpTo(tx: Tx, k: nat, height: int): (m: UtxoMap)
    requires FitsHeight(height) && k <= |tx.outs|
    ensures m.Keys == OutPointsUpTo(tx, k)
  {
    map p | p in OutPointsUpTo(tx, k) :: Utxo(tx.outs[p.idx], p, tx.IsCoinbase(), height)
  }

  method RemoveInputs(m: UtxoMap, tx: Tx) returns (r: UtxoMap)
    ensures r == m - InPoints(tx)
  {
    r := m;
    for i := 0 to |tx.ins|
      invariant r == m - InPointsUpTo(tx, i)
    {
      if tx.ins[i].toSpend.Some? {
        assert InPointsUpTo(tx, i + 1) == InPointsUpTo(tx, i) + {tx.ins[i].toSpend.value};
        r := r - {tx.ins[i].toSpend.value};
      } else {
        assert InPointsUpTo(tx, i + 1) == InPointsUpTo(tx, i);
      }
    }
    assert InPointsUpTo(tx, |tx.ins|) == InPoints(tx);
  }

  lemma StepCreated(tx: Tx, i: nat, height: int)
    requires FitsHeight(height) && i < |tx.outs|
    ensures var p := OutPoint(tx.id, i);
            CreatedUpTo(tx, i + 1, height) == CreatedUpTo(tx, i, height)[p := Utxo(tx.outs[i], p, tx.IsCoinbase(), height)]
  {
    assert OutPointsUpTo(tx, i + 1) == OutPointsUpTo(tx, i) + {OutPoint(tx.id, i)};
  }

  method AddOutputs(m: UtxoMap, tx: Tx, height: Int64) returns (r: UtxoMap)
    requires FitsHeight(height)
    ensures r == m + Created(tx, height)
  {
    hide CreatedUpTo, Created, OutPointsUpTo, OutPoints;
    r := m;
    CreatedEnds(tx, height);
    for i := 0 to |tx.outs|
      invariant r == m + CreatedUpTo(tx, i, height)
    {
      var p := OutPoint(tx.id, i);
      StepCreated(tx, i, height);
      r := r[p := Utxo(tx.outs[i], p, tx.IsCoinbase(), height)];
    }
  }

  lemma CreatedEnds(tx: Tx, height: int)
    requires FitsHeight(height)
    ensures CreatedUpTo(tx, 0, height) == map[] && CreatedUpTo(tx, |tx.outs|, height) == Created(tx, height)
  {
  }

  method RemoveOutputs(m: UtxoMap, tx: Tx) returns (r: UtxoMap)
    ensures r == m - OutPoints(tx)
  {
    r := m;
    for i := 0 to |tx.outs|
      invariant r == m - OutPointsUpTo(tx, i)
    {
      assert OutPointsUpTo(tx, i + 1) == OutPointsUpTo(tx, i) + {OutPoint(tx.id, i)};
      r := r - {OutPoint(tx.id, i)};
    }
    assert OutPointsUpTo(tx, |tx.outs|) == OutPoints(tx);
  }

  /** remove_from_map for every input of a non-coinbase, then add_to_map for every output. */
  method ConnectTx(m: UtxoMap, tx: Tx, height: Int64) returns (r: UtxoMap)
    requires FitsHeight(height)
    ensures r == ApplyTx(m, tx, height)
  {
    r := m;
    if !tx.IsCoinbase() {
      r := RemoveInputs(m, tx);
    } else {
      assert InPoints(tx) == {};
    }
    r := AddOutputs(r, tx, height);
  }

  method ConnectTxs(m: UtxoMap, txs: seq<Tx>, height: Int64) returns (r: UtxoMap)
    requires FitsHeight(height)
    ensures r == ApplyTxs(m, txs, height)
  {
    r := m;
    assert txs[..0] == [];
    for i := 0 to |txs|
      invariant r == ApplyTxs(m, txs[..i], height)
    {
      assert txs[..i + 1][..i] == txs[..i];
      r := ConnectTx(r, txs[i], height);
    }
    assert txs[..|txs|] == txs;
  }

  lemma {:induction false} FindTxStable(chain: seq<Block>, h: nat, id: Id)
    requires h <= |chain|
    ensures FindTx(chain[..h], id).Some? ==> FindTx(chain, id) == FindTx(chain[..h], id)
    decreases |chain|
  {
    if h == |chain| {
      assert chain[..h] == chain;
    } else {
      assert chain[..|chain| - 1][..h] == chain[..h];
      FindTxStable(chain[..|chain| - 1], h, id);
    }
  }

  /** find_tx_out_for_tx_in: scan the chain for the first transaction with the id. */
  method FindTxOutForTxIn(p: OutPoint, chain: seq<Block>) returns (r: Option<Utxo>)
    requires FitsHeight(|chain|)
    ensures r == LookUp(chain, p)
  {
    assert chain[..0] == [];
    for height := 0 to |chain|
      invariant FindTx(chain[..height], p.txId).None?
    {
      assert chain[..height + 1][..height] == chain[..height];
      FindTxStable(chain, height + 1, p.txId);
      var txs := chain[height].txs;
      assert txs[0..] == txs;
      for i := 0 to |txs|
        invariant FindInTxs(txs, p.txId) == FindInTxs(txs[i..], p.txId)
      {
        assert txs[i..][1..] == txs[i + 1..];
        if txs[i].id == p.txId {
          if p.idx < 0 || p.idx >= |txs[i].outs| {
            return None;
          }
          return Some(Utxo(txs[i].outs[p.idx], p, txs[i].IsCoinbase(), height + 1));
        }
      }
    }
    assert chain[..|chain|] == chain;
    r := None;
  }

  /** The inputs whose outputs the chain does not hold: for each of them the code stores a null
      output under index -1, which is not an entry of the map here. */
  ghost function Lost(points: set<OutPoint>, chain: seq<Block>): set<OutPoint>
    requires FitsHeight(|chain|)
  {
    set p | p in points && LookUp(chain, p).None?
  }

  /** One transaction of disconnect_block: put its inputs back, remove its outputs. */
  method DisconnectTx(m: UtxoMap, tx: Tx, chain: seq<Block>) returns (r: UtxoMap, lost: set<OutPoint>)
    requires FitsHeight(|chain|)
    ensures r == UndoTx(m, tx, chain) && lost == Lost(InPoints(tx), chain)
  {
    hide LookUp, Restored, Lost, InPointsUpTo, InPoints, OutPoints;
    r, lost := m, {};
    RestoredEnds(m, tx, chain);
    for i := 0 to |tx.ins|
      invariant r == m + Restored(InPointsUpTo(tx, i), chain) && lost == Lost(InPointsUpTo(tx, i), chain)
    {
      StepRestored(m, tx, i, chain);
      if tx.ins[i].toSpend.Some? {
        var p := tx.ins[i].toSpend.value;
        var found := FindTxOutForTxIn(p, chain);
        if found.Some? {
          r := r[p := found.value];
        } else {
          lost := lost + {p};
        }
      }
    }
    r := RemoveOutputs(r, tx);
  }

  lemma RestoredEnds(m: UtxoMap, tx: Tx, chain: seq<Block>)
    requires FitsHeight(|chain|)
    ensures m + Restored(InPointsUpTo(tx, 0), chain) == m && Lost(InPointsUpTo(tx, 0), chain) == {}
    ensures InPointsUpTo(tx, |tx.ins|) == InPoints(tx)
  {
    hide LookUp;
  }

  lemma StepRestored(m: UtxoMap, tx: Tx, i: nat, chain: seq<Block>)
    requires FitsHeight(|chain|) && i < |tx.ins|
    ensures var before, after := m + Restored(InPointsUpTo(tx, i), chain), m + Restored(InPointsUpTo(tx, i + 1), chain);
            var lost, more := Lost(InPointsUpTo(tx, i), chain), Lost(InPointsUpTo(tx, i + 1), chain);
            if tx.ins[i].toSpend.None? then after == before && more == lost
            else
              var p := tx.ins[i].toSpend.value;
              var found := LookUp(chain, p);
              if found.Some? then after == before[p := found.value] && more == lost
              else after == before && more == lost + {p}
  {
    hide LookUp;
    if tx.ins[i].toSpend.Some? {
      var p := tx.ins[i].toSpend.value;
      assert InPointsUpTo(tx, i + 1) == InPointsUpTo(tx, i) + {p};
    } else {
      assert InPointsUpTo(tx, i + 1) == InPointsUpTo(tx, i);
    }
  }

  lemma StepLost(txs: seq<Tx>, i: nat, chain: seq<Block>)
    requires FitsHeight(|chain|) && i < |txs|
    ensures Lost(AllIns(txs[..i + 1]), chain) == Lost(AllIns(txs[..i]), chain) + Lost(InPoints(txs[i]), chain)
  {
    hide LookUp, InPoints;
    assert txs[..i + 1][..i] == txs[..i];
  }

  /** The loop of disconnect_block over the transactions. */
  method DisconnectTxs(m: UtxoMap, txs: seq<Tx>, chain: seq<Block>) returns (r: UtxoMap, lost: set<OutPoint>)
    requires FitsHeight(|chain|)
    ensures r == UndoTxs(m, txs, chain) && lost == Lost(AllIns(txs), chain)
  {
    hide UndoTx, LookUp, InPoints, Lost;
    r, lost := m, {};
    NothingLost(chain);
    assert txs[..0] == [];
    for i := 0 to |txs|
      invariant r == UndoTxs(m, txs[..i], chain) && lost == Lost(AllIns(txs[..i]), chain)
    {
      assert txs[..i + 1][..i] == txs[..i];
      StepLost(txs, i, chain);
      var more;
      r, more := DisconnectTx(r, txs[i], chain);
      lost := lost + more;
    }
    assert txs[..|txs|] == txs;
  }

  lemma NothingLost(chain: seq<Block>)
    requires FitsHeight(|chain|)
    ensures Lost({}, chain) == {}
  {
  }
}
