/** The mempool: admission, replacement by fee, eviction and expiry. */
module Mempool {
  import opened Types
  import opened TxRules
  import opened Ledger
  import opened SpendGraph
  import opened ChainLimits
  import opened PoolRules
  import opened PoolMoney
  import opened MedianTime
  import opened Supply
  import Wire

  // ----- What one step does to the entries -----

  ghost predicate IsWorst(pool: Pool, id: Id) {
    id in pool && forall x | x in pool :: pool[id].feeRate <= pool[x].feeRate
  }

  /** Each of the given entries in turn is evicted with its descendants. */
  ghost function AfterEvictions(pool: Pool, worsts: seq<Id>): Pool {
    if worsts == [] then pool
    else
      var before := AfterEvictions(pool, worsts[..|worsts| - 1]);
      before - Family(before, worsts[|worsts| - 1])
  }

  /** Every eviction hit an entry of least fee rate while the pool was over the cap. */
  ghost predicate EvictionRun(pool: Pool, worsts: seq<Id>) {
    worsts == [] ||
    var before := AfterEvictions(pool, worsts[..|worsts| - 1]);
    && EvictionRun(pool, worsts[..|worsts| - 1])
    && Sum(before, SizeOf()) > MAX_MEMPOOL_SIZE && IsWorst(before, worsts[|worsts| - 1])
  }

  lemma {:induction false} EvictionsKeep(pool: Pool, worsts: seq<Id>)
    ensures forall x | x in AfterEvictions(pool, worsts) :: x in pool && AfterEvictions(pool, worsts)[x] == pool[x]
  {
    hide Family;
    if worsts != [] {
      EvictionsKeep(pool, worsts[..|worsts| - 1]);
    }
  }

  /** Whatever the cap drove out paid no more a byte than anything that is left, or depended on an entry
      of which that is true. */
  lemma SurvivorsPayMore(pool: Pool, worsts: seq<Id>, x: Id, y: Id)
    requires EvictionRun(pool, worsts) && x in pool && x !in AfterEvictions(pool, worsts)
    requires y in AfterEvictions(pool, worsts)
    ensures y in pool && exists w :: && w in pool && (x == w || IsDescendant(pool, w, x))
                                     && pool[w].feeRate <= pool[y].feeRate
  {
    hide IsDescendant, EvictionRun, AfterEvictions;
    EvictionsKeep(pool, worsts);
    var k := EvictedWith(pool, worsts, x);
    WorstPaysLeast(pool, worsts, k, y);
  }

  lemma {:induction false} EvictedWith(pool: Pool, worsts: seq<Id>, x: Id) returns (k: nat)
    requires x in pool && x !in AfterEvictions(pool, worsts)
    ensures k < |worsts| && (x == worsts[k] || IsDescendant(pool, worsts[k], x))
  {
    hide IsDescendant, Family;
    var n := |worsts| - 1;
    var before := AfterEvictions(pool, worsts[..n]);
    if x in before {
      k := n;
      EvictionsKeep(pool, worsts[..n]);
      DescendsInMore(pool, before, worsts[n], x);
    } else {
      k := EvictedWith(pool, worsts[..n], x);
    }
  }

  lemma {:induction false} WorstPaysLeast(pool: Pool, worsts: seq<Id>, k: nat, y: Id)
    requires EvictionRun(pool, worsts) && k < |worsts| && y in AfterEvictions(pool, worsts)
    ensures worsts[k] in pool && y in pool && pool[worsts[k]].feeRate <= pool[y].feeRate
  {
    hide Family, Sum;
    var n := |worsts| - 1;
    var before := AfterEvictions(pool, worsts[..n]);
    EvictionsKeep(pool, worsts[..n]);
    if k < n {
      WorstPaysLeast(pool, worsts[..n], k, y);
    }
  }

  lemma DescendsInMore(pool: Pool, fewer: Pool, a: Id, x: Id)
    requires forall y | y in fewer :: y in pool && fewer[y] == pool[y]
    requires x in Family(fewer, a)
    ensures x == a || IsDescendant(pool, a, x)
  {
    hide SpendsFrom, Reaches;
    if x != a {
      SubgraphReaches(ChildEdge(fewer), ChildEdge(pool), a, x);
    }
  }

  /** No entry has a fee rate below the largest 64-bit value. */
  ghost predicate AllMaximal(pool: Pool) {
    forall x | x in pool :: pool[x].feeRate == MAX_UINT64
  }

  ghost predicate IsExpired(e: Entry, now: int) {
    now - e.insertionTime >= TX_EXPIRE_SECS
  }

  ghost function Expired(pool: Pool, now: int): set<Id> {
    set x | x in pool && IsExpired(pool[x], now)
  }

  ghost predicate HasDust(tx: Tx) {
    !tx.IsCoinbase() && exists i :: 0 <= i < |tx.outs| && tx.outs[i].value < DUST_THRESHOLD
  }

  ghost function EntryFor(rules: Rules, utxos: UtxoMap, pool: Pool, tx: Tx, now: int): Entry {
    var size, fee := rules.txSize(tx), Fee(utxos, PoolTxs(pool), tx);
    Entry(tx, size, fee, if size > 0 then fee / size else 0, now)
  }

  /** The transaction takes the place of whatever it conflicts with. */
  ghost function Inserted(rules: Rules, utxos: UtxoMap, pool: Pool, tx: Tx, now: int): Pool {
    (pool - Evicted(pool, tx))[tx.id := EntryFor(rules, utxos, pool, tx, now)]
  }

  /** Every conflict is replaceable, and the fee covers the 64-bit sum of the conflicting fees
      and one unit for each byte of the new transaction. */
  ghost predicate Pays(rules: Rules, utxos: UtxoMap, pool: Pool, tx: Tx) {
    var fees := ConflictFees(pool, Conflicting(pool, tx)) % TWO_64;
    && (forall x | x in Conflicting(pool, tx) :: SignalsRbf(pool[x].tx))
    && Fee(utxos, PoolTxs(pool), tx) > fees
    && Fee(utxos, PoolTxs(pool), tx) >= (fees + rules.txSize(tx)) % TWO_64
  }

  ghost predicate Admitted(rules: Rules, utxos: UtxoMap, blocks: seq<Block>, pool: Pool, tx: Tx) {
    && tx.id !in pool && !HasDust(tx)
    && TxValid(rules, Context(utxos, [], PoolTxs(pool), blocks), tx)
    && !DeepAncestry(pool, tx) && !CrowdedAncestor(pool, tx)
    && (Conflicting(pool, tx) != {} ==> Pays(rules, utxos, pool, tx))
  }

  ghost predicate AllFinal(tx: Tx) {
    forall i | 0 <= i < |tx.ins| :: tx.ins[i].sequence == SEQUENCE_FINAL
  }

  /** What is known of any transaction that gets in: it is lawful with the chain and the entries to spend
      from; no output is dust; no entry whose inputs are all final is in conflict with it; and its parents
      have 23 ancestors at most, whatever is above it 23 descendants. */
  ghost predicate FairlyAdmitted(rules: Rules, utxos: UtxoMap, blocks: seq<Block>, pool: Pool, tx: Tx) {
    && tx.id !in pool && Lawful(rules, Context(utxos, [], PoolTxs(pool), blocks), tx)
    && (forall i | 0 <= i < |tx.outs| :: tx.outs[i].value >= DUST_THRESHOLD)
    && (forall x | x in pool && AllFinal(pool[x].tx) :: InPoints(pool[x].tx) !! InPoints(tx))
    && (forall p | p in pool && SpendsFrom(tx, p) :: |Ancestors(pool, p)| <= 23)
    && (forall p, a | p in pool && SpendsFrom(tx, p) && (a == p || IsAncestor(pool, p, a)) :: |Descendants(pool, a)| <= 23)
  }

  /** Admission asks for just that, and of a transaction in conflict with entries that it pays for them. */
  lemma AdmittedIff(rules: Rules, utxos: UtxoMap, blocks: seq<Block>, pool: Pool, tx: Tx)
    ensures Admitted(rules, utxos, blocks, pool, tx) <==>
              && FairlyAdmitted(rules, utxos, blocks, pool, tx)
              && (Conflicting(pool, tx) != {} ==> Pays(rules, utxos, pool, tx))
  {
    hide Lawful, TxValid, Pays, SpendsFrom, IsAncestor, Ancestors, Descendants, DeepAncestry, CrowdedAncestor, AllFinal,
         InPoints, Conflicting, HasDust, PoolTxs;
    var ctx := Context(utxos, [], PoolTxs(pool), blocks);
    ValidIff(rules, ctx, tx);
    if Lawful(rules, ctx, tx) {
      LawfulHasOutPoints(rules, ctx, tx);
      DustIff(tx);
    }
    if Conflicting(pool, tx) != {} ==> Pays(rules, utxos, pool, tx) {
      FinalStays(rules, utxos, pool, tx);
    }
    LimitsIff(pool, tx);
  }

  lemma DustIff(tx: Tx)
    requires !tx.IsCoinbase()
    ensures HasDust(tx) <==> !forall i | 0 <= i < |tx.outs| :: tx.outs[i].value >= DUST_THRESHOLD
  {
  }

  lemma LawfulHasOutPoints(rules: Rules, ctx: Context, tx: Tx)
    requires Lawful(rules, ctx, tx)
    ensures !tx.IsCoinbase()
  {
    hide RightlySpent, LockPassed, InputLockOk, OutSum, InputSum;
    RightlyHasOutPoint(rules, ctx, tx);
  }

  lemma FinalStays(rules: Rules, utxos: UtxoMap, pool: Pool, tx: Tx)
    requires Conflicting(pool, tx) != {} ==> Pays(rules, utxos, pool, tx)
    ensures forall x | x in pool && AllFinal(pool[x].tx) :: InPoints(pool[x].tx) !! InPoints(tx)
  {
    hide Fee, ConflictFees, InPoints;
    forall x | x in pool && AllFinal(pool[x].tx)
      ensures InPoints(pool[x].tx) !! InPoints(tx)
    {
      assert !SignalsRbf(pool[x].tx);
      assert x !in Conflicting(pool, tx);
    }
  }

  lemma LimitsIff(pool: Pool, tx: Tx)
    ensures !DeepAncestry(pool, tx) <==> forall p | p in pool && SpendsFrom(tx, p) :: |Ancestors(pool, p)| <= 23
    ensures !CrowdedAncestor(pool, tx) <==>
            forall p, a | p in pool && SpendsFrom(tx, p) && (a == p || IsAncestor(pool, p, a)) :: |Descendants(pool, a)| <= 23
  {
    hide SpendsFrom, IsAncestor, Ancestors, Descendants;
    if !DeepAncestry(pool, tx) {
      forall p | p in pool && SpendsFrom(tx, p)
        ensures |Ancestors(pool, p)| <= 23
      {
        assert HasParent(pool, tx, p);
      }
    }
    if !CrowdedAncestor(pool, tx) {
      forall p, a | p in pool && SpendsFrom(tx, p) && (a == p || IsAncestor(pool, p, a))
        ensures |Descendants(pool, a)| <= 23
      {
        assert HasParent(pool, tx, p);
        assert IsAbove(pool, tx, a);
      }
    }
  }

  /** What the code takes for granted of a transaction it is given: it does not spend itself, none
      of its outputs are mined, and it does not spend what it would evict. */
  ghost predicate Reasonable(utxos: UtxoMap, pool: Pool, tx: Tx) {
    && !SpendsFrom(tx, tx.id) && NotMined(utxos, tx.id)
    && forall x | x in Evicted(pool, tx) :: !SpendsFrom(tx, x)
  }

  // ----- Why a step keeps the pool coherent -----

  lemma ValidResolves(rules: Rules, utxos: UtxoMap, blocks: seq<Block>, pool: Pool, tx: Tx)
    requires TxValid(rules, Context(utxos, [], PoolTxs(pool), blocks), tx)
    ensures InputsResolve(utxos, pool, tx) && rules.txSize(tx) <= MAX_BLOCK_SIZE
  {
    var ctx := Context(utxos, [], PoolTxs(pool), blocks);
    assert BasicsOk(rules, tx, false) && InputsOk(rules, ctx, tx);
    hide BasicsOk, LocksOk;
    forall i | 0 <= i < |tx.ins|
      ensures tx.ins[i].toSpend.Some?
      ensures tx.ins[i].toSpend.value in utxos || tx.ins[i].toSpend.value.txId in pool
    {
      assert InputOk(rules, ctx, tx, tx.ins[i]);
      assert tx.ins[i].toSpend.Some?;
      assert Resolve(ctx, tx.ins[i].toSpend.value).Some?;
    }
    assert BasicsOk(rules, tx, false) ==> rules.txSize(tx) <= MAX_BLOCK_SIZE by {
      BasicSize(rules, tx);
    }
  }

  lemma BasicSize(rules: Rules, tx: Tx)
    ensures BasicsOk(rules, tx, false) ==> rules.txSize(tx) <= MAX_BLOCK_SIZE
  {
  }

  lemma EntryForIsOk(rules: Rules, utxos: UtxoMap, pool: Pool, tx: Tx, now: int)
    requires rules.txSize(tx) <= MAX_BLOCK_SIZE
    ensures EntryOk(rules, tx.id, EntryFor(rules, utxos, pool, tx, now))
  {
  }

  /** What is left after the evictions has no conflict with the transaction and still resolves it. */
  lemma AfterEviction(rules: Rules, utxos: UtxoMap, pool: Pool, tx: Tx)
    requires Coherent(rules, utxos, pool) && InputsResolve(utxos, pool, tx)
    requires forall x | x in Evicted(pool, tx) :: !SpendsFrom(tx, x)
    ensures var left := pool - Evicted(pool, tx);
            && ClosedRemoval(pool, left) && Coherent(rules, utxos, left) && InputsResolve(utxos, left, tx)
            && forall x | x in left :: InPoints(tx) !! InPoints(left[x].tx)
  {
    var left := pool - Evicted(pool, tx);
    FamilyOfIsClosed(pool, Conflicting(pool, tx));
    ClosedKeepsCoherent(rules, utxos, pool, left);
    hide Coherent, ClosedRemoval, IsDescendant, InPoints;
    forall x | x in left
      ensures InPoints(tx) !! InPoints(left[x].tx)
    {
      assert x in Family(pool, x);
    }
    assert forall i | 0 <= i < |tx.ins| && tx.ins[i].toSpend.Some? :: SpendsFrom(tx, tx.ins[i].toSpend.value.txId);
  }

  lemma InsertedIsCoherent(rules: Rules, utxos: UtxoMap, pool: Pool, tx: Tx, now: int)
    requires Coherent(rules, utxos, pool) && Reasonable(utxos, pool, tx) && tx.id !in pool
    requires InputsResolve(utxos, pool, tx) && rules.txSize(tx) <= MAX_BLOCK_SIZE && !CrowdedAncestor(pool, tx)
    ensures Coherent(rules, utxos, Inserted(rules, utxos, pool, tx, now))
    ensures Childless(pool - Evicted(pool, tx), tx.id)
  {
    var left := pool - Evicted(pool, tx);
    AfterEviction(rules, utxos, pool, tx);
    EntryForIsOk(rules, utxos, pool, tx, now);
    StillUncrowded(pool, left, tx);
    assert Resolved(utxos, left);
    NewIsChildless(utxos, left, tx.id);
    hide Coherent, Evicted, EntryOk, CrowdedAncestor;
    InsertKeepsCoherent(rules, utxos, left, EntryFor(rules, utxos, pool, tx, now));
  }

  /** The last demand of Reasonable is needed: a replacement that spends what it evicts ends up with
      an input that nothing provides. */
  lemma SpendingWhatItEvicts(rules: Rules, utxos: UtxoMap, pool: Pool, tx: Tx, now: int, x: Id)
    requires x in Evicted(pool, tx) && SpendsFrom(tx, x) && NotMined(utxos, x) && x != tx.id
    ensures !Resolved(utxos, Inserted(rules, utxos, pool, tx, now))
  {
    var after := Inserted(rules, utxos, pool, tx, now);
    hide Evicted;
    assert x !in after && after[tx.id].tx == tx;
    var i :| 0 <= i < |tx.ins| && tx.ins[i].toSpend.Some? && tx.ins[i].toSpend.value.txId == x;
    assert !InputsResolve(utxos, after, after[tx.id].tx);
  }

  /** Exactly when a valid transaction leaves every input of a sane pool provided for: when it spends
      nothing that it evicts. */
  lemma StaysResolvedIff(rules: Rules, utxos: UtxoMap, blocks: seq<Block>, pool: Pool, tx: Tx, now: int)
    requires Coherent(rules, utxos, pool) && Funded(utxos, pool) && tx.id !in pool
    requires TxValid(rules, Context(utxos, [], PoolTxs(pool), blocks), tx)
    ensures Resolved(utxos, Inserted(rules, utxos, pool, tx, now)) <==>
            forall x | x in Evicted(pool, tx) :: !SpendsFrom(tx, x)
  {
    hide *;
    var left, e := pool - Evicted(pool, tx), EntryFor(rules, utxos, pool, tx, now);
    EntryParts(rules, utxos, pool, tx, now);
    ValidResolves(rules, utxos, blocks, pool, tx);
    if forall x | x in Evicted(pool, tx) :: !SpendsFrom(tx, x) {
      AfterEviction(rules, utxos, pool, tx);
      StaysResolved(rules, utxos, left);
      ResolvedWith(utxos, left, e);
    } else {
      var x :| x in Evicted(pool, tx) && SpendsFrom(tx, x);
      EvictedIsEntry(pool, tx, x);
      FundedAt(utxos, pool, x);
      SpendingWhatItEvicts(rules, utxos, pool, tx, now, x);
    }
  }

  lemma ResolvedWith(utxos: UtxoMap, pool: Pool, e: Entry)
    requires Resolved(utxos, pool) && InputsResolve(utxos, pool, e.tx)
    ensures Resolved(utxos, pool[e.tx.id := e])
  {
    var next := pool[e.tx.id := e];
    forall x | x in next
      ensures InputsResolve(utxos, next, next[x].tx)
    {
      assert x != e.tx.id ==> InputsResolve(utxos, pool, pool[x].tx);
    }
  }

  lemma EvictedIsEntry(pool: Pool, tx: Tx, x: Id)
    requires x in Evicted(pool, tx)
    ensures x in pool
  {
    hide Conflicting, Family;
  }

  /** One entry, which spends an unspent output p and may be replaced; and a transaction that spends
      both p and the entry's first output, and pays more. */
  ghost predicate Cannibal(rules: Rules, utxos: UtxoMap, blocks: seq<Block>, a: Entry, tx: Tx, p: OutPoint) {
    var q := OutPoint(a.tx.id, 0);
    && p in utxos && q !in utxos && p.txId != a.tx.id && tx.id != a.tx.id && |a.tx.outs| > 0
    && |a.tx.ins| == 1 && a.tx.ins[0].toSpend == Some(p) && a.tx.ins[0].sequence == SEQUENCE_RBF
    && |tx.ins| == 2 && tx.ins[0].toSpend == Some(p) && tx.ins[1].toSpend == Some(q)
    && tx.ins[0].sequence == tx.ins[1].sequence == SEQUENCE_FINAL && tx.lockTime == 0
    && rules.sigOk(tx, tx.ins[0], utxos[p]) && rules.sigOk(tx, tx.ins[1], Utxo(a.tx.outs[0], q, false, -1))
    && !(utxos[p].isCoinbase && |blocks| - utxos[p].height < COINBASE_MATURITY)
    && rules.txSize(tx) <= MAX_BLOCK_SIZE && |tx.outs| == 1 && DUST_THRESHOLD <= tx.outs[0].value <= MAX_MONEY
    && utxos[p].out.value <= MAX_MONEY && a.tx.outs[0].value <= MAX_MONEY && 0 < rules.txSize(tx)
    && utxos[p].out.value + a.tx.outs[0].value >= tx.outs[0].value + a.fee + rules.txSize(tx)
  }

  lemma CannibalPoints(rules: Rules, utxos: UtxoMap, blocks: seq<Block>, a: Entry, tx: Tx, p: OutPoint)
    requires Cannibal(rules, utxos, blocks, a, tx, p)
    ensures InPoints(a.tx) == {p} && p in InPoints(tx) && SpendsFrom(tx, a.tx.id)
    ensures !SpendsFrom(a.tx, a.tx.id) && SignalsRbf(a.tx) && !HasDust(tx)
  {
    assert a.tx.ins[0].toSpend.value in InPoints(a.tx) && tx.ins[0].toSpend.value in InPoints(tx);
  }

  /** Alone in the pool, the entry has no relatives. */
  lemma AloneInPool(pool: Pool, a: Entry)
    requires pool == map[a.tx.id := a] && !SpendsFrom(a.tx, a.tx.id)
    ensures Descendants(pool, a.tx.id) == {} && Ancestors(pool, a.tx.id) == {}
    ensures forall x :: !IsAncestor(pool, a.tx.id, x)
  {
    ClosedSetHoldsAll(ChildEdge(pool), {}, a.tx.id);
    ClosedSetHoldsAll(ParentEdge(pool), {}, a.tx.id);
  }

  lemma NoLimitReached(pool: Pool, a: Entry, tx: Tx)
    requires pool == map[a.tx.id := a] && !SpendsFrom(a.tx, a.tx.id)
    ensures !DeepAncestry(pool, tx) && !CrowdedAncestor(pool, tx)
  {
    AloneInPool(pool, a);
    hide IsAncestor, SpendsFrom, Ancestors, Descendants;
  }

  lemma CannibalConflicts(rules: Rules, utxos: UtxoMap, blocks: seq<Block>, pool: Pool, a: Entry, tx: Tx, p: OutPoint)
    requires pool == map[a.tx.id := a] && Cannibal(rules, utxos, blocks, a, tx, p)
    ensures Conflicting(pool, tx) == {a.tx.id} && a.tx.id in Evicted(pool, tx)
    ensures ConflictFees(pool, {a.tx.id}) == a.fee
  {
    CannibalPoints(rules, utxos, blocks, a, tx, p);
    hide Cannibal, InPoints, SpendsFrom, IsDescendant, SignalsRbf, HasDust;
    AloneInPool(pool, a);
    assert Conflicting(pool, tx) == {a.tx.id};
    assert a.tx.id in Family(pool, a.tx.id);
    EmptySum(FeeOf());
    EmptySum(FamilyFee(pool));
    assert Restrict(pool, {}) == map[] && Restrict(pool, {} + {a.tx.id}) == pool;
    AddConflict(pool, {}, a.tx.id);
    assert {} + {a.tx.id} == {a.tx.id};
  }

  lemma CannibalFee(rules: Rules, utxos: UtxoMap, blocks: seq<Block>, pool: Pool, a: Entry, tx: Tx, p: OutPoint)
    requires pool == map[a.tx.id := a] && Cannibal(rules, utxos, blocks, a, tx, p)
    ensures InputSum(Context(utxos, [], PoolTxs(pool), blocks), tx.ins) == utxos[p].out.value + a.tx.outs[0].value
    ensures OutSum(tx.outs) == tx.outs[0].value
    ensures Fee(utxos, PoolTxs(pool), tx) >= a.fee + rules.txSize(tx)
  {
    var ctx := Context(utxos, [], PoolTxs(pool), blocks);
    assert tx.outs[..0] == [] && OutSum([]) == 0;
    assert tx.ins[..1][..0] == [] && InputSum(ctx, []) == 0;
    assert Resolve(ctx, p) == Some(utxos[p]) && Resolve(ctx, OutPoint(a.tx.id, 0)).value.out == a.tx.outs[0];
    hide Resolve;
    assert InputSum(ctx, tx.ins[..1]) == utxos[p].out.value;
    assert InputSum(ctx, tx.ins) == utxos[p].out.value + a.tx.outs[0].value;
    assert OutSum(tx.outs) == tx.outs[0].value;
    SameSums(utxos, pool, blocks, tx.ins);
    hide InputSum, OutSum, FeeInputSum;
  }

  lemma CannibalIsValid(rules: Rules, utxos: UtxoMap, blocks: seq<Block>, pool: Pool, a: Entry, tx: Tx, p: OutPoint)
    requires pool == map[a.tx.id := a] && Cannibal(rules, utxos, blocks, a, tx, p)
    ensures TxValid(rules, Context(utxos, [], PoolTxs(pool), blocks), tx)
  {
    var ctx := Context(utxos, [], PoolTxs(pool), blocks);
    CannibalFee(rules, utxos, blocks, pool, a, tx, p);
    hide InputSum, OutSum, Fee;
    assert BasicsOk(rules, tx, false);
    assert LocksOk(tx, utxos, Times(blocks)) by {
      assert AsUInt32(SEQUENCE_FINAL) == 0xFFFF_FFFF;
      assert !HasRelativeLockTime(tx.ins[0]) && !HasRelativeLockTime(tx.ins[1]);
    }
    assert InputsOk(rules, ctx, tx);
    hide BasicsOk, LocksOk, InputsOk;
  }

  /** Such a transaction is admitted all the same: it passes validation while the entry is there, it
      outbids it, and then it stays in the pool with an input that nothing provides. */
  lemma CannibalIsAdmitted(rules: Rules, utxos: UtxoMap, blocks: seq<Block>, pool: Pool, a: Entry, tx: Tx,
                           p: OutPoint, now: int)
    requires pool == map[a.tx.id := a] && Cannibal(rules, utxos, blocks, a, tx, p) && NotMined(utxos, a.tx.id)
    ensures Admitted(rules, utxos, blocks, pool, tx) && a.tx.id in Evicted(pool, tx) && SpendsFrom(tx, a.tx.id)
    ensures !Resolved(utxos, Inserted(rules, utxos, pool, tx, now))
  {
    hide *;
    CannibalPoints(rules, utxos, blocks, a, tx, p);
    CannibalConflicts(rules, utxos, blocks, pool, a, tx, p);
    CannibalIsValid(rules, utxos, blocks, pool, a, tx, p);
    CannibalFee(rules, utxos, blocks, pool, a, tx, p);
    NoLimitReached(pool, a, tx);
    CannibalOutbids(rules, utxos, blocks, pool, a, tx, p);
    SpendingWhatItEvicts(rules, utxos, pool, tx, now, a.tx.id);
  }

  lemma CannibalOutbids(rules: Rules, utxos: UtxoMap, blocks: seq<Block>, pool: Pool, a: Entry, tx: Tx, p: OutPoint)
    requires pool == map[a.tx.id := a] && Cannibal(rules, utxos, blocks, a, tx, p)
    requires Conflicting(pool, tx) == {a.tx.id} && ConflictFees(pool, {a.tx.id}) == a.fee && SignalsRbf(a.tx)
    requires Fee(utxos, PoolTxs(pool), tx) >= a.fee + rules.txSize(tx)
    requires !HasDust(tx) && !DeepAncestry(pool, tx) && !CrowdedAncestor(pool, tx)
    requires TxValid(rules, Context(utxos, [], PoolTxs(pool), blocks), tx)
    ensures Admitted(rules, utxos, blocks, pool, tx) && tx.id != a.tx.id
  {
    hide Conflicting, ConflictFees, SignalsRbf, Fee, HasDust, DeepAncestry, CrowdedAncestor, TxValid;
  }

  /** The new entry pays its fee out of what the UTXO map and the other entries leave. */
  lemma InsertedIsSolvent(rules: Rules, utxos: UtxoMap, blocks: seq<Block>, pool: Pool, tx: Tx, now: int,
                          rank: map<Id, nat>, next: nat)
    requires Coherent(rules, utxos, pool) && Solvent(utxos, pool, rank, next)
    requires Reasonable(utxos, pool, tx) && tx.id !in pool &&
             TxValid(rules, Context(utxos, [], PoolTxs(pool), blocks), tx)
    ensures Solvent(utxos, Inserted(rules, utxos, pool, tx, now), rank[tx.id := next], next + 1)
  {
    hide *;
    var left, e := pool - Evicted(pool, tx), EntryFor(rules, utxos, pool, tx, now);
    EntryParts(rules, utxos, pool, tx, now);
    ReasonableParts(utxos, pool, tx);
    ValidResolves(rules, utxos, blocks, pool, tx);
    AfterEviction(rules, utxos, pool, tx);
    SolventParts(utxos, pool, rank, next);
    RankedKeeps(pool, left, rank, next);
    StaysResolved(rules, utxos, left);
    NewIsChildless(utxos, left, tx.id);
    InsertKeepsRank(left, e, rank, next);
    ValidIsBacked(rules, utxos, blocks, pool, e);
    InsertKeepsFunded(utxos, pool, left, e);
    InsertKeepsApart(rules, utxos, left, e);
    SolventFrom(utxos, left[tx.id := e], rank[tx.id := next], next + 1);
  }

  lemma EntryParts(rules: Rules, utxos: UtxoMap, pool: Pool, tx: Tx, now: int)
    ensures var e := EntryFor(rules, utxos, pool, tx, now);
            && e.tx == tx && e.size == rules.txSize(tx) && e.fee == Fee(utxos, PoolTxs(pool), tx)
            && Inserted(rules, utxos, pool, tx, now) == (pool - Evicted(pool, tx))[tx.id := e]
  {
  }

  lemma ReasonableParts(utxos: UtxoMap, pool: Pool, tx: Tx)
    requires Reasonable(utxos, pool, tx)
    ensures !SpendsFrom(tx, tx.id) && NotMined(utxos, tx.id)
    ensures forall x | x in Evicted(pool, tx) :: !SpendsFrom(tx, x)
    ensures forall x | x in pool && x !in pool - Evicted(pool, tx) :: !SpendsFrom(tx, x)
  {
    hide Evicted, SpendsFrom, NotMined;
  }

  lemma SolventParts(utxos: UtxoMap, pool: Pool, rank: map<Id, nat>, next: nat)
    requires Solvent(utxos, pool, rank, next)
    ensures Keyed(pool) && NoDoubleSpend(pool) && Funded(utxos, pool) && Ranked(pool, rank, next)
  {
    hide Keyed, NoDoubleSpend, Funded, Ranked;
  }

  lemma SolventFrom(utxos: UtxoMap, pool: Pool, rank: map<Id, nat>, next: nat)
    requires Keyed(pool) && NoDoubleSpend(pool) && Funded(utxos, pool) && Ranked(pool, rank, next)
    ensures Solvent(utxos, pool, rank, next)
  {
    hide Keyed, NoDoubleSpend, Funded, Ranked;
  }

  lemma StaysResolved(rules: Rules, utxos: UtxoMap, pool: Pool)
    requires Coherent(rules, utxos, pool)
    ensures Resolved(utxos, pool)
  {
    hide Resolved, EntriesOk, NoDoubleSpend, Limited;
  }

  lemma InsertKeepsApart(rules: Rules, utxos: UtxoMap, left: Pool, e: Entry)
    requires Coherent(rules, utxos, left) && forall x | x in left :: InPoints(e.tx) !! InPoints(left[x].tx)
    ensures Keyed(left[e.tx.id := e]) && NoDoubleSpend(left[e.tx.id := e])
  {
    EntriesAreKeyed(rules, utxos, left);
    hide InPoints, EntriesOk, Limited, Resolved;
  }

  /** Whatever a transaction spends, once its conflicts have gone no two entries spend one output. */
  lemma InsertedIsApart(rules: Rules, utxos: UtxoMap, pool: Pool, tx: Tx, now: int)
    requires NoDoubleSpend(pool)
    ensures NoDoubleSpend(pool - Evicted(pool, tx)) && NoDoubleSpend(Inserted(rules, utxos, pool, tx, now))
  {
    var left := pool - Evicted(pool, tx);
    EntryParts(rules, utxos, pool, tx, now);
    EvictsConflicts(pool, tx);
    hide InPoints, Evicted, Inserted, EntryFor;
  }

  lemma EvictsConflicts(pool: Pool, tx: Tx)
    ensures forall x | x in pool && x !in Evicted(pool, tx) :: InPoints(pool[x].tx) !! InPoints(tx)
  {
    hide InPoints, IsDescendant;
    forall x | x in pool && x !in Evicted(pool, tx)
      ensures InPoints(pool[x].tx) !! InPoints(tx)
    {
      assert x in Family(pool, x);
      assert x !in Conflicting(pool, tx);
    }
  }

  lemma InsertedIsOk(rules: Rules, utxos: UtxoMap, pool: Pool, tx: Tx, now: int)
    requires EntriesOk(rules, pool) && rules.txSize(tx) <= MAX_BLOCK_SIZE
    ensures EntriesOk(rules, pool - Evicted(pool, tx)) && EntriesOk(rules, Inserted(rules, utxos, pool, tx, now))
  {
    EntryForIsOk(rules, utxos, pool, tx, now);
    EntryParts(rules, utxos, pool, tx, now);
    hide EntryOk, Evicted, Inserted, EntryFor;
  }


  lemma OkIsKeyed(rules: Rules, pool: Pool)
    requires EntriesOk(rules, pool)
    ensures Keyed(pool)
  {
    forall x | x in pool
      ensures pool[x].tx.id == x
    {
      assert EntryOk(rules, x, pool[x]);
    }
  }

  /** Every transaction takes at least two bytes; in the node's encoding it takes sixteen. */
  ghost predicate TakesRoom(rules: Rules) {
    forall tx :: rules.txSize(tx) >= 2
  }

  lemma EncodingTakesRoom(codec: Wire.Codec, rules: Rules)
    requires forall tx :: rules.txSize(tx) == |Wire.EncodeTx(codec, tx)|
    ensures TakesRoom(rules)
  {
    forall tx: Tx
      ensures rules.txSize(tx) >= 2
    {
      Wire.IntLength(tx.lockTime, 8);
      hide Wire.EncodeList, Wire.EncodeInt;
      assert rules.txSize(tx) == |Wire.EncodeTx(codec, tx)|;
    }
  }

  /** Then a 64-bit fee cannot make the largest fee rate, and only an empty pool has nothing to evict. */
  lemma SomethingToEvict(rules: Rules, pool: Pool)
    requires EntriesOk(rules, pool) && TakesRoom(rules) && pool != map[]
    ensures !AllMaximal(pool)
  {
    var x :| x in pool;
    assert EntryOk(rules, x, pool[x]);
    assert pool[x].size >= 2;
    hide *;
    RateIsSmaller(pool[x].fee, pool[x].size);
    RateOf(rules, x, pool[x]);
    MaximalAt(pool, x);
  }

  lemma RateOf(rules: Rules, x: Id, e: Entry)
    requires EntryOk(rules, x, e) && e.size >= 2
    ensures e.feeRate == e.fee / e.size
  {
  }

  lemma MaximalAt(pool: Pool, x: Id)
    requires x in pool && pool[x].feeRate != MAX_UINT64
    ensures !AllMaximal(pool)
  {
  }

  lemma RateIsSmaller(fee: UInt64, size: nat)
    requires size >= 2
    ensures fee / size < MAX_UINT64
  {
    var q := fee / size;
    assert size * q <= fee;
    if q > 0 {
      ProductCovers(size - 1, q);
      assert size * q == (size - 1) * q + q;
    }
  }

  /** A closed removal leaves a solvent pool. */
  lemma SolventKeeps(utxos: UtxoMap, pool: Pool, left: Pool, rank: map<Id, nat>, next: nat)
    requires Solvent(utxos, pool, rank, next) && ClosedRemoval(pool, left)
    ensures Solvent(utxos, left, rank, next)
  {
    hide Funded, Ranked, InPoints;
    ClosedKeepsFunded(utxos, pool, left);
    RankedKeeps(pool, left, rank, next);
  }

  /** An accepted replacement, whatever it spends, leaves the pool with more fees than before, by at
      least one unit a byte, unless the 64-bit sum of the conflicting fees and the size wraps around;
      in a solvent pool it does not with at most 8784 inputs. */
  lemma ReplacementGains(rules: Rules, utxos: UtxoMap, pool: Pool, tx: Tx, now: int, rank: map<Id, nat>, next: nat)
    requires Keyed(pool) && tx.id !in pool && Pays(rules, utxos, pool, tx)
    requires || ConflictFees(pool, Conflicting(pool, tx)) + rules.txSize(tx) < TWO_64
             || (Solvent(utxos, pool, rank, next) && Total(utxos) <= MAX_MONEY &&
                 |tx.ins| <= 8784 && rules.txSize(tx) <= MAX_BLOCK_SIZE)
    ensures Sum(Inserted(rules, utxos, pool, tx, now), FeeOf()) >= Sum(pool, FeeOf()) + rules.txSize(tx)
  {
    hide *;
    ConflictsAreEntries(pool, tx);
    if ConflictFees(pool, Conflicting(pool, tx)) + rules.txSize(tx) >= TWO_64 {
      FewInputsNoWrap(utxos, pool, rank, next, tx);
    }
    ConflictFeesCover(pool, Conflicting(pool, tx));
    ReplacedFees(rules, utxos, pool, tx, now);
    EvictedIs(pool, tx);
    PaysParts(rules, utxos, pool, tx);
    WithoutWrap(ConflictFees(pool, Conflicting(pool, tx)), rules.txSize(tx));
  }

  lemma WithoutWrap(lost: nat, size: nat)
    requires lost + size < TWO_64
    ensures (lost % TWO_64 + size) % TWO_64 == lost + size
  {
  }

  /** In the node's own encoding no transaction that fits into a block has so many inputs. */
  lemma EveryReplacementGains(codec: Wire.Codec, rules: Rules, utxos: UtxoMap, pool: Pool, tx: Tx, now: int,
                              rank: map<Id, nat>, next: nat)
    requires rules.txSize(tx) == |Wire.EncodeTx(codec, tx)| && forall i | 0 <= i < |tx.ins| :: InEarnest(codec, tx.ins[i])
    requires Solvent(utxos, pool, rank, next) && Total(utxos) <= MAX_MONEY && tx.id !in pool
    requires Pays(rules, utxos, pool, tx) && rules.txSize(tx) <= MAX_BLOCK_SIZE
    ensures Sum(Inserted(rules, utxos, pool, tx, now), FeeOf()) >= Sum(pool, FeeOf()) + rules.txSize(tx)
  {
    hide *;
    SolventParts(utxos, pool, rank, next);
    FewInputsFit(codec, tx);
    ReplacementGains(rules, utxos, pool, tx, now, rank, next);
  }

  lemma EvictedIs(pool: Pool, tx: Tx)
    ensures Evicted(pool, tx) == FamilyOf(pool, Conflicting(pool, tx))
  {
  }

  lemma PaysParts(rules: Rules, utxos: UtxoMap, pool: Pool, tx: Tx)
    requires Pays(rules, utxos, pool, tx)
    ensures var lost := ConflictFees(pool, Conflicting(pool, tx)) % TWO_64;
            lost < Fee(utxos, PoolTxs(pool), tx) && Fee(utxos, PoolTxs(pool), tx) >= (lost + rules.txSize(tx)) % TWO_64
  {
    hide ConflictFees, Conflicting, Fee, SignalsRbf;
  }

  lemma ReplacedFees(rules: Rules, utxos: UtxoMap, pool: Pool, tx: Tx, now: int)
    requires tx.id !in pool
    ensures Sum(Inserted(rules, utxos, pool, tx, now), FeeOf()) + Sum(Restrict(pool, Evicted(pool, tx)), FeeOf()) ==
            Sum(pool, FeeOf()) + Fee(utxos, PoolTxs(pool), tx)
  {
    hide Evicted, Fee;
    var gone := Evicted(pool, tx);
    SumSplits(pool, FeeOf(), gone);
    SumWith(pool - gone, FeeOf(), tx.id, EntryFor(rules, utxos, pool, tx, now));
  }

  lemma EntriesAreKeyed(rules: Rules, utxos: UtxoMap, pool: Pool)
    requires Coherent(rules, utxos, pool)
    ensures Keyed(pool)
  {
    forall x | x in pool
      ensures pool[x].tx.id == x
    {
      assert EntryOk(rules, x, pool[x]);
    }
  }

  lemma ConflictsAreEntries(pool: Pool, tx: Tx)
    ensures Conflicting(pool, tx) <= pool.Keys
  {
  }

  lemma RateIsSmall(rules: Rules, utxos: UtxoMap, pool: Pool, rank: map<Id, nat>, next: nat, id: Id)
    requires Coherent(rules, utxos, pool) && Solvent(utxos, pool, rank, next) && Total(utxos) <= MAX_MONEY && id in pool
    ensures pool[id].feeRate < MAX_UINT64
  {
    assert EntryOk(rules, id, pool[id]);
    hide *;
    FeeIsWithin(utxos, pool, rank, next, id);
    RateIsBelowFee(rules, id, pool[id]);
  }

  lemma RateIsBelowFee(rules: Rules, id: Id, e: Entry)
    requires EntryOk(rules, id, e) && e.fee <= MAX_MONEY
    ensures e.feeRate < MAX_UINT64
  {
    if e.size > 0 {
      QuotientIsSmall(e.fee, e.size);
    }
  }

  lemma QuotientIsSmall(a: nat, b: nat)
    requires b > 0
    ensures a / b <= a
  {
    ProductCovers(b, a / b);
  }

  lemma ProductCovers(b: nat, q: int)
    requires b > 0
    ensures q >= 0 ==> b * q >= q
  {
    if q >= 0 {
      assert (b - 1) * q >= 0;
    }
  }

  lemma FamilyListed(pool: Pool, id: Id, ids: seq<Id>)
    requires |ids| > 0 && ids[|ids| - 1] == id
    requires forall x :: x in ids[..|ids| - 1] <==> IsDescendant(pool, id, x)
    ensures Elements(ids) == Family(pool, id)
  {
    hide IsDescendant;
    forall x
      ensures x in Elements(ids) <==> x in Family(pool, id)
    {
      assert x in ids <==> x in ids[..|ids| - 1] || x == id;
      if IsDescendant(pool, id, x) {
        DescendantIsEntry(pool, id, x);
      }
    }
  }

  lemma OneFamilyLess(pool: Pool, id: Id)
    requires id in pool
    ensures ClosedRemoval(pool, pool - Family(pool, id)) && |pool - Family(pool, id)| < |pool|
  {
    var left := pool - Family(pool, id);
    FamilyIsClosed(pool, id);
    hide Descendants, ClosedRemoval;
    SubsetSize(left.Keys, (pool - {id}).Keys);
    SmallerPool(pool, id);
  }

  lemma SomeRateIsSmall(rules: Rules, utxos: UtxoMap, pool: Pool, rank: map<Id, nat>, next: nat)
    requires Coherent(rules, utxos, pool) && Solvent(utxos, pool, rank, next) && Total(utxos) <= MAX_MONEY &&
             pool != map[]
    ensures !AllMaximal(pool)
  {
    var x :| x in pool;
    hide Coherent, Solvent, Total;
    RateIsSmall(rules, utxos, pool, rank, next, x);
  }

  lemma WorstIsEntry(pool: Pool, id: Id)
    requires IsWorst(pool, id)
    ensures id in pool
  {
  }

  lemma EmptySum(f: Entry -> nat)
    ensures Sum(map[], f) == 0
  {
  }

  lemma NothingGoes(pool: Pool)
    ensures ClosedRemoval(pool, pool) && AfterEvictions(pool, []) == pool && EvictionRun(pool, [])
  {
  }

  lemma AppendEviction(pool: Pool, worsts: seq<Id>, id: Id)
    requires EvictionRun(pool, worsts)
    ensures var before := AfterEvictions(pool, worsts);
            && AfterEvictions(pool, worsts + [id]) == before - Family(before, id)
            && (Sum(before, SizeOf()) > MAX_MEMPOOL_SIZE && IsWorst(before, id) ==> EvictionRun(pool, worsts + [id]))
  {
    hide Family, Sum, IsWorst;
    assert (worsts + [id])[..|worsts|] == worsts;
  }

  // ----- Tallies -----

  method AddDescendantFees(pool: Pool, desc: seq<Id>, fees0: UInt64, toRemove0: set<Id>)
    returns (fees: UInt64, toRemove: set<Id>)
    requires NoDuplicates(desc) && forall x | x in desc :: x in pool
    ensures fees == (fees0 + Sum(Restrict(pool, Elements(desc)), FeeOf())) % TWO_64
    ensures toRemove == toRemove0 + Elements(desc)
  {
    fees, toRemove := fees0, toRemove0;
    ghost var paid := 0;
    NoElements(pool, desc);
    hide Sum, Elements, NoDuplicates, Restrict;
    for j := 0 to |desc|
      invariant paid == Sum(Restrict(pool, Elements(desc[..j])), FeeOf())
      invariant fees == (fees0 + paid) % TWO_64
      invariant toRemove == toRemove0 + Elements(desc[..j])
    {
      NextElement(desc, j);
      SumAdds(pool, FeeOf(), Elements(desc[..j]), desc[j]);
      WrapAdd(fees0 + paid, pool[desc[j]].fee);
      fees := (fees + pool[desc[j]].fee) % TWO_64;
      paid := paid + pool[desc[j]].fee;
      toRemove := toRemove + {desc[j]};
    }
    assert desc[..|desc|] == desc;
  }

  lemma NoElements(pool: Pool, ids: seq<Id>)
    ensures Elements(ids[..0]) == {} && Sum(Restrict(pool, Elements(ids[..0])), FeeOf()) == 0
  {
    assert Restrict(pool, Elements(ids[..0])) == map[];
  }

  lemma NextElement(ids: seq<Id>, j: nat)
    requires NoDuplicates(ids) && j < |ids|
    ensures Elements(ids[..j + 1]) == Elements(ids[..j]) + {ids[j]} && ids[j] !in Elements(ids[..j])
  {
  }

  lemma DescendantsListed(pool: Pool, id: Id, ids: seq<Id>)
    requires forall x :: x in ids <==> IsDescendant(pool, id, x)
    ensures Elements(ids) == Descendants(pool, id) && forall x | x in ids :: x in pool
  {
    hide IsDescendant;
    forall x | IsDescendant(pool, id, x)
      ensures x in pool
    {
      DescendantIsEntry(pool, id, x);
    }
  }

  /** The loop of try_replace_by_fee over the conflicting entries: their 64-bit fee sum, and the
      set of everything that has to go. */
  method TallyConflicts(pool: Pool, conflicting: seq<Id>) returns (fees: UInt64, toRemove: set<Id>)
    requires Keyed(pool)
    requires NoDuplicates(conflicting) && forall x | x in conflicting :: x in pool
    ensures fees == ConflictFees(pool, Elements(conflicting)) % TWO_64
    ensures toRemove == FamilyOf(pool, Elements(conflicting))
  {
    hide ConflictFees, FamilyOf, IsDescendant, NoDuplicates, Elements, Descendants, Sum;
    fees, toRemove := 0, {};
    NoConflicts(pool, conflicting);
    for k := 0 to |conflicting|
      invariant fees == ConflictFees(pool, Elements(conflicting[..k])) % TWO_64
      invariant toRemove == FamilyOf(pool, Elements(conflicting[..k]))
    {
      ghost var ids := Elements(conflicting[..k]);
      var id := conflicting[k];
      NextElement(conflicting, k);
      AddConflict(pool, ids, id);
      WrapAdd(ConflictFees(pool, ids), pool[id].fee);
      fees := (fees + pool[id].fee) % TWO_64;
      toRemove := toRemove + {id};
      var desc := FindDescendantTxIds(pool, id);
      DescendantsListed(pool, id, desc);
      WrapAdd(ConflictFees(pool, ids) + pool[id].fee, Sum(Restrict(pool, Descendants(pool, id)), FeeOf()));
      fees, toRemove := AddDescendantFees(pool, desc, fees, toRemove);
      FamiliesJoin(pool, ids, id);
    }
    assert conflicting[..|conflicting|] == conflicting;
  }

  lemma NoConflicts(pool: Pool, ids: seq<Id>)
    ensures ConflictFees(pool, Elements(ids[..0])) == 0 && FamilyOf(pool, Elements(ids[..0])) == {}
  {
    assert Elements(ids[..0]) == {};
    assert Restrict(pool, {}) == map[];
  }

  lemma FamiliesJoin(pool: Pool, ids: set<Id>, id: Id)
    requires id in pool
    ensures FamilyOf(pool, ids + {id}) == FamilyOf(pool, ids) + {id} + Descendants(pool, id)
  {
    UnionOfFamilies(pool, ids, id);
  }

  // ----- The state -----

  class TxPool {
    const rules: Rules
    const utxos: UtxoMap
    const blocks: seq<Block>
    var entries: Pool
    var totalSizeBytes: nat
    ghost var rank: map<Id, nat>
    ghost var nextRank: nat

    /** What holds on every run, whatever is submitted: the entries are what was computed for them, no
        two of them spend one output, and the total is that of their sizes. */
    ghost predicate Counted()
      reads this
    {
      EntriesOk(rules, entries) && NoDoubleSpend(entries) && totalSizeBytes == Sum(entries, SizeOf())
    }

    /** The total is within the cap. */
    ghost predicate Capped()
      reads this
    {
      totalSizeBytes <= MAX_MEMPOOL_SIZE
    }

    /** Everything but the size cap. */
    ghost predicate Sane()
      reads this
    {
      && Counted() && Coherent(rules, utxos, entries)
      && Solvent(utxos, entries, rank, nextRank) && Total(utxos) <= MAX_MONEY
    }

    ghost predicate Valid()
      reads this
    {
      Sane() && Capped()
    }

    constructor (rules: Rules, utxos: UtxoMap, blocks: seq<Block>)
      ensures Counted() && Capped() && entries == map[] && this.rules == rules && this.utxos == utxos && this.blocks == blocks
      ensures Total(utxos) <= MAX_MONEY ==> Valid()
    {
      this.rules, this.utxos, this.blocks := rules, utxos, blocks;
      entries, totalSizeBytes, rank, nextRank := map[], 0, map[], 0;
    }

    /** remove_entry: the subtraction never has to saturate. */
    method RemoveEntry(id: Id)
      requires totalSizeBytes == Sum(entries, SizeOf())
      modifies `entries, `totalSizeBytes
      ensures entries == old(entries) - {id} && totalSizeBytes == Sum(entries, SizeOf())
    {
      if id !in entries {
        assert entries - {id} == entries;
        return;
      }
      SumWithout(entries, SizeOf(), id);
      if totalSizeBytes >= entries[id].size {
        totalSizeBytes := totalSizeBytes - entries[id].size;
      } else {
        assert false;
      }
      entries := entries - {id};
    }

    method RemoveAll(ids: seq<Id>)
      requires totalSizeBytes == Sum(entries, SizeOf())
      modifies `entries, `totalSizeBytes
      ensures entries == old(entries) - Elements(ids) && totalSizeBytes == Sum(entries, SizeOf())
    {
      for k := 0 to |ids|
        invariant entries == old(entries) - Elements(ids[..k]) && totalSizeBytes == Sum(entries, SizeOf())
      {
        RemoveEntry(ids[k]);
        assert Elements(ids[..k + 1]) == Elements(ids[..k]) + {ids[k]};
      }
      assert ids[..|ids|] == ids;
    }

    /** The first entry of the least fee rate below the largest 64-bit value, if there is one. */
    method PickWorst() returns (worst: Option<Id>)
      ensures worst.Some? ==> IsWorst(entries, worst.value)
      ensures worst.None? <==> AllMaximal(entries)
    {
      worst := None;
      var worstFeeRate: UInt64 := MAX_UINT64;
      var todo := entries.Keys;
      while todo != {}
        invariant todo <= entries.Keys
        invariant worst.Some? ==> worst.value in entries && entries[worst.value].feeRate == worstFeeRate < MAX_UINT64
        invariant worst.None? ==> worstFeeRate == MAX_UINT64
        invariant forall x | x in entries && x !in todo :: worstFeeRate <= entries[x].feeRate
        decreases |todo|
      {
        var id :| id in todo;
        todo := todo - {id};
        if entries[id].feeRate < worstFeeRate {
          worst, worstFeeRate := Some(id), entries[id].feeRate;
        }
      }
    }

    /** enforce_size_cap: stops with the total within the cap, having removed only whole families of
        entries with the least fee rate; it gives up early only if every entry has the largest rate
        there is, which two bytes an entry rule out, and so do the fees of a sane pool. */
    method EnforceSizeCap() returns (ghost worsts: seq<Id>)
      requires Counted()
      modifies `entries, `totalSizeBytes
      ensures Counted() && ClosedRemoval(old(entries), entries) && (old(Sane()) ==> Valid())
      ensures entries == AfterEvictions(old(entries), worsts) && EvictionRun(old(entries), worsts)
      ensures Capped() || AllMaximal(entries)
      ensures TakesRoom(rules) ==> Capped()
    {
      hide Coherent, Solvent, ClosedRemoval, AfterEvictions, EvictionRun, IsWorst, Family, IsDescendant, Sum,
           NoDuplicates, Elements, EntriesOk, NoDoubleSpend, Total, AllMaximal, TakesRoom;
      worsts := [];
      ghost var start, sane := entries, Sane();
      NothingGoes(start);
      while totalSizeBytes > MAX_MEMPOOL_SIZE && entries != map[]
        invariant Counted() && (sane ==> Sane()) && ClosedRemoval(start, entries)
        invariant entries == AfterEvictions(start, worsts) && EvictionRun(start, worsts)
        decreases |entries|
      {
        var worst := PickWorst();
        if worst.None? {
          if sane {
            SomeRateIsSmall(rules, utxos, entries, rank, nextRank);
          }
          if TakesRoom(rules) {
            SomethingToEvict(rules, entries);
          }
          return;
        }
        WorstIsEntry(entries, worst.value);
        ghost var before := entries;
        var ids := FindDescendantTxIds(entries, worst.value);
        ids := ids + [worst.value];
        FamilyListed(entries, worst.value, ids);
        RemoveAll(ids);
        OneFamilyLess(before, worst.value);
        KeepsAll(before, entries, rank, nextRank);
        ClosedTransitive(start, before, entries);
        AppendEviction(start, worsts, worst.value);
        worsts := worsts + [worst.value];
      }
      EmptySum(SizeOf());
    }

    lemma KeepsAll(pool: Pool, left: Pool, arrival: map<Id, nat>, next: nat)
      requires ClosedRemoval(pool, left)
      ensures EntriesOk(rules, pool) ==> EntriesOk(rules, left)
      ensures NoDoubleSpend(pool) ==> NoDoubleSpend(left)
      ensures Coherent(rules, utxos, pool) ==> Coherent(rules, utxos, left)
      ensures Solvent(utxos, pool, arrival, next) ==> Solvent(utxos, left, arrival, next)
    {
      hide Coherent, Solvent, EntryOk, InPoints;
      if Coherent(rules, utxos, pool) {
        ClosedKeepsCoherent(rules, utxos, pool, left);
      }
      if Solvent(utxos, pool, arrival, next) {
        SolventKeeps(utxos, pool, left, arrival, next);
      }
    }

    /** expire_old_transactions: what goes is exactly the entries past their time, with their
        descendants. */
    method ExpireOldTransactions(now: int)
      requires Counted()
      modifies `entries, `totalSizeBytes
      ensures Counted() && ClosedRemoval(old(entries), entries) && (old(Valid()) ==> Valid())
      ensures old(Capped()) ==> Capped()
      ensures entries == old(entries) - FamilyOf(old(entries), Expired(old(entries), now))
      ensures forall x | x in entries :: now < entries[x].insertionTime + TX_EXPIRE_SECS
    {
      hide Coherent, Solvent, ClosedRemoval, FamilyOf, Family, IsDescendant, Sum, NoDuplicates, Elements,
           Descendants, EntriesOk, NoDoubleSpend, Total;
      ghost var start := entries;
      var toRemove := CollectExpired(entries, now);
      NothingExpired(start, toRemove);
      for k := 0 to |toRemove|
        invariant entries == start - FamilyOf(start, Elements(toRemove[..k])) && totalSizeBytes == Sum(entries, SizeOf())
      {
        ghost var before := entries;
        var descIds := FindDescendantTxIds(entries, toRemove[k]);
        RemoveEntry(toRemove[k]);
        RemoveAll(descIds);
        DescendantsListed(before, toRemove[k], descIds);
        NextElement(toRemove, k);
        NextFamily(start, Elements(toRemove[..k]), toRemove[k]);
        MinusFamily(before, toRemove[k]);
      }
      assert toRemove[..|toRemove|] == toRemove;
      FamilyOfIsClosed(start, Expired(start, now));
      NoneExpired(start, now);
      KeepsAll(start, entries, rank, nextRank);
      LessIsSmaller(start, FamilyOf(start, Expired(start, now)));
    }

    method InsertEntry(e: Entry, ghost keeps: bool) returns (ghost worsts: seq<Id>)
      requires Counted() && e.tx.id !in entries
      requires EntriesOk(rules, entries[e.tx.id := e]) && NoDoubleSpend(entries[e.tx.id := e])
      requires keeps ==> Coherent(rules, utxos, entries[e.tx.id := e]) && Total(utxos) <= MAX_MONEY
      requires keeps ==> Solvent(utxos, entries[e.tx.id := e], rank[e.tx.id := nextRank], nextRank + 1)
      modifies this
      ensures Counted() && (keeps ==> Valid())
      ensures entries == AfterEvictions(old(entries)[e.tx.id := e], worsts)
      ensures EvictionRun(old(entries)[e.tx.id := e], worsts)
      ensures Capped() || AllMaximal(entries)
      ensures TakesRoom(rules) ==> Capped()
    {
      hide Coherent, Solvent, AfterEvictions, EvictionRun, Sum, Total, AllMaximal, EntriesOk, NoDoubleSpend, TakesRoom;
      SumWith(entries, SizeOf(), e.tx.id, e);
      totalSizeBytes := totalSizeBytes + e.size;
      entries := entries[e.tx.id := e];
      rank, nextRank := rank[e.tx.id := nextRank], nextRank + 1;
      worsts := EnforceSizeCap();
    }

    /** The checks of try_replace_by_fee: the verdict, the fee, and what would have to go. */
    method WeighReplacement(tx: Tx) returns (pays: bool, newFee: UInt64, toRemove: set<Id>)
      requires Counted()
      ensures pays <==> Pays(rules, utxos, entries, tx)
      ensures pays ==> newFee == Fee(utxos, PoolTxs(entries), tx) && toRemove == Evicted(entries, tx)
    {
      hide SpendsFrom, Sum, FamilyOf, ConflictFees, Conflicting, NoDuplicates, Elements, SignalsRbf, Fee;
      pays, newFee, toRemove := false, 0, {};
      OkIsKeyed(rules, entries);
      ConflictsAreEntries(entries, tx);
      var conflicting := FindConflictingTxs(entries, tx);
      ElementsAre(conflicting);
      for k := 0 to |conflicting|
        invariant forall j | 0 <= j < k :: SignalsRbf(entries[conflicting[j]].tx)
      {
        if !SignalsRbf(entries[conflicting[k]].tx) {
          return;
        }
      }
      var conflictingFees;
      conflictingFees, toRemove := TallyConflicts(entries, conflicting);
      newFee := CalculateFees(utxos, PoolTxs(entries), tx);
      if newFee <= conflictingFees {
        return;
      }
      var txSize := rules.txSize(tx);
      var minIncrement := (txSize * INCREMENTAL_RELAY_FEE + 999) / 1000;
      assert minIncrement == txSize;
      pays := newFee >= (conflictingFees + minIncrement) % TWO_64;
    }

    /** try_replace_by_fee, for a transaction that passed validation. */
    method TryReplaceByFee(tx: Tx, now: int) returns (accepted: bool, ghost worsts: seq<Id>)
      requires Counted() && tx.id !in entries && TxValid(rules, Context(utxos, [], PoolTxs(entries), blocks), tx)
      requires !CrowdedAncestor(entries, tx)
      modifies this
      ensures Counted() && (old(Valid()) && Reasonable(utxos, old(entries), tx) ==> Valid())
      ensures accepted <==> Pays(rules, utxos, old(entries), tx)
      ensures accepted ==>
                forall x | x in old(entries) && AllFinal(old(entries)[x].tx) :: InPoints(old(entries)[x].tx) !! InPoints(tx)
      ensures accepted ==> EvictionRun(Inserted(rules, utxos, old(entries), tx, now), worsts)
      ensures accepted ==> entries == AfterEvictions(Inserted(rules, utxos, old(entries), tx, now), worsts)
      ensures accepted ==> Capped() || AllMaximal(entries)
      ensures accepted && TakesRoom(rules) ==> Capped()
      ensures !accepted ==> entries == old(entries) && totalSizeBytes == old(totalSizeBytes)
    {
      hide Coherent, Solvent, SpendsFrom, AfterEvictions, EvictionRun, Sum, Reasonable, Total, AllMaximal, Evicted,
           Pays, CrowdedAncestor, InputsResolve, Fee, TxValid, EntriesOk, NoDoubleSpend, TakesRoom, AllFinal, InPoints;
      worsts := [];
      ghost var start := entries;
      ghost var keeps := Valid() && Reasonable(utxos, entries, tx);
      var newFee, toRemove;
      accepted, newFee, toRemove := WeighReplacement(tx);
      if !accepted {
        return;
      }
      FinalStays(rules, utxos, start, tx);
      ValidResolves(rules, utxos, blocks, start, tx);
      InsertedIsApart(rules, utxos, start, tx, now);
      InsertedIsOk(rules, utxos, start, tx, now);
      RemoveSet(toRemove);
      if keeps {
        InsertedIsCoherent(rules, utxos, start, tx, now);
        InsertedIsSolvent(rules, utxos, blocks, start, tx, now, rank, nextRank);
      }
      var txSize := rules.txSize(tx);
      var entry := Entry(tx, txSize, newFee, if txSize > 0 then newFee / txSize else 0, now);
      worsts := InsertEntry(entry, keeps);
    }

    method RemoveSet(ids: set<Id>)
      requires totalSizeBytes == Sum(entries, SizeOf())
      modifies `entries, `totalSizeBytes
      ensures entries == old(entries) - ids && totalSizeBytes == Sum(entries, SizeOf())
    {
      var todo := ids;
      while todo != {}
        invariant todo <= ids && entries == old(entries) - (ids - todo) && totalSizeBytes == Sum(entries, SizeOf())
        decreases |todo|
      {
        var id :| id in todo;
        todo := todo - {id};
        RemoveEntry(id);
      }
      assert ids - todo == ids;
    }

    /** add_tx_to_mempool. */
    method AddTxToMempool(tx: Tx, now: int) returns (accepted: bool, ghost worsts: seq<Id>)
      requires Counted()
      modifies this
      ensures Counted() && (old(Valid()) && Reasonable(utxos, old(entries), tx) ==> Valid())
      ensures accepted <==> Admitted(rules, utxos, blocks, old(entries), tx)
      ensures accepted <==>
                && FairlyAdmitted(rules, utxos, blocks, old(entries), tx)
                && (Conflicting(old(entries), tx) != {} ==> Pays(rules, utxos, old(entries), tx))
      ensures accepted && tx.id in entries ==>
                var e := entries[tx.id];
                && e.tx == tx && e.size == rules.txSize(tx) && e.insertionTime == now
                && e.fee == Fee(utxos, PoolTxs(old(entries)), tx)
      ensures accepted ==> EvictionRun(Inserted(rules, utxos, old(entries), tx, now), worsts)
      ensures accepted ==> entries == AfterEvictions(Inserted(rules, utxos, old(entries), tx, now), worsts)
      ensures accepted ==> Capped() || AllMaximal(entries)
      ensures accepted && TakesRoom(rules) ==> Capped()
      ensures !accepted ==> entries == old(entries) && totalSizeBytes == old(totalSizeBytes)
    {
      hide Coherent, Solvent, SpendsFrom, AfterEvictions, EvictionRun, Sum, FamilyOf, ConflictFees, DeepAncestry,
           Reasonable, Conflicting, IsDescendant, NoDuplicates, Elements, CrowdedAncestor, InputsResolve, Pays, Fee,
           HasDust, TxValid, Total, AllMaximal, EntriesOk, NoDoubleSpend, TakesRoom, FairlyAdmitted, Lawful;
      accepted, worsts := false, [];
      AdmittedIff(rules, utxos, blocks, entries, tx);
      ghost var start := entries;
      ghost var keeps := Valid() && Reasonable(utxos, entries, tx);
      if tx.id in entries {
        return;
      }
      var dust := HasDustOutputs(tx);
      if dust {
        return;
      }
      var valid := Validate(rules, Context(utxos, [], PoolTxs(entries), blocks), tx);
      if !valid {
        return;
      }
      var violates := ViolatesChainLimits(entries, tx);
      if violates {
        return;
      }
      var conflicting := FindConflictingTxs(entries, tx);
      ElementsAre(conflicting);
      if conflicting != [] {
        assert conflicting[0] in conflicting;
        accepted, worsts := TryReplaceByFee(tx, now);
        if accepted {
          EvictionsKeep(Inserted(rules, utxos, start, tx, now), worsts);
        }
        return;
      }
      NothingEvicted(entries, tx);
      ValidResolves(rules, utxos, blocks, entries, tx);
      InsertedIsApart(rules, utxos, entries, tx, now);
      InsertedIsOk(rules, utxos, entries, tx, now);
      if keeps {
        InsertedIsCoherent(rules, utxos, entries, tx, now);
        InsertedIsSolvent(rules, utxos, blocks, entries, tx, now, rank, nextRank);
      }
      var size := rules.txSize(tx);
      var fee := CalculateFees(utxos, PoolTxs(entries), tx);
      var entry := Entry(tx, size, fee, if size > 0 then fee / size else 0, now);
      worsts := InsertEntry(entry, keeps);
      EvictionsKeep(Inserted(rules, utxos, start, tx, now), worsts);
      accepted := true;
    }
  }

  method CollectExpired(pool: Pool, now: int) returns (toRemove: seq<Id>)
    ensures NoDuplicates(toRemove) && Elements(toRemove) == Expired(pool, now)
    ensures forall x | x in toRemove :: x in pool
  {
    toRemove := [];
    var todo := pool.Keys;
    while todo != {}
      invariant todo <= pool.Keys && NoDuplicates(toRemove)
      invariant forall x :: x in toRemove <==> x in pool && x !in todo && now - pool[x].insertionTime >= TX_EXPIRE_SECS
      decreases |todo|
    {
      var id :| id in todo;
      todo := todo - {id};
      if now - pool[id].insertionTime >= TX_EXPIRE_SECS {
        toRemove := toRemove + [id];
      }
    }
  }

  lemma NoneExpired(pool: Pool, now: int)
    ensures forall x | x in pool && x !in FamilyOf(pool, Expired(pool, now)) :: now < pool[x].insertionTime + TX_EXPIRE_SECS
  {
    hide Descendants;
    forall x | x in pool && now >= pool[x].insertionTime + TX_EXPIRE_SECS
      ensures x in FamilyOf(pool, Expired(pool, now))
    {
      assert x in Expired(pool, now) && x in Family(pool, x);
    }
  }

  lemma NothingExpired(pool: Pool, ids: seq<Id>)
    ensures pool - FamilyOf(pool, Elements(ids[..0])) == pool
  {
    assert Elements(ids[..0]) == {};
  }

  lemma MinusFamily(pool: Pool, id: Id)
    ensures pool - {id} - Descendants(pool, id) == pool - Family(pool, id)
  {
  }

  lemma LessIsSmaller(pool: Pool, gone: set<Id>)
    ensures Sum(pool - gone, SizeOf()) <= Sum(pool, SizeOf())
  {
    SumSplits(pool, SizeOf(), gone);
  }

  lemma ElementsAre(ids: seq<Id>)
    ensures forall x :: x in ids <==> x in Elements(ids)
    ensures forall k | 0 <= k < |ids| :: ids[k] in Elements(ids)
    ensures forall x | x in Elements(ids) :: exists k :: 0 <= k < |ids| && ids[k] == x
  {
  }

  lemma NothingEvicted(pool: Pool, tx: Tx)
    requires Conflicting(pool, tx) == {}
    ensures pool - Evicted(pool, tx) == pool
  {
  }

  method HasDustOutputs(tx: Tx) returns (dust: bool)
    ensures dust <==> HasDust(tx)
  {
    if tx.IsCoinbase() {
      return false;
    }
    for i := 0 to |tx.outs|
      invariant forall j | 0 <= j < i :: tx.outs[j].value >= DUST_THRESHOLD
    {
      if tx.outs[i].value < DUST_THRESHOLD {
        return true;
      }
    }
    dust := false;
  }
}
