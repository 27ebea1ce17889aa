/** Where the fees of the mempool come from: all of them together are part of the unspent outputs. */
module PoolMoney {
  import opened Types
  import opened Arithmetic
  import opened TxRules
  import opened Ledger
  import opened Supply
  import opened SpendGraph
  import opened ChainLimits
  import opened PoolRules
  import Wire

  // ----- What an entry's fee is -----

  ghost predicate Provided(utxos: UtxoMap, pool: Pool, p: OutPoint) {
    p in utxos || FindInPool(p, PoolTxs(pool)).Some?
  }

  /** The entry's inputs are there and different, and its fee is what they are worth beyond its
      outputs. */
  ghost predicate Backed(utxos: UtxoMap, pool: Pool, e: Entry) {
    && DistinctInputs(e.tx.ins)
    && (forall i | 0 <= i < |e.tx.ins| :: e.tx.ins[i].toSpend.Some? && Provided(utxos, pool, e.tx.ins[i].toSpend.value))
    && e.fee + OutSum(e.tx.outs) == FeeInputSum(utxos, PoolTxs(pool), e.tx.ins)
  }

  ghost predicate Funded(utxos: UtxoMap, pool: Pool) {
    forall x | x in pool :: NotMined(utxos, x) && Backed(utxos, pool, pool[x])
  }

  lemma {:induction false} SameInputSum(utxos: UtxoMap, a: Pool, b: Pool, ins: seq<TxIn>)
    requires forall i | 0 <= i < |ins| && ins[i].toSpend.Some? && ins[i].toSpend.value !in utxos ::
               FindInPool(ins[i].toSpend.value, PoolTxs(a)) == FindInPool(ins[i].toSpend.value, PoolTxs(b))
    ensures FeeInputSum(utxos, PoolTxs(a), ins) == FeeInputSum(utxos, PoolTxs(b), ins)
  {
    hide FindInPool;
    if ins != [] {
      SameInputSum(utxos, a, b, ins[..|ins| - 1]);
    }
  }

  /** A pool that has the same transactions for whatever the entry spends backs it as well. */
  lemma StillBacked(utxos: UtxoMap, pool: Pool, other: Pool, e: Entry)
    requires Backed(utxos, pool, e)
    requires forall x | SpendsFrom(e.tx, x) :: x in pool <==> x in other
    requires forall x | SpendsFrom(e.tx, x) && x in pool && x in other :: pool[x].tx == other[x].tx
    ensures Backed(utxos, other, e)
  {
    hide OutSum, FeeInputSum;
    forall i | 0 <= i < |e.tx.ins|
      ensures FindInPool(e.tx.ins[i].toSpend.value, PoolTxs(pool)) == FindInPool(e.tx.ins[i].toSpend.value, PoolTxs(other))
    {
      assert SpendsFrom(e.tx, e.tx.ins[i].toSpend.value.txId);
    }
    hide FindInPool;
    SameInputSum(utxos, pool, other, e.tx.ins);
  }

  /** What a closed removal leaves is still paid for. */
  lemma ClosedKeepsFunded(utxos: UtxoMap, pool: Pool, left: Pool)
    requires Funded(utxos, pool) && ClosedRemoval(pool, left)
    ensures Funded(utxos, left)
  {
    hide NotMined, OutSum, FeeInputSum, FindInPool;
    forall x | x in left
      ensures NotMined(utxos, x) && Backed(utxos, left, left[x])
    {
      assert NotMined(utxos, x) && Backed(utxos, pool, pool[x]);
      StillBacked(utxos, pool, left, left[x]);
    }
  }

  // ----- One entry after the other -----

  /** The outputs that would be unspent if the pool were mined. */
  ghost predicate IsAfter(utxos: UtxoMap, pool: Pool, after: UtxoMap) {
    forall p :: p in after <==> Provided(utxos, pool, p) && forall x | x in pool :: p !in InPoints(pool[x].tx)
  }

  ghost predicate Values(utxos: UtxoMap, pool: Pool, after: UtxoMap) {
    forall p | p in after :: after[p].out.value == ProvidedValue(utxos, pool, p)
  }

  ghost function ProvidedValue(utxos: UtxoMap, pool: Pool, p: OutPoint): nat {
    if p in utxos then utxos[p].out.value
    else if FindInPool(p, PoolTxs(pool)).Some? then FindInPool(p, PoolTxs(pool)).value.out.value else 0
  }

  /** The latest entry: none spends it. */
  lemma {:induction false} Latest(pool: Pool, some: set<Id>, rank: map<Id, nat>) returns (x: Id)
    requires some != {} && some <= pool.Keys && some <= rank.Keys
    ensures x in some && forall y | y in some :: rank[y] <= rank[x]
    decreases |some|
  {
    var y :| y in some;
    if some == {y} {
      x := y;
    } else {
      var other := Latest(pool, some - {y}, rank);
      x := if rank[other] < rank[y] then y else other;
    }
  }

  lemma WithoutLatest(pool: Pool, rank: map<Id, nat>, next: nat, x: Id)
    requires Ranked(pool, rank, next) && x in pool && forall y | y in pool :: rank[y] <= rank[x]
    ensures ClosedRemoval(pool, pool - {x}) && Childless(pool, x)
  {
    hide SpendsFrom;
  }

  lemma {:induction false} SpentIsProvided(utxos: UtxoMap, pool: Pool, before: UtxoMap, ins: seq<TxIn>)
    requires Spendable(before, ins)
    requires forall p | p in before :: before[p].out.value == ProvidedValue(utxos, pool, p)
    ensures SpentValue(before, ins) == FeeInputSum(utxos, PoolTxs(pool), ins)
  {
    hide FindInPool;
    if ins != [] {
      SpentIsProvided(utxos, pool, before, ins[..|ins| - 1]);
    }
  }

  /** The latest entry finds its inputs unspent, and its outputs are new. */
  lemma LatestCanSpend(utxos: UtxoMap, pool: Pool, x: Id, before: UtxoMap)
    requires Keyed(pool) && NoDoubleSpend(pool) && Funded(utxos, pool) && x in pool && Childless(pool, x)
    requires IsAfter(utxos, pool - {x}, before)
    ensures Spendable(before, pool[x].tx.ins) && OutPoints(pool[x].tx) !! before.Keys
  {
    var tx, left := pool[x].tx, pool - {x};
    FundedAt(utxos, pool, x);
    NewOutputs(utxos, pool, x, before);
    hide Keyed, Funded, OutSum, FeeInputSum, NotMined, OutPoints;
    forall i | 0 <= i < |tx.ins|
      ensures tx.ins[i].toSpend.Some? && tx.ins[i].toSpend.value in before
    {
      var p := tx.ins[i].toSpend.value;
      assert Provided(utxos, pool, p);
      assert SpendsFrom(tx, p.txId);
      SameWithoutLatest(utxos, pool, x, p);
      assert p in InPoints(tx);
      hide InPoints, FindInPool;
    }
  }

  lemma NewOutputs(utxos: UtxoMap, pool: Pool, x: Id, before: UtxoMap)
    requires Keyed(pool) && x in pool && NotMined(utxos, x) && IsAfter(utxos, pool - {x}, before)
    ensures OutPoints(pool[x].tx) !! before.Keys
  {
    hide InPoints;
    forall p | p in before
      ensures p.txId != x
    {
      assert Provided(utxos, pool - {x}, p);
    }
  }

  lemma SameWithoutLatest(utxos: UtxoMap, pool: Pool, x: Id, p: OutPoint)
    requires x in pool && p.txId != x
    ensures FindInPool(p, PoolTxs(pool - {x})) == FindInPool(p, PoolTxs(pool))
  {
  }

  lemma BeforeValues(utxos: UtxoMap, pool: Pool, x: Id, before: UtxoMap)
    requires x in pool && NotMined(utxos, x) && IsAfter(utxos, pool - {x}, before) && Values(utxos, pool - {x}, before)
    ensures forall p | p in before :: p.txId != x && before[p].out.value == ProvidedValue(utxos, pool, p)
  {
    hide InPoints;
    forall p | p in before
      ensures p.txId != x && before[p].out.value == ProvidedValue(utxos, pool, p)
    {
      assert Provided(utxos, pool - {x}, p);
      SameWithoutLatest(utxos, pool, x, p);
    }
  }

  lemma NextAfter(utxos: UtxoMap, pool: Pool, x: Id, before: UtxoMap)
    requires Keyed(pool) && x in pool && NotMined(utxos, x) && Childless(pool, x)
    requires IsAfter(utxos, pool - {x}, before) && Values(utxos, pool - {x}, before)
    ensures IsAfter(utxos, pool, ApplyTx(before, pool[x].tx, 0)) && Values(utxos, pool, ApplyTx(before, pool[x].tx, 0))
  {
    var tx, after := pool[x].tx, ApplyTx(before, pool[x].tx, 0);
    BeforeValues(utxos, pool, x, before);
    forall p
      ensures p in after <==> Provided(utxos, pool, p) && forall y | y in pool :: p !in InPoints(pool[y].tx)
      ensures p in after ==> after[p].out.value == ProvidedValue(utxos, pool, p)
    {
      if p.txId == x {
        OwnOutput(utxos, pool, x, before, p);
      } else {
        OtherOutput(utxos, pool, x, before, p);
      }
    }
  }

  lemma OwnOutput(utxos: UtxoMap, pool: Pool, x: Id, before: UtxoMap, p: OutPoint)
    requires Keyed(pool) && x in pool && NotMined(utxos, x) && Childless(pool, x) && p.txId == x && p !in before
    ensures var after := ApplyTx(before, pool[x].tx, 0);
            && (p in after <==> Provided(utxos, pool, p) && forall y | y in pool :: p !in InPoints(pool[y].tx))
            && (p in after ==> after[p].out.value == ProvidedValue(utxos, pool, p))
  {
    forall y | y in pool
      ensures p !in InPoints(pool[y].tx)
    {
      assert !SpendsFrom(pool[y].tx, x);
    }
    assert p in OutPoints(pool[x].tx) <==> 0 <= p.idx < |pool[x].tx.outs|;
  }

  lemma OtherOutput(utxos: UtxoMap, pool: Pool, x: Id, before: UtxoMap, p: OutPoint)
    requires Keyed(pool) && x in pool && p.txId != x && IsAfter(utxos, pool - {x}, before)
    requires p in before ==> before[p].out.value == ProvidedValue(utxos, pool, p)
    ensures var after := ApplyTx(before, pool[x].tx, 0);
            && (p in after <==> Provided(utxos, pool, p) && forall y | y in pool :: p !in InPoints(pool[y].tx))
            && (p in after ==> after[p].out.value == ProvidedValue(utxos, pool, p))
  {
    SameWithoutLatest(utxos, pool, x, p);
    SpentByOne(pool, x, p);
    hide FindInPool, InPoints;
    assert p !in OutPoints(pool[x].tx);
  }

  lemma SpentByOne(pool: Pool, x: Id, p: OutPoint)
    requires x in pool
    ensures (forall y | y in pool :: p !in InPoints(pool[y].tx)) <==>
            p !in InPoints(pool[x].tx) && forall y | y in pool - {x} :: p !in InPoints((pool - {x})[y].tx)
  {
    hide InPoints;
    var left := pool - {x};
    if p !in InPoints(pool[x].tx) && forall y | y in left :: p !in InPoints(left[y].tx) {
      forall y | y in pool
        ensures p !in InPoints(pool[y].tx)
      {
        assert y != x ==> y in left;
      }
    }
    assert forall y | y in left :: y in pool;
  }

  /** The exact law: the fees of the pool and what it leaves unspent are the unspent outputs of the
      chain. */
  lemma {:induction false} FeesComeOutOfUtxos(utxos: UtxoMap, pool: Pool, rank: map<Id, nat>, next: nat)
    returns (after: UtxoMap)
    requires Keyed(pool) && NoDoubleSpend(pool) && Funded(utxos, pool) && Ranked(pool, rank, next)
    ensures IsAfter(utxos, pool, after) && Values(utxos, pool, after)
    ensures Sum(pool, FeeOf()) + Total(after) == Total(utxos)
    decreases |pool|
  {
    hide Funded, Ranked, NoDoubleSpend, InPoints, Total, ClosedRemoval, Childless, Backed, ApplyTx, IsAfter, Values;
    if pool == map[] {
      after := utxos;
      NothingAfter(utxos);
    } else {
      RankedKeys(pool, rank, next);
      var x := Latest(pool, pool.Keys, rank);
      var left := pool - {x};
      WithoutLatest(pool, rank, next, x);
      SmallerPool(pool, x);
      ClosedKeepsFunded(utxos, pool, left);
      RankedKeeps(pool, left, rank, next);
      FewerSpends(pool, left);
      var before := FeesComeOutOfUtxos(utxos, left, rank, next);
      after := ApplyTx(before, pool[x].tx, 0);
      FundedAt(utxos, pool, x);
      NextAfter(utxos, pool, x, before);
      LatestCanSpend(utxos, pool, x, before);
      BeforeValues(utxos, pool, x, before);
      SpentIsProvided(utxos, pool, before, pool[x].tx.ins);
      BackedFee(utxos, pool, pool[x]);
      TxConserves(before, pool[x].tx, 0);
      SumWithout(pool, FeeOf(), x);
    }
  }

  lemma NothingAfter(utxos: UtxoMap)
    ensures IsAfter(utxos, map[], utxos) && Values(utxos, map[], utxos)
  {
  }

  lemma RankedKeys(pool: Pool, rank: map<Id, nat>, next: nat)
    requires Ranked(pool, rank, next)
    ensures pool.Keys <= rank.Keys
  {
  }

  lemma FewerSpends(pool: Pool, left: Pool)
    requires NoDoubleSpend(pool) && forall x | x in left :: x in pool && left[x] == pool[x]
    ensures NoDoubleSpend(left)
  {
    hide InPoints;
  }

  lemma FundedAt(utxos: UtxoMap, pool: Pool, x: Id)
    requires Funded(utxos, pool) && x in pool
    ensures NotMined(utxos, x) && Backed(utxos, pool, pool[x])
  {
    hide NotMined, Backed;
  }

  lemma BackedFee(utxos: UtxoMap, pool: Pool, e: Entry)
    requires Backed(utxos, pool, e)
    ensures e.fee + OutSum(e.tx.outs) == FeeInputSum(utxos, PoolTxs(pool), e.tx.ins)
  {
    hide FeeInputSum, OutSum;
  }

  // ----- What a pool may hold -----

  /** A pool whose fees are paid out of the UTXO map. */
  ghost predicate Solvent(utxos: UtxoMap, pool: Pool, rank: map<Id, nat>, next: nat) {
    Keyed(pool) && NoDoubleSpend(pool) && Funded(utxos, pool) && Ranked(pool, rank, next)
  }

  lemma {:induction false} FeesAreWithin(utxos: UtxoMap, pool: Pool, rank: map<Id, nat>, next: nat, ids: set<Id>)
    requires Solvent(utxos, pool, rank, next)
    ensures Sum(Restrict(pool, ids), FeeOf()) <= Sum(pool, FeeOf()) <= Total(utxos)
  {
    hide Funded, Ranked, NoDoubleSpend, Keyed;
    var after := FeesComeOutOfUtxos(utxos, pool, rank, next);
    SumSplits(pool, FeeOf(), ids);
  }

  lemma FeeIsWithin(utxos: UtxoMap, pool: Pool, rank: map<Id, nat>, next: nat, x: Id)
    requires Solvent(utxos, pool, rank, next) && x in pool
    ensures pool[x].fee <= Total(utxos)
  {
    hide Solvent;
    FeesAreWithin(utxos, pool, rank, next, {});
    SumWithout(pool, FeeOf(), x);
  }

  lemma {:induction false} PathRanksHigher(pool: Pool, rank: map<Id, nat>, next: nat, p: seq<Id>, i: nat)
    requires Ranked(pool, rank, next) && IsPath(ChildEdge(pool), p) && i + 1 < |p| && p[0] in pool
    ensures p[i + 1] in pool && rank[p[0]] < rank[p[i + 1]]
  {
    assert ChildEdge(pool)(p[i], p[i + 1]);
    if i > 0 {
      PathRanksHigher(pool, rank, next, p, i - 1);
    }
  }

  lemma NotItsOwnDescendant(pool: Pool, rank: map<Id, nat>, next: nat, x: Id)
    requires Ranked(pool, rank, next) && x in pool
    ensures !IsDescendant(pool, x, x)
  {
    if IsDescendant(pool, x, x) {
      var p :| |p| >= 2 && p[0] == x && p[|p| - 1] == x && IsPath(ChildEdge(pool), p);
      PathRanksHigher(pool, rank, next, p, |p| - 2);
    }
  }

  lemma FamilyFeeIsWithin(utxos: UtxoMap, pool: Pool, rank: map<Id, nat>, next: nat, x: Id)
    requires Solvent(utxos, pool, rank, next) && x in pool
    ensures FamilyFee(pool)(pool[x]) <= Total(utxos)
  {
    NotItsOwnDescendant(pool, rank, next, x);
    hide IsDescendant, Funded, Ranked, NoDoubleSpend;
    SumAdds(pool, FeeOf(), Descendants(pool, x), x);
    FeesAreWithin(utxos, pool, rank, next, Descendants(pool, x) + {x});
  }

  /** The 64-bit sum over the conflicting entries, shared descendants counted again and again, stays
      below as many times the unspent outputs as the transaction has inputs. */
  lemma ConflictFeesAreWithin(utxos: UtxoMap, pool: Pool, rank: map<Id, nat>, next: nat, tx: Tx)
    requires Solvent(utxos, pool, rank, next)
    ensures ConflictFees(pool, Conflicting(pool, tx)) <= |tx.ins| * Total(utxos)
  {
    ConflictsAreFew(pool, tx);
    var some := Restrict(pool, Conflicting(pool, tx));
    assert some.Keys == Conflicting(pool, tx);
    hide Solvent, FamilyFee, Conflicting;
    forall x | x in some
      ensures FamilyFee(pool)(some[x]) <= Total(utxos)
    {
      FamilyFeeIsWithin(utxos, pool, rank, next, x);
    }
    SumIsBounded(some, FamilyFee(pool), Total(utxos));
    Scale(Total(utxos), |some|, |tx.ins|);
  }

  /** With at most 8784 inputs the 64-bit sum of conflicting fees cannot wrap, nor can it once the size
      of a transaction is added. */
  lemma FewInputsNoWrap(utxos: UtxoMap, pool: Pool, rank: map<Id, nat>, next: nat, tx: Tx)
    requires Solvent(utxos, pool, rank, next) && Total(utxos) <= MAX_MONEY && |tx.ins| <= 8784
    ensures ConflictFees(pool, Conflicting(pool, tx)) + MAX_BLOCK_SIZE < TWO_64
  {
    hide *;
    ConflictFeesAreWithin(utxos, pool, rank, next, tx);
    Scale(Total(utxos), |tx.ins|, 8784);
    SupplyFits(Total(utxos));
  }

  lemma SupplyFits(total: nat)
    requires total <= MAX_MONEY
    ensures 8784 * total + MAX_BLOCK_SIZE < TWO_64
  {
  }

  // ----- How many inputs fit -----

  /** A spend in earnest: an id of 64 hexadecimal digits and a public key of at least 33 bytes. */
  ghost predicate InEarnest(codec: Wire.Codec, txIn: TxIn) {
    txIn.toSpend.Some? && |codec.text(txIn.toSpend.value.txId)| >= 64 && |txIn.unlockPubKey| >= 33
  }

  lemma InputNeedsRoom(codec: Wire.Codec, txIn: TxIn)
    requires InEarnest(codec, txIn)
    ensures |Wire.EncodeTxIn(codec, txIn)| >= 122
  {
    Wire.IntLength(|codec.text(txIn.toSpend.value.txId)|, 4);
    Wire.IntLength(txIn.toSpend.value.idx, 8);
    Wire.IntLength(|txIn.unlockSig|, 4);
    Wire.IntLength(|txIn.unlockPubKey|, 4);
    Wire.IntLength(txIn.sequence, 4);
    hide Wire.EncodeInt;
  }

  lemma {:induction false} InputsNeedRoom(codec: Wire.Codec, ins: seq<TxIn>)
    requires forall i | 0 <= i < |ins| :: InEarnest(codec, ins[i])
    ensures |Wire.EncodeAll(Wire.TxInEncoder(codec), ins)| >= 122 * |ins|
  {
    hide InEarnest, Wire.EncodeTxIn;
    if ins != [] {
      InputNeedsRoom(codec, ins[0]);
      InputsNeedRoom(codec, ins[1..]);
    }
  }

  /** A transaction that fits into a block has at most 8196 inputs. */
  lemma FewInputsFit(codec: Wire.Codec, tx: Tx)
    requires |Wire.EncodeTx(codec, tx)| <= MAX_BLOCK_SIZE && forall i | 0 <= i < |tx.ins| :: InEarnest(codec, tx.ins[i])
    ensures |tx.ins| <= 8196
  {
    InputsNeedRoom(codec, tx.ins);
    hide InEarnest, Wire.EncodeAll;
  }

  // ----- Insertion -----

  /** What validation computes as the value of the inputs is what the fee is computed from. */
  lemma {:induction false} SameSums(utxos: UtxoMap, pool: Pool, blocks: seq<Block>, ins: seq<TxIn>)
    ensures FeeInputSum(utxos, PoolTxs(pool), ins) == InputSum(Context(utxos, [], PoolTxs(pool), blocks), ins)
  {
    hide FindInPool;
    if ins != [] {
      SameSums(utxos, pool, blocks, ins[..|ins| - 1]);
    }
  }

  /** A valid transaction would be a funded entry: its fee did not wrap. */
  lemma ValidIsBacked(rules: Rules, utxos: UtxoMap, blocks: seq<Block>, pool: Pool, e: Entry)
    requires TxValid(rules, Context(utxos, [], PoolTxs(pool), blocks), e.tx)
    requires e.fee == Fee(utxos, PoolTxs(pool), e.tx)
    ensures Backed(utxos, pool, e)
  {
    var ctx := Context(utxos, [], PoolTxs(pool), blocks);
    SameSums(utxos, pool, blocks, e.tx.ins);
    ValidBasics(rules, ctx, e.tx);
    hide BasicsOk, LocksOk, FindInPool, FeeInputSum, InputSum, OutSum;
    forall i | 0 <= i < |e.tx.ins|
      ensures e.tx.ins[i].toSpend.Some? && Provided(utxos, pool, e.tx.ins[i].toSpend.value)
    {
      assert InputOk(rules, ctx, e.tx, e.tx.ins[i]);
    }
  }

  lemma ValidBasics(rules: Rules, ctx: Context, tx: Tx)
    requires TxValid(rules, ctx, tx)
    ensures DistinctInputs(tx.ins) && OutSum(tx.outs) <= InputSum(ctx, tx.ins) <= MAX_UINT64
  {
    hide LocksOk, InputsOk, OutSum, InputSum;
  }

  /** After whatever conflicts has gone, and as long as the transaction spends none of it, inserting
      it keeps every fee backed. */
  lemma InsertKeepsFunded(utxos: UtxoMap, pool: Pool, left: Pool, e: Entry)
    requires Funded(utxos, pool) && ClosedRemoval(pool, left) && Backed(utxos, pool, e)
    requires e.tx.id !in left && NotMined(utxos, e.tx.id) && Childless(left, e.tx.id) && !SpendsFrom(e.tx, e.tx.id)
    requires forall x | x in pool && x !in left :: !SpendsFrom(e.tx, x)
    ensures Funded(utxos, left[e.tx.id := e])
  {
    var next := left[e.tx.id := e];
    ClosedKeepsFunded(utxos, pool, left);
    hide NotMined, OutSum, FeeInputSum, ClosedRemoval;
    forall x | x in next
      ensures NotMined(utxos, x) && Backed(utxos, next, next[x])
    {
      if x == e.tx.id {
        StillBacked(utxos, pool, next, e);
      } else {
        assert NotMined(utxos, x) && Backed(utxos, left, left[x]) && !SpendsFrom(left[x].tx, e.tx.id);
        StillBacked(utxos, left, next, left[x]);
      }
    }
  }
}
