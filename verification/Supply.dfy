/** Conservation: no run of valid blocks creates more money than the subsidies, and none of the
    64-bit sums of validation wraps around on the way. */
module Supply {
  import opened Types
  import opened TxRules
  import opened Ledger
  import opened ChainSpec

  // ----- The total of a UTXO map -----

  ghost function Total(m: UtxoMap): nat
    decreases |m|
  {
    if m == map[] then 0
    else
      var p :| p in m;
      assert |m - {p}| < |m| by {
        assert m.Keys == (m - {p}).Keys + {p};
      }
      m[p].out.value + Total(m - {p})
  }

  lemma Smaller(m: UtxoMap, p: OutPoint)
    requires p in m
    ensures |m - {p}| < |m|
  {
    assert m.Keys == (m - {p}).Keys + {p};
  }

  lemma {:induction false} TotalWithout(m: UtxoMap, p: OutPoint)
    requires p in m
    ensures Total(m) == m[p].out.value + Total(m - {p})
    decreases |m|
  {
    var q :| q in m && Total(m) == m[q].out.value + Total(m - {q});
    if q != p {
      Smaller(m, q);
      Smaller(m, p);
      TotalWithout(m - {q}, p);
      TotalWithout(m - {p}, q);
      assert m - {q} - {p} == m - {p} - {q};
    }
  }

  lemma TotalWith(m: UtxoMap, p: OutPoint, u: Utxo)
    requires p !in m
    ensures Total(m[p := u]) == Total(m) + u.out.value
  {
    TotalWithout(m[p := u], p);
    assert m[p := u] - {p} == m;
  }

  // ----- One transaction -----

  /** The inputs are pairwise different and all unspent in m. */
  ghost predicate Spendable(m: UtxoMap, ins: seq<TxIn>) {
    && DistinctInputs(ins)
    && forall i | 0 <= i < |ins| :: ins[i].toSpend.Some? && ins[i].toSpend.value in m
  }

  ghost function SpentValue(m: UtxoMap, ins: seq<TxIn>): nat
    requires Spendable(m, ins)
  {
    if ins == [] then 0
    else SpentValue(m, ins[..|ins| - 1]) + m[ins[|ins| - 1].toSpend.value].out.value
  }

  lemma {:induction false} TotalAfterSpending(m: UtxoMap, tx: Tx, k: nat)
    requires Spendable(m, tx.ins) && k <= |tx.ins|
    ensures Total(m - InPointsUpTo(tx, k)) + SpentValue(m, tx.ins[..k]) == Total(m)
  {
    if k == 0 {
      assert m - InPointsUpTo(tx, 0) == m;
    } else {
      TotalAfterSpending(m, tx, k - 1);
      var p := tx.ins[k - 1].toSpend.value;
      var before := m - InPointsUpTo(tx, k - 1);
      assert p in before;
      TotalWithout(before, p);
      assert before - {p} == m - InPointsUpTo(tx, k);
      assert tx.ins[..k][..k - 1] == tx.ins[..k - 1];
    }
  }

  lemma {:induction false} TotalAfterCreating(m: UtxoMap, tx: Tx, k: nat, height: int)
    requires FitsHeight(height) && k <= |tx.outs|
    requires OutPoints(tx) !! m.Keys
    ensures Total(m + CreatedUpTo(tx, k, height)) == Total(m) + OutSum(tx.outs[..k])
  {
    if k == 0 {
      assert m + CreatedUpTo(tx, 0, height) == m;
    } else {
      hide CreatedUpTo, OutPoints, Total, OutPointsUpTo;
      TotalAfterCreating(m, tx, k - 1, height);
      OneMoreOutput(m, tx, k - 1, height);
      assert tx.outs[..k][..k - 1] == tx.outs[..k - 1];
    }
  }

  lemma OneMoreOutput(m: UtxoMap, tx: Tx, k: nat, height: int)
    requires FitsHeight(height) && k < |tx.outs| && OutPoints(tx) !! m.Keys
    ensures Total(m + CreatedUpTo(tx, k + 1, height)) == Total(m + CreatedUpTo(tx, k, height)) + tx.outs[k].value
  {
    var p := OutPoint(tx.id, k);
    assert p in OutPoints(tx) && p !in CreatedUpTo(tx, k, height);
    StepCreated(tx, k, height);
    hide CreatedUpTo, OutPoints, OutPointsUpTo, Total;
    var before := m + CreatedUpTo(tx, k, height);
    var u := Utxo(tx.outs[k], p, tx.IsCoinbase(), height);
    TotalWith(before, p, u);
    assert m + CreatedUpTo(tx, k + 1, height) == before[p := u];
  }

  /** A transaction changes the total by exactly its outputs minus its inputs. */
  lemma TxConserves(m: UtxoMap, tx: Tx, height: int)
    requires FitsHeight(height) && Spendable(m, tx.ins) && OutPoints(tx) !! m.Keys
    ensures Total(ApplyTx(m, tx, height)) + SpentValue(m, tx.ins) == Total(m) + OutSum(tx.outs)
  {
    TotalAfterSpending(m, tx, |tx.ins|);
    assert InPointsUpTo(tx, |tx.ins|) == InPoints(tx) && tx.ins[..|tx.ins|] == tx.ins;
    TotalAfterCreating(m - InPoints(tx), tx, |tx.outs|, height);
    assert CreatedUpTo(tx, |tx.outs|, height) == Created(tx, height) && tx.outs[..|tx.outs|] == tx.outs;
  }

  lemma CoinbaseAdds(m: UtxoMap, tx: Tx, height: int)
    requires FitsHeight(height) && tx.IsCoinbase() && OutPoints(tx) !! m.Keys
    ensures Total(ApplyTx(m, tx, height)) == Total(m) + OutSum(tx.outs)
  {
    assert InPoints(tx) == {};
    assert m - InPoints(tx) == m;
    TotalAfterCreating(m, tx, |tx.outs|, height);
    assert CreatedUpTo(tx, |tx.outs|, height) == Created(tx, height) && tx.outs[..|tx.outs|] == tx.outs;
  }

  // ----- One block -----

  /** What validation does not check: inputs are different across the block, and a transaction
      that spends a sibling comes after it. */
  ghost predicate OrderedSpends(txs: seq<Tx>) {
    && (forall i, j | 0 <= i < j < |txs| :: InPoints(txs[i]) !! InPoints(txs[j]))
    && (forall i, j, p | 0 <= i < |txs| && 0 <= j < |txs| && p in InPoints(txs[j]) && p in OutPoints(txs[i]) :: i < j)
  }

  /** Ids identify transactions: a pool entry with a sibling's id is that sibling. */
  ghost predicate PoolAgrees(pool: map<Id, Tx>, txs: seq<Tx>) {
    forall i | 0 <= i < |txs| && txs[i].id in pool :: pool[txs[i].id] == txs[i]
  }

  /** A block that passed validation and meets the hypotheses validation does not check. */
  ghost predicate Sound(rules: Rules, chain: seq<Block>, utxos: UtxoMap, pool: map<Id, Tx>, b: Block) {
    && Shape(rules, b) && ContextOk(rules, chain, utxos, pool, b)
    && PoolAgrees(pool, b.txs) && OrderedSpends(b.txs)
    && (forall p | p in utxos :: p.txId !in IdsOf(b.txs))
  }

  lemma SiblingOutput(p: OutPoint, txs: seq<Tx>)
    requires DistinctIds(txs) && txs != [] && FindInList(p, txs[1..]).Some?
    ensures exists i :: 1 <= i < |txs| && p in OutPoints(txs[i]) && FindInList(p, txs[1..]).value.out == txs[i].outs[p.idx]
  {
    var k := ListPosition(p, txs[1..]);
    assert txs[1..][k] == txs[k + 1];
    assert p in OutPoints(txs[k + 1]);
  }

  lemma {:induction false} ListPosition(p: OutPoint, txs: seq<Tx>) returns (k: nat)
    requires FindInList(p, txs).Some?
    ensures k < |txs| && txs[k].id == p.txId && 0 <= p.idx < |txs[k].outs|
    ensures FindInList(p, txs).value.out == txs[k].outs[p.idx]
  {
    if txs[0].id == p.txId {
      k := 0;
    } else {
      var j := ListPosition(p, txs[1..]);
      k := j + 1;
    }
  }

  /** An entry created inside the block is there, with its value, until it is spent. */
  lemma {:induction false} StillThere(m: UtxoMap, txs: seq<Tx>, height: int, k: nat, p: OutPoint)
    requires FitsHeight(height) && k <= |txs|
    requires forall j | 0 <= j < k :: p !in InPoints(txs[j])
    ensures p in m && (forall j | 0 <= j < k :: p !in OutPoints(txs[j])) ==>
              p in ApplyTxs(m, txs[..k], height) && ApplyTxs(m, txs[..k], height)[p] == m[p]
    ensures DistinctIds(txs) ==> forall i | 0 <= i < k && p in OutPoints(txs[i]) ::
                p in ApplyTxs(m, txs[..k], height) && ApplyTxs(m, txs[..k], height)[p].out == txs[i].outs[p.idx]
  {
    if k > 0 {
      StillThere(m, txs, height, k - 1, p);
      assert txs[..k][..k - 1] == txs[..k - 1];
    }
  }

  lemma OwnIdMeansOwnOutput(txs: seq<Tx>, j: nat, p: OutPoint)
    requires j < |txs| && p in OutPoints(txs[j])
    ensures p.txId in IdsOf(txs)
  {
    assert txs[j].id in IdsOf(txs);
  }

  /** When its turn comes, every input of transaction k is unspent and worth what validation
      resolved it to. */
  lemma InputInTurn(rules: Rules, chain: seq<Block>, utxos: UtxoMap, pool: map<Id, Tx>, b: Block, height: int,
                    k: nat, i: nat)
    requires FitsHeight(height) && Sound(rules, chain, utxos, pool, b)
    requires 1 <= k < |b.txs| && i < |b.txs[k].ins|
    ensures var here := ApplyTxs(utxos, b.txs[..k], height);
            var to := b.txs[k].ins[i].toSpend;
            var found := if to.Some? then Resolve(BlockContext(chain, utxos, b), to.value) else None;
            && to.Some? && to.value in here
            && found.Some? && found.value.out.value == here[to.value].out.value
  {
    var tx := b.txs[k];
    assert b.txs[1..][k - 1] == tx;
    var ctx := BlockContext(chain, utxos, b);
    assert TxValid(rules, ctx, b.txs[1..][k - 1]);
    assert InputOk(rules, ctx, tx, tx.ins[i]);
    var p := tx.ins[i].toSpend.value;
    assert p in InPoints(tx);
    hide Shape, ContextOk, TxValid, BasicsOk, LocksOk, PoolAgrees, ApplyTxs;
    StillThere(utxos, b.txs, height, k, p);
    if p in utxos {
      forall j | 0 <= j < k
        ensures p !in OutPoints(b.txs[j])
      {
        if p in OutPoints(b.txs[j]) {
          OwnIdMeansOwnOutput(b.txs, j, p);
        }
      }
    } else {
      ShapeIds(rules, b);
      SiblingOutput(p, b.txs);
    }
  }

  lemma ShapeIds(rules: Rules, b: Block)
    requires Shape(rules, b)
    ensures DistinctIds(b.txs) && b.txs != [] && b.txs[0].IsCoinbase()
    ensures OutSum(b.txs[0].outs) <= MAX_MONEY
    ensures forall i | 1 <= i < |b.txs| :: BasicsOk(rules, b.txs[i], false)
  {
    assert BasicsOk(rules, b.txs[0], true);
  }

  lemma TxParts(rules: Rules, ctx: Context, tx: Tx)
    requires TxValid(rules, ctx, tx)
    ensures DistinctInputs(tx.ins) && OutSum(tx.outs) <= MAX_MONEY
    ensures OutSum(tx.outs) <= InputSum(ctx, tx.ins) <= MAX_UINT64
  {
    hide LocksOk, InputsOk, InputSum, DistinctInputs, OutSum;
  }

  lemma SoundTx(rules: Rules, chain: seq<Block>, utxos: UtxoMap, pool: map<Id, Tx>, b: Block, k: nat)
    requires Sound(rules, chain, utxos, pool, b) && 1 <= k < |b.txs|
    ensures DistinctIds(b.txs) && PoolAgrees(pool, b.txs)
    ensures TxValid(rules, BlockContext(chain, utxos, b), b.txs[k])
  {
    assert b.txs[1..][k - 1] == b.txs[k];
    hide DistinctIds, PoolAgrees, TxValid, BasicsOk, OrderedSpends, IdsOf, BlockContext;
  }

  lemma ApplyNext(m: UtxoMap, txs: seq<Tx>, height: int, k: nat)
    requires FitsHeight(height) && k < |txs|
    ensures ApplyTxs(m, txs[..k + 1], height) == ApplyTx(ApplyTxs(m, txs[..k], height), txs[k], height)
    ensures ApplyTxs(m, txs[..0], height) == m
  {
    assert txs[..k + 1][..k] == txs[..k];
    hide ApplyTx;
  }

  lemma PoolInput(utxos: UtxoMap, pool: map<Id, Tx>, b: Block, txIn: TxIn)
    requires DistinctIds(b.txs) && b.txs != [] && PoolAgrees(pool, b.txs) && txIn.toSpend.Some?
    requires txIn.toSpend.value in utxos || FindInList(txIn.toSpend.value, b.txs[1..]).Some?
    ensures FeeInput(utxos, pool, txIn) <=
              if txIn.toSpend.value in utxos then utxos[txIn.toSpend.value].out.value
              else FindInList(txIn.toSpend.value, b.txs[1..]).value.out.value
  {
    var p := txIn.toSpend.value;
    if p !in utxos && p.txId in pool {
      var k := ListPosition(p, b.txs[1..]);
      assert b.txs[1..][k] == b.txs[k + 1];
    }
  }

  lemma {:induction false} SumsAgree(rules: Rules, chain: seq<Block>, utxos: UtxoMap, pool: map<Id, Tx>, b: Block,
                                     height: int, k: nat, n: nat)
    requires FitsHeight(height) && Sound(rules, chain, utxos, pool, b)
    requires 1 <= k < |b.txs| && n <= |b.txs[k].ins|
    ensures var ins := b.txs[k].ins[..n];
            var here := ApplyTxs(utxos, b.txs[..k], height);
            && Spendable(here, ins)
            && InputSum(BlockContext(chain, utxos, b), ins) == SpentValue(here, ins)
            && FeeInputSum(utxos, pool, ins) <= SpentValue(here, ins)
  {
    hide *;
    var tx := b.txs[k];
    var ctx := BlockContext(chain, utxos, b);
    var here := ApplyTxs(utxos, b.txs[..k], height);
    SoundTx(rules, chain, utxos, pool, b, k);
    TxParts(rules, ctx, tx);
    ContextMap(chain, utxos, b);
    if n == 0 {
      EmptySums(ctx, here, pool, tx.ins[..0]);
    } else {
      SumsAgree(rules, chain, utxos, pool, b, height, k, n - 1);
      InputInTurn(rules, chain, utxos, pool, b, height, k, n - 1);
      assert tx.ins[..n][..n - 1] == tx.ins[..n - 1];
      ResolvedFrom(rules, chain, utxos, b, tx.ins[n - 1].toSpend.value);
      PoolInput(utxos, pool, b, tx.ins[n - 1]);
      NextSums(ctx, here, pool, tx.ins, n);
    }
  }

  lemma ContextMap(chain: seq<Block>, utxos: UtxoMap, b: Block)
    requires b.txs != []
    ensures BlockContext(chain, utxos, b).utxos == utxos
  {
  }

  lemma EmptySums(ctx: Context, here: UtxoMap, pool: map<Id, Tx>, ins: seq<TxIn>)
    requires ins == []
    ensures Spendable(here, ins) && InputSum(ctx, ins) == SpentValue(here, ins) == FeeInputSum(ctx.utxos, pool, ins) == 0
  {
  }

  lemma NextSums(ctx: Context, here: UtxoMap, pool: map<Id, Tx>, ins: seq<TxIn>, n: nat)
    requires 0 < n <= |ins| && DistinctInputs(ins) && Spendable(here, ins[..n - 1])
    requires var to := ins[n - 1].toSpend;
             && to.Some? && to.value in here && Resolve(ctx, to.value).Some?
             && Resolve(ctx, to.value).value.out.value == here[to.value].out.value
             && FeeInput(ctx.utxos, pool, ins[n - 1]) <= here[to.value].out.value
    ensures Spendable(here, ins[..n])
    ensures var v := here[ins[n - 1].toSpend.value].out.value;
            && InputSum(ctx, ins[..n]) == InputSum(ctx, ins[..n - 1]) + v
            && SpentValue(here, ins[..n]) == SpentValue(here, ins[..n - 1]) + v
            && FeeInputSum(ctx.utxos, pool, ins[..n]) <= FeeInputSum(ctx.utxos, pool, ins[..n - 1]) + v
  {
    hide Resolve, FeeInput;
    assert ins[..n][..n - 1] == ins[..n - 1];
  }

  lemma ResolvedFrom(rules: Rules, chain: seq<Block>, utxos: UtxoMap, b: Block, p: OutPoint)
    requires b.txs != [] && Resolve(BlockContext(chain, utxos, b), p).Some?
    ensures p in utxos || FindInList(p, b.txs[1..]).Some?
    ensures Resolve(BlockContext(chain, utxos, b), p).value ==
              if p in utxos then utxos[p] else FindInList(p, b.txs[1..]).value
  {
  }

  lemma FreshInTurn(rules: Rules, chain: seq<Block>, utxos: UtxoMap, pool: map<Id, Tx>, b: Block, height: int, k: nat)
    requires FitsHeight(height) && Sound(rules, chain, utxos, pool, b) && k < |b.txs|
    ensures OutPoints(b.txs[k]) !! ApplyTxs(utxos, b.txs[..k], height).Keys
  {
    ShapeIds(rules, b);
    hide Shape, ContextOk, ApplyTxs, OrderedSpends, PoolAgrees;
    forall p | p in OutPoints(b.txs[k])
      ensures p !in ApplyTxs(utxos, b.txs[..k], height)
    {
      OwnIdMeansOwnOutput(b.txs, k, p);
      assert forall j | 0 <= j < k :: b.txs[..k][j] == b.txs[j];
      if p in ApplyTxs(utxos, b.txs[..k], height) {
        ApplyTxsEntries(utxos, b.txs[..k], height, p);
      }
    }
  }

  /** calculate_fees never claims more than a transaction's true inputs minus its outputs, and no
      sum on the way wraps around. */
  lemma FeeIsTrue(rules: Rules, chain: seq<Block>, utxos: UtxoMap, pool: map<Id, Tx>, b: Block, height: int, k: nat)
    requires FitsHeight(height) && Sound(rules, chain, utxos, pool, b) && 1 <= k < |b.txs|
    ensures var tx := b.txs[k];
            var here := ApplyTxs(utxos, b.txs[..k], height);
            && Spendable(here, tx.ins)
            && FeeInputSum(utxos, pool, tx.ins) < TWO_64 && OutSum(tx.outs) < TWO_64
            && OutSum(tx.outs) + Fee(utxos, pool, tx) <= SpentValue(here, tx.ins)
  {
    hide *;
    var tx := b.txs[k];
    SoundTx(rules, chain, utxos, pool, b, k);
    TxParts(rules, BlockContext(chain, utxos, b), tx);
    SumsAgree(rules, chain, utxos, pool, b, height, k, |tx.ins|);
    assert tx.ins[..|tx.ins|] == tx.ins;
    FeeValue(utxos, pool, tx);
  }

  lemma FeeValue(utxos: UtxoMap, pool: map<Id, Tx>, tx: Tx)
    requires FeeInputSum(utxos, pool, tx.ins) <= MAX_UINT64 && OutSum(tx.outs) <= MAX_MONEY
    ensures FeeInputSum(utxos, pool, tx.ins) < TWO_64 && OutSum(tx.outs) < TWO_64
    ensures var spent, sent := FeeInputSum(utxos, pool, tx.ins), OutSum(tx.outs);
            Fee(utxos, pool, tx) == if spent < sent then 0 else spent - sent
  {
    hide FeeInputSum, OutSum;
  }

  lemma TxShrinks(rules: Rules, chain: seq<Block>, utxos: UtxoMap, pool: map<Id, Tx>, b: Block, height: int, k: nat)
    requires FitsHeight(height) && Sound(rules, chain, utxos, pool, b) && 1 <= k < |b.txs|
    ensures Total(ApplyTxs(utxos, b.txs[..k + 1], height)) + Fee(utxos, pool, b.txs[k])
            <= Total(ApplyTxs(utxos, b.txs[..k], height))
  {
    hide *;
    var here := ApplyTxs(utxos, b.txs[..k], height);
    ApplyNext(utxos, b.txs, height, k);
    FeeIsTrue(rules, chain, utxos, pool, b, height, k);
    FreshInTurn(rules, chain, utxos, pool, b, height, k);
    TxConserves(here, b.txs[k], height);
  }

  lemma {:induction false} FeesComeFromInputs(rules: Rules, chain: seq<Block>, utxos: UtxoMap, pool: map<Id, Tx>,
                                              b: Block,
                                              height: int, k: nat)
    requires FitsHeight(height) && Sound(rules, chain, utxos, pool, b) && 1 <= k <= |b.txs|
    ensures Total(ApplyTxs(utxos, b.txs[..k], height)) + FeeSum(utxos, pool, b.txs[1..][..k - 1])
            <= Total(ApplyTxs(utxos, b.txs[..1], height))
  {
    hide *;
    if k == 1 {
      NoFees(utxos, pool, b.txs[1..][..0]);
    } else {
      FeesComeFromInputs(rules, chain, utxos, pool, b, height, k - 1);
      TxShrinks(rules, chain, utxos, pool, b, height, k - 1);
      var earlier := b.txs[1..][..k - 1];
      assert earlier[..k - 2] == b.txs[1..][..k - 2] && earlier[k - 2] == b.txs[k - 1];
      OneMoreFee(utxos, pool, earlier);
    }
  }

  lemma NoFees(utxos: UtxoMap, pool: map<Id, Tx>, txs: seq<Tx>)
    requires txs == []
    ensures FeeSum(utxos, pool, txs) == 0
  {
  }

  lemma OneMoreFee(utxos: UtxoMap, pool: map<Id, Tx>, txs: seq<Tx>)
    requires txs != []
    ensures FeeSum(utxos, pool, txs) == FeeSum(utxos, pool, txs[..|txs| - 1]) + Fee(utxos, pool, txs[|txs| - 1])
  {
    hide Fee;
  }

  /** A valid block adds at most the subsidy of its height, and neither the fee total nor the
      coinbase limit wraps around. */
  lemma BlockConserves(rules: Rules, chain: seq<Block>, utxos: UtxoMap, pool: map<Id, Tx>, b: Block, height: int)
    requires FitsHeight(height) && Sound(rules, chain, utxos, pool, b)
    requires Total(utxos) <= MAX_MONEY
    ensures Subsidy(|chain|) + FeeSum(utxos, pool, b.txs[1..]) < TWO_64
    ensures Total(ApplyTxs(utxos, b.txs, height)) <= Total(utxos) + Subsidy(|chain|)
  {
    hide *;
    CoinbaseLimit(rules, chain, utxos, pool, b);
    ApplyNext(utxos, b.txs, height, 0);
    assert b.txs[1..][..|b.txs| - 1] == b.txs[1..] && b.txs[..|b.txs|] == b.txs;
    FreshInTurn(rules, chain, utxos, pool, b, height, 0);
    CoinbaseAdds(utxos, b.txs[0], height);
    FeesComeFromInputs(rules, chain, utxos, pool, b, height, |b.txs|);
    SubsidyIsSmall(|chain|);
    NoWrap(OutSum(b.txs[0].outs), Subsidy(|chain|), FeeSum(utxos, pool, b.txs[1..]));
  }

  lemma NoWrap(coinbase: nat, subsidy: nat, fees: nat)
    requires coinbase <= MAX_MONEY && subsidy <= 50 * COIN && fees <= 2 * MAX_MONEY
    requires coinbase % TWO_64 <= (subsidy + fees) % TWO_64
    ensures subsidy + fees < TWO_64 && coinbase <= subsidy + fees
  {
  }

  lemma CoinbaseLimit(rules: Rules, chain: seq<Block>, utxos: UtxoMap, pool: map<Id, Tx>, b: Block)
    requires Sound(rules, chain, utxos, pool, b)
    ensures b.txs != [] && b.txs[0].IsCoinbase() && OutSum(b.txs[0].outs) <= MAX_MONEY
    ensures OutSum(b.txs[0].outs) % TWO_64 <= (Subsidy(|chain|) + FeeSum(utxos, pool, b.txs[1..])) % TWO_64
  {
    hide DistinctIds, PoolAgrees, TxValid, OrderedSpends, IdsOf, BlockContext, OutSum, FeeSum, Subsidy, DistinctInputs;
    assert BasicsOk(rules, b.txs[0], true);
  }

  lemma {:induction false} HalvedIsSmall(k: nat)
    ensures HalvedSubsidy(k) <= 50 * COIN
  {
    if k > 0 {
      HalvedIsSmall(k - 1);
    }
  }

  lemma SubsidyIsSmall(height: nat)
    ensures Subsidy(height) <= 50 * COIN
  {
    HalvedIsSmall(height / HALVE_SUBSIDY_AFTER);
  }

  // ----- The subsidies of all heights -----

  ghost function SubsidySum(n: nat): nat {
    if n == 0 then 0 else SubsidySum(n - 1) + Subsidy(n - 1)
  }

  ghost function Product(a: nat, b: nat): nat {
    a * b
  }

  /** The most that can still be issued from height n on. */
  ghost function Remaining(n: nat): nat {
    Product(2 * HALVE_SUBSIDY_AFTER - n % HALVE_SUBSIDY_AFTER, HalvedSubsidy(n / HALVE_SUBSIDY_AFTER))
  }

  lemma NextHeight(n: nat)
    ensures Subsidy(n) + Remaining(n + 1) <= Remaining(n)
  {
    var h := n / HALVE_SUBSIDY_AFTER;
    var r := n % HALVE_SUBSIDY_AFTER;
    var g := HalvedSubsidy(h);
    if r + 1 < HALVE_SUBSIDY_AFTER {
      assert (n + 1) / HALVE_SUBSIDY_AFTER == h && (n + 1) % HALVE_SUBSIDY_AFTER == r + 1;
      assert (2 * HALVE_SUBSIDY_AFTER - r) * g == (2 * HALVE_SUBSIDY_AFTER - (r + 1)) * g + g;
    } else {
      assert (n + 1) / HALVE_SUBSIDY_AFTER == h + 1 && (n + 1) % HALVE_SUBSIDY_AFTER == 0;
      assert HalvedSubsidy(h + 1) == g / 2;
      assert 2 * HALVE_SUBSIDY_AFTER * (g / 2) <= HALVE_SUBSIDY_AFTER * g;
      assert (2 * HALVE_SUBSIDY_AFTER - r) * g == HALVE_SUBSIDY_AFTER * g + g;
    }
  }

  /** The supply cap: all subsidies together stay within the money supply, for any chain length. */
  lemma {:induction false} SubsidiesAreCapped(n: nat)
    ensures SubsidySum(n) + Remaining(n) <= MAX_MONEY
  {
    if n > 0 {
      SubsidiesAreCapped(n - 1);
      NextHeight(n - 1);
    }
  }

  // ----- A whole chain -----

  /** Every block after the initial ones was valid on the chain before it, with some mempool. */
  ghost predicate SoundChain(setup: Setup, chain: seq<Block>, pools: seq<map<Id, Tx>>) {
    && FitsHeight(|chain|) && |pools| == |chain| && |setup.base| <= |chain|
    && forall i | |setup.base| <= i < |chain| ::
         Sound(setup.rules, chain[..i], Fold(|setup.base|, chain[..i]), pools[i], chain[i])
  }

  /** The money in circulation is at most what the active heights were allowed to issue, hence at
      most the money supply. */
  lemma {:induction false} SupplyIsBounded(setup: Setup, chain: seq<Block>, pools: seq<map<Id, Tx>>)
    requires SoundChain(setup, chain, pools)
    ensures Total(Fold(|setup.base|, chain)) <= SubsidySum(|chain|) <= MAX_MONEY
    decreases |chain|
  {
    var base, n := |setup.base|, |chain| - 1;
    SubsidiesAreCapped(|chain|);
    if base < |chain| {
      SoundPrefix(setup, chain, pools);
      SupplyIsBounded(setup, chain[..n], pools[..n]);
      assert Sound(setup.rules, chain[..n], Fold(base, chain[..n]), pools[n], chain[n]);
      assert Fold(base, chain) == ApplyTxs(Fold(base, chain[..n]), chain[n].txs, n + 1);
      hide Sound, SoundChain, Total, ApplyTxs, Fold, Subsidy;
      BlockConserves(setup.rules, chain[..n], Fold(base, chain[..n]), pools[n], chain[n], n + 1);
    }
  }

  lemma SoundPrefix(setup: Setup, chain: seq<Block>, pools: seq<map<Id, Tx>>)
    requires SoundChain(setup, chain, pools) && |setup.base| < |chain|
    ensures SoundChain(setup, chain[..|chain| - 1], pools[..|chain| - 1])
  {
    hide Sound;
    var n := |chain| - 1;
    assert forall i | 0 <= i <= n :: chain[..n][..i] == chain[..i];
  }
}
