/** What a valid block does to the money when its transactions may spend each other's outputs. */
module SiblingMoney {
  import opened Types
  import opened TxRules
  import opened Ledger
  import opened ChainSpec
  import opened Supply
  import opened Conservation
  import opened PoolVerdicts

  // ----- What goes in and what is taken out -----

  /** What validation counts as going into the transactions. */
  ghost function CountedIn(ctx: Context, txs: seq<Tx>): nat {
    if txs == [] then 0 else CountedIn(ctx, txs[..|txs| - 1]) + InputSum(ctx, txs[|txs| - 1].ins)
  }

  lemma {:induction false} TrueFeesAre(ctx: Context, txs: seq<Tx>)
    ensures TrueFees(ctx, txs) + AllOutSum(txs) == CountedIn(ctx, txs)
  {
    hide InputSum, OutSum;
    if txs != [] {
      TrueFeesAre(ctx, txs[..|txs| - 1]);
    }
  }

  lemma {:induction false} CoinbaseFirst(txs: seq<Tx>)
    requires txs != []
    ensures AllOutSum(txs) == OutSum(txs[0].outs) + AllOutSum(txs[1..])
  {
    hide OutSum;
    if |txs| > 1 {
      var n := |txs| - 1;
      CoinbaseFirst(txs[..n]);
      assert txs[..n][1..] == txs[1..][..n - 1];
    } else {
      assert txs[..0] == [];
    }
  }

  /** The checks that no mempool has a part in, for a block whose ids are new. */
  ghost predicate Passes(rules: Rules, chain: seq<Block>, utxos: UtxoMap, b: Block) {
    && b.txs != [] && b.txs[0].IsCoinbase() && FreshFor(utxos, b.txs) && OthersOk(rules, chain, utxos, b)
  }

  /** The balance of such a block: what its coinbase takes, less the fees really paid, plus what
      validation counted as an input and the map did not give up. */
  lemma Balance(rules: Rules, chain: seq<Block>, utxos: UtxoMap, b: Block, height: int)
    requires FitsHeight(height) && Passes(rules, chain, utxos, b)
    ensures var ctx := BlockContext(chain, utxos, b);
            Total(ApplyTxs(utxos, b.txs, height)) + TrueFees(ctx, b.txs[1..]) + Removed(utxos, b.txs, height) ==
            Total(utxos) + OutSum(b.txs[0].outs) + CountedIn(ctx, b.txs[1..])
  {
    hide OthersOk, ApplyTxs, Removed, Total, FreshFor, OutSum, AllOutSum, TrueFees, CountedIn;
    TrueFeesAre(BlockContext(chain, utxos, b), b.txs[1..]);
    CoinbaseFirst(b.txs);
    TotalExactly(utxos, b.txs, height);
  }

  // ----- The condition -----

  ghost predicate HasValue(ctx: Context, p: OutPoint) {
    Resolve(ctx, p).Some? && Resolve(ctx, p).value.out.value > 0
  }

  /** No output of any value is spent by two transactions, and none in front of the transaction that
      creates it. */
  ghost predicate SpentInTurn(ctx: Context, txs: seq<Tx>) {
    && (forall i, j, p | 0 <= i < j < |txs| && p in InPoints(txs[i]) && p in InPoints(txs[j]) :: !HasValue(ctx, p))
    && (forall i, j, p | 0 <= i < |txs| && 0 <= j < |txs| && p in InPoints(txs[j]) && p in OutPoints(txs[i]) ::
          HasValue(ctx, p) ==> i < j)
  }

  /** Every input of the first n transactions that is worth anything is there when its turn comes. */
  ghost predicate ThereInTurn(ctx: Context, txs: seq<Tx>, height: int, n: nat)
    requires FitsHeight(height) && n <= |txs|
  {
    forall j, p | 0 <= j < n && p in InPoints(txs[j]) && HasValue(ctx, p) :: p in ApplyTxs(ctx.utxos, txs[..j], height)
  }

  // ----- One output -----

  lemma CreatedByOne(txs: seq<Tx>, i: nat, j: nat, p: OutPoint)
    requires DistinctIds(txs) && i < |txs| && j < |txs| && p in OutPoints(txs[i]) && p in OutPoints(txs[j])
    ensures i == j
  {
  }

  /** An output that is there was there before the block or was created by an earlier transaction. */
  lemma Origin(utxos: UtxoMap, txs: seq<Tx>, height: int, j: nat, p: OutPoint)
    requires FitsHeight(height) && j <= |txs| && p in ApplyTxs(utxos, txs[..j], height)
    ensures (p in utxos && ApplyTxs(utxos, txs[..j], height)[p] == utxos[p]) ||
            exists i :: 0 <= i < j && p in OutPoints(txs[i]) && ApplyTxs(utxos, txs[..j], height)[p].out == txs[i].outs[p.idx]
  {
    hide ApplyTxs, OutPoints;
    ApplyTxsEntries(utxos, txs[..j], height, p);
    if i :| 0 <= i < j && p in OutPoints(txs[..j][i]) &&
            ApplyTxs(utxos, txs[..j], height)[p] == Created(txs[..j][i], height)[p] {
      assert txs[..j][i] == txs[i];
    }
  }

  lemma NotCreated(utxos: UtxoMap, txs: seq<Tx>, p: OutPoint)
    requires FreshFor(utxos, txs) && p in utxos
    ensures forall i | 0 <= i < |txs| :: p !in OutPoints(txs[i])
  {
    forall i | 0 <= i < |txs|
      ensures p !in OutPoints(txs[i])
    {
      if p in OutPoints(txs[i]) {
        OwnIdMeansOwnOutput(txs, i, p);
      }
    }
  }

  /** Once spent, an output does not come back. */
  lemma {:induction false} StaysSpent(utxos: UtxoMap, txs: seq<Tx>, height: int, i: nat, j: nat, p: OutPoint)
    requires FitsHeight(height) && i < j <= |txs| && p in InPoints(txs[i])
    requires forall k | i <= k < j :: p !in OutPoints(txs[k])
    ensures p !in ApplyTxs(utxos, txs[..j], height)
  {
    assert txs[..j][..j - 1] == txs[..j - 1];
    if i < j - 1 {
      StaysSpent(utxos, txs, height, i, j - 1, p);
    }
  }

  lemma SpentOnlyOnce(utxos: UtxoMap, txs: seq<Tx>, height: int, i: nat, j: nat, p: OutPoint)
    requires FitsHeight(height) && FreshFor(utxos, txs) && i < j < |txs|
    requires p in InPoints(txs[i]) && p in ApplyTxs(utxos, txs[..i], height)
    ensures p !in ApplyTxs(utxos, txs[..j], height)
  {
    hide ApplyTxs, InPoints, OutPoints, DistinctIds;
    FreshIsDistinct(utxos, txs);
    Origin(utxos, txs, height, i, p);
    forall k | i <= k < j
      ensures p !in OutPoints(txs[k])
    {
      if p in utxos {
        NotCreated(utxos, txs, p);
      } else {
        var c :| 0 <= c < i && p in OutPoints(txs[c]);
        if p in OutPoints(txs[k]) {
          CreatedByOne(txs, c, k, p);
        }
      }
    }
    StaysSpent(utxos, txs, height, i, j, p);
  }

  /** What validation resolves is worth in the map what it was resolved to. */
  lemma WorthInTurn(chain: seq<Block>, utxos: UtxoMap, b: Block, height: int, j: nat, p: OutPoint)
    requires FitsHeight(height) && b.txs != [] && FreshFor(utxos, b.txs) && j <= |b.txs|
    requires Resolve(BlockContext(chain, utxos, b), p).Some? && p in ApplyTxs(utxos, b.txs[..j], height)
    ensures ApplyTxs(utxos, b.txs[..j], height)[p].out.value == Resolve(BlockContext(chain, utxos, b), p).value.out.value
  {
    hide ApplyTxs, DistinctIds, FindInList;
    FreshIsDistinct(utxos, b.txs);
    Origin(utxos, b.txs, height, j, p);
    if p in utxos {
      NotCreated(utxos, b.txs, p);
    } else {
      SiblingOutput(p, b.txs);
      var i :| 1 <= i < |b.txs| && p in OutPoints(b.txs[i]) && FindInList(p, b.txs[1..]).value.out == b.txs[i].outs[p.idx];
      var k :| 0 <= k < j && p in OutPoints(b.txs[k]) && ApplyTxs(utxos, b.txs[..j], height)[p].out == b.txs[k].outs[p.idx];
      CreatedByOne(b.txs, i, k, p);
    }
  }

  // ----- One transaction -----

  /** The inputs are different and resolve. */
  ghost predicate Counts(ctx: Context, ins: seq<TxIn>) {
    Resolved(ctx, ins) && DistinctInputs(ins)
  }

  ghost function PointsOf(ins: seq<TxIn>): set<OutPoint> {
    set i | 0 <= i < |ins| && ins[i].toSpend.Some? :: ins[i].toSpend.value
  }

  lemma OneMorePoint(ctx: Context, ins: seq<TxIn>)
    requires ins != [] && Counts(ctx, ins)
    ensures var n := |ins| - 1;
            && Counts(ctx, ins[..n]) && ins[n].toSpend.Some? && Resolve(ctx, ins[n].toSpend.value).Some?
            && ins[n].toSpend.value !in PointsOf(ins[..n]) && PointsOf(ins) == PointsOf(ins[..n]) + {ins[n].toSpend.value}
  {
    hide Resolve;
    var n := |ins| - 1;
    assert forall i | 0 <= i < n :: ins[..n][i] == ins[i];
  }

  lemma ValueOfOneMore(m: UtxoMap, s: set<OutPoint>, p: OutPoint)
    requires p !in s
    ensures ValueAt(m, s + {p}) == ValueAt(m, s) + if p in m then m[p].out.value else 0
  {
    if p in m {
      TotalWith(OnlyAt(m, s), p, m[p]);
      assert OnlyAt(m, s + {p}) == OnlyAt(m, s)[p := m[p]];
    } else {
      assert OnlyAt(m, s + {p}) == OnlyAt(m, s);
    }
  }

  /** The map gives up at most what the inputs count for, and all of it exactly if every input that
      is worth anything is there. */
  lemma {:induction false} TakenOfCounted(ctx: Context, here: UtxoMap, ins: seq<TxIn>)
    requires Counts(ctx, ins)
    requires forall p | p in PointsOf(ins) && p in here && Resolve(ctx, p).Some? ::
               here[p].out.value == Resolve(ctx, p).value.out.value
    ensures ValueAt(here, PointsOf(ins)) <= InputSum(ctx, ins)
    ensures ValueAt(here, PointsOf(ins)) == InputSum(ctx, ins) <==>
            forall p | p in PointsOf(ins) && HasValue(ctx, p) :: p in here
  {
    hide Counts, Resolve, ValueAt, PointsOf;
    if ins == [] {
      NothingTaken(ctx, here, ins);
    } else {
      var n := |ins| - 1;
      OneMorePoint(ctx, ins);
      TakenOfCounted(ctx, here, ins[..n]);
      ValueOfOneMore(here, PointsOf(ins[..n]), ins[n].toSpend.value);
    }
  }

  lemma NothingTaken(ctx: Context, here: UtxoMap, ins: seq<TxIn>)
    requires ins == []
    ensures PointsOf(ins) == {} && ValueAt(here, {}) == 0 && InputSum(ctx, ins) == 0
  {
    assert OnlyAt(here, {}) == map[];
  }

  lemma PointsAre(tx: Tx)
    ensures PointsOf(tx.ins) == InPoints(tx)
  {
  }

  /** Transaction j of the block, behind the coinbase. */
  lemma TakenInTurn(rules: Rules, chain: seq<Block>, utxos: UtxoMap, b: Block, height: int, j: nat)
    requires FitsHeight(height) && Passes(rules, chain, utxos, b) && 1 <= j < |b.txs|
    ensures var ctx, here := BlockContext(chain, utxos, b), ApplyTxs(utxos, b.txs[..j], height);
            && ValueAt(here, InPoints(b.txs[j])) <= InputSum(ctx, b.txs[j].ins)
            && (ValueAt(here, InPoints(b.txs[j])) == InputSum(ctx, b.txs[j].ins) <==>
                  forall p | p in InPoints(b.txs[j]) && HasValue(ctx, p) :: p in here)
  {
    hide ApplyTxs, OthersOk, TxValid, Resolve, ValueAt, InPoints, InputSum, Counts, FreshFor, PointsOf,
         BlockContext, AllValidIn;
    var ctx, here, tx := BlockContext(chain, utxos, b), ApplyTxs(utxos, b.txs[..j], height), b.txs[j];
    ContextOf(chain, utxos, b, rules);
    BlockTx(rules, ctx, b, j);
    PointsAre(tx);
    forall p | p in PointsOf(tx.ins) && p in here && Resolve(ctx, p).Some?
      ensures here[p].out.value == Resolve(ctx, p).value.out.value
    {
      WorthInTurn(chain, utxos, b, height, j, p);
    }
    TakenOfCounted(ctx, here, tx.ins);
  }

  lemma BlockTx(rules: Rules, ctx: Context, b: Block, j: nat)
    requires 1 <= j < |b.txs| && AllValidIn(rules, ctx, b.txs[1..])
    ensures Counts(ctx, b.txs[j].ins)
  {
    hide TxValid, Resolved;
    assert b.txs[1..][j - 1] == b.txs[j];
    ValidParts(rules, ctx, b.txs[j]);
    ValidIsDistinct(rules, ctx, b.txs[j]);
  }

  lemma ValidIsDistinct(rules: Rules, ctx: Context, tx: Tx)
    requires TxValid(rules, ctx, tx)
    ensures DistinctInputs(tx.ins)
  {
    hide LocksOk, InputsOk, InputSum, OutSum;
  }

  // ----- The block -----

  lemma {:induction false} TakenOfBlock(rules: Rules, chain: seq<Block>, utxos: UtxoMap, b: Block, height: int, n: nat)
    requires FitsHeight(height) && Passes(rules, chain, utxos, b) && 1 <= n <= |b.txs|
    ensures var ctx := BlockContext(chain, utxos, b);
            && Removed(utxos, b.txs[..n], height) <= CountedIn(ctx, b.txs[1..][..n - 1])
            && (Removed(utxos, b.txs[..n], height) == CountedIn(ctx, b.txs[1..][..n - 1]) <==>
                  ThereInTurn(ctx, b.txs, height, n))
  {
    hide ApplyTxs, Passes, HasValue, ValueAt, InPoints, InputSum, BlockContext;
    var ctx, txs := BlockContext(chain, utxos, b), b.txs;
    if n == 1 {
      CoinbaseTakesNothing(rules, chain, utxos, b, height);
    } else {
      TakenOfBlock(rules, chain, utxos, b, height, n - 1);
      TakenInTurn(rules, chain, utxos, b, height, n - 1);
      NextTaken(chain, utxos, b, height, n - 1);
    }
  }

  lemma CoinbaseTakesNothing(rules: Rules, chain: seq<Block>, utxos: UtxoMap, b: Block, height: int)
    requires FitsHeight(height) && Passes(rules, chain, utxos, b)
    ensures var ctx := BlockContext(chain, utxos, b);
            && Removed(utxos, b.txs[..1], height) == 0 && CountedIn(ctx, b.txs[1..][..0]) == 0
            && ThereInTurn(ctx, b.txs, height, 1)
  {
    hide OthersOk, FreshFor, HasValue;
    assert InPoints(b.txs[0]) == {} && b.txs[..1][..0] == [];
    assert OnlyAt(utxos, {}) == map[];
  }

  lemma NextTaken(chain: seq<Block>, utxos: UtxoMap, b: Block, height: int, j: nat)
    requires FitsHeight(height) && 1 <= j < |b.txs|
    ensures var ctx, here := BlockContext(chain, utxos, b), ApplyTxs(utxos, b.txs[..j], height);
            && Removed(utxos, b.txs[..j + 1], height) == Removed(utxos, b.txs[..j], height) + ValueAt(here, InPoints(b.txs[j]))
            && CountedIn(ctx, b.txs[1..][..j]) == CountedIn(ctx, b.txs[1..][..j - 1]) + InputSum(ctx, b.txs[j].ins)
            && (ThereInTurn(ctx, b.txs, height, j + 1) <==>
                  ThereInTurn(ctx, b.txs, height, j) && forall p | p in InPoints(b.txs[j]) && HasValue(ctx, p) :: p in here)
  {
    hide ApplyTxs, HasValue, ValueAt, InPoints, InputSum;
    assert b.txs[..j + 1][..j] == b.txs[..j];
    assert b.txs[1..][..j][..j - 1] == b.txs[1..][..j - 1] && b.txs[1..][..j][j - 1] == b.txs[j];
    assert BlockContext(chain, utxos, b).utxos == utxos;
  }

  /** Everything of value is there in its turn exactly if it is spent in turn. */
  lemma ThereIffInTurn(rules: Rules, chain: seq<Block>, utxos: UtxoMap, b: Block, height: int)
    requires FitsHeight(height) && Passes(rules, chain, utxos, b)
    ensures var ctx := BlockContext(chain, utxos, b);
            ThereInTurn(ctx, b.txs, height, |b.txs|) <==> SpentInTurn(ctx, b.txs)
  {
    hide ApplyTxs, OthersOk, Resolve, HasValue, InPoints, OutPoints, FreshFor;
    var ctx, txs := BlockContext(chain, utxos, b), b.txs;
    if ThereInTurn(ctx, txs, height, |txs|) {
      forall i, j, p | 0 <= i < j < |txs| && p in InPoints(txs[i]) && p in InPoints(txs[j])
        ensures !HasValue(ctx, p)
      {
        if HasValue(ctx, p) {
          SpentOnlyOnce(utxos, txs, height, i, j, p);
        }
      }
      forall i, j, p | 0 <= i < |txs| && 0 <= j < |txs| && p in InPoints(txs[j]) && p in OutPoints(txs[i])
        ensures HasValue(ctx, p) ==> i < j
      {
        if HasValue(ctx, p) {
          CreatedBefore(utxos, txs, height, i, j, p);
        }
      }
    }
    if SpentInTurn(ctx, txs) {
      forall j, p | 0 <= j < |txs| && p in InPoints(txs[j]) && HasValue(ctx, p)
        ensures p in ApplyTxs(utxos, txs[..j], height)
      {
        ThereBecauseInTurn(chain, utxos, b, height, j, p);
      }
    }
  }

  lemma CreatedBefore(utxos: UtxoMap, txs: seq<Tx>, height: int, i: nat, j: nat, p: OutPoint)
    requires FitsHeight(height) && FreshFor(utxos, txs) && i < |txs| && j < |txs|
    requires p in OutPoints(txs[i]) && p in ApplyTxs(utxos, txs[..j], height)
    ensures i < j
  {
    hide ApplyTxs, OutPoints, DistinctIds;
    FreshIsDistinct(utxos, txs);
    Origin(utxos, txs, height, j, p);
    if p in utxos {
      NotCreated(utxos, txs, p);
    } else {
      var c :| 0 <= c < j && p in OutPoints(txs[c]);
      CreatedByOne(txs, c, i, p);
    }
  }

  lemma ThereBecauseInTurn(chain: seq<Block>, utxos: UtxoMap, b: Block, height: int, j: nat, p: OutPoint)
    requires FitsHeight(height) && b.txs != [] && FreshFor(utxos, b.txs)
    requires SpentInTurn(BlockContext(chain, utxos, b), b.txs)
    requires j < |b.txs| && p in InPoints(b.txs[j]) && HasValue(BlockContext(chain, utxos, b), p)
    ensures p in ApplyTxs(utxos, b.txs[..j], height)
  {
    hide ApplyTxs, InPoints, OutPoints, DistinctIds, FindInList;
    FreshIsDistinct(utxos, b.txs);
    StillThere(utxos, b.txs, height, j, p);
    if p in utxos {
      NotCreated(utxos, b.txs, p);
    } else {
      SiblingOutput(p, b.txs);
      var i :| 1 <= i < |b.txs| && p in OutPoints(b.txs[i]);
    }
  }

  /** A block that passes and whose coinbase claims all the fees really paid adds at most the subsidy
      if and only if no output of any value is spent twice in it or in front of the transaction that
      creates it. */
  lemma ConservesIffInTurn(rules: Rules, chain: seq<Block>, utxos: UtxoMap, b: Block, height: int)
    requires FitsHeight(height) && Passes(rules, chain, utxos, b)
    requires OutSum(b.txs[0].outs) == Subsidy(|chain|) + TrueFees(BlockContext(chain, utxos, b), b.txs[1..])
    ensures Total(ApplyTxs(utxos, b.txs, height)) <= Total(utxos) + Subsidy(|chain|) <==>
            SpentInTurn(BlockContext(chain, utxos, b), b.txs)
  {
    hide *;
    NotEmpty(rules, chain, utxos, b);
    Balance(rules, chain, utxos, b, height);
    TakenOfBlock(rules, chain, utxos, b, height, |b.txs|);
    assert b.txs[..|b.txs|] == b.txs && b.txs[1..][..|b.txs| - 1] == b.txs[1..];
    ThereIffInTurn(rules, chain, utxos, b, height);
  }

  lemma NotEmpty(rules: Rules, chain: seq<Block>, utxos: UtxoMap, b: Block)
    requires Passes(rules, chain, utxos, b)
    ensures b.txs != [] && DistinctIds(b.txs) && OthersOk(rules, chain, utxos, b)
  {
    hide OthersOk;
  }

  /** And whatever it claims: any block that some mempool lets pass adds at most the subsidy if it
      spends in turn. */
  lemma InTurnConserves(rules: Rules, chain: seq<Block>, utxos: UtxoMap, pool: map<Id, Tx>, b: Block, height: int)
    requires FitsHeight(height) && BlockValid(rules, chain, utxos, pool, b) && FreshFor(utxos, b.txs)
    requires b.txs != [] && PoolAgrees(pool, b.txs[1..]) && SpentInTurn(BlockContext(chain, utxos, b), b.txs)
    ensures Total(ApplyTxs(utxos, b.txs, height)) <= Total(utxos) + Subsidy(|chain|)
  {
    hide *;
    PassesWhen(rules, chain, utxos, pool, b);
    NotEmpty(rules, chain, utxos, b);
    Balance(rules, chain, utxos, b, height);
    TakenOfBlock(rules, chain, utxos, b, height, |b.txs|);
    assert b.txs[..|b.txs|] == b.txs && b.txs[1..][..|b.txs| - 1] == b.txs[1..];
    ThereIffInTurn(rules, chain, utxos, b, height);
    ContextOf(chain, utxos, b, rules);
    EmptyAgrees(b, pool);
    FeesGrow(rules, BlockContext(chain, utxos, b), b, map[], pool, b.txs[1..]);
  }

  lemma PassesWhen(rules: Rules, chain: seq<Block>, utxos: UtxoMap, pool: map<Id, Tx>, b: Block)
    requires BlockValid(rules, chain, utxos, pool, b) && FreshFor(utxos, b.txs) && b.txs != []
    ensures Passes(rules, chain, utxos, b)
    ensures OutSum(b.txs[0].outs) <= Subsidy(|chain|) + FeeSum(utxos, pool, b.txs[1..])
  {
    hide Shape, TxValid, RequiredBits, OutSum, FeeSum, FreshFor, DistinctIds, TimeOk, Subsidy, BlockContext;
    ShapeIds(rules, b);
    ClaimIsBounded(OutSum(b.txs[0].outs), Subsidy(|chain|) + FeeSum(utxos, pool, b.txs[1..]));
  }

  lemma ClaimIsBounded(claim: nat, limit: nat)
    requires claim <= MAX_MONEY
    ensures claim % TWO_64 <= limit % TWO_64 ==> claim <= limit
  {
  }
}
