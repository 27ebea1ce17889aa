/** The exact law of a block's money, and what happens to it when an output is spent twice in a
    block or spent before it is created. */
module Conservation {
  import opened Types
  import opened TxRules
  import opened MedianTime
  import opened Ledger
  import opened ChainSpec
  import opened Supply
  import opened ChainLaws
  import Merkle
  import Difficulty

  // ----- The value of some outputs -----

  ghost function OnlyAt(m: UtxoMap, s: set<OutPoint>): UtxoMap {
    map p | p in m && p in s :: m[p]
  }

  ghost function ValueAt(m: UtxoMap, s: set<OutPoint>): nat {
    Total(OnlyAt(m, s))
  }

  lemma {:induction false} TotalSplits(m: UtxoMap, s: set<OutPoint>)
    ensures Total(m) == ValueAt(m, s) + Total(m - s)
    decreases |m|
  {
    if m == map[] {
      assert OnlyAt(m, s) == map[] && m - s == map[];
    } else {
      var p :| p in m;
      Smaller(m, p);
      TotalSplits(m - {p}, s);
      TotalWithout(m, p);
      if p in s {
        TotalWithout(OnlyAt(m, s), p);
        assert OnlyAt(m, s) - {p} == OnlyAt(m - {p}, s);
        assert m - {p} - s == m - s;
      } else {
        TotalWithout(m - s, p);
        assert m - s - {p} == m - {p} - s;
        assert OnlyAt(m - {p}, s) == OnlyAt(m, s);
      }
    }
  }

  lemma {:induction false} WorthNothing(m: UtxoMap)
    ensures Total(m) == 0 <==> forall p | p in m :: m[p].out.value == 0
    decreases |m|
  {
    if m != map[] {
      var p :| p in m;
      Smaller(m, p);
      TotalWithout(m, p);
      WorthNothing(m - {p});
      assert forall q | q in m && q != p :: q in m - {p} && (m - {p})[q] == m[q];
    }
  }

  // ----- Any list of transactions -----

  ghost predicate FreshFor(m: UtxoMap, txs: seq<Tx>) {
    DistinctIds(txs) && forall p | p in m :: p.txId !in IdsOf(txs)
  }

  /** What the transactions take out of the map, each in its turn. */
  ghost function Removed(m: UtxoMap, txs: seq<Tx>, height: int): nat
    requires FitsHeight(height)
  {
    if txs == [] then 0
    else
      var n := |txs| - 1;
      Removed(m, txs[..n], height) + ValueAt(ApplyTxs(m, txs[..n], height), InPoints(txs[n]))
  }

  ghost function AllOutSum(txs: seq<Tx>): nat {
    if txs == [] then 0 else AllOutSum(txs[..|txs| - 1]) + OutSum(txs[|txs| - 1].outs)
  }

  lemma FreshPrefix(m: UtxoMap, txs: seq<Tx>, n: nat)
    requires FreshFor(m, txs) && n <= |txs|
    ensures FreshFor(m, txs[..n])
  {
    assert IdsOf(txs[..n]) <= IdsOf(txs);
  }

  lemma FreshOutputsHere(m: UtxoMap, txs: seq<Tx>, height: int, n: nat)
    requires FitsHeight(height) && FreshFor(m, txs) && n < |txs|
    ensures OutPoints(txs[n]) !! ApplyTxs(m, txs[..n], height).Keys
  {
    hide ApplyTxs;
    forall p | p in OutPoints(txs[n])
      ensures p !in ApplyTxs(m, txs[..n], height)
    {
      OwnIdMeansOwnOutput(txs, n, p);
      if p in ApplyTxs(m, txs[..n], height) {
        ApplyTxsEntries(m, txs[..n], height, p);
      }
    }
  }

  lemma OneTx(m: UtxoMap, tx: Tx, height: int)
    requires FitsHeight(height) && OutPoints(tx) !! m.Keys
    ensures Total(ApplyTx(m, tx, height)) + ValueAt(m, InPoints(tx)) == Total(m) + OutSum(tx.outs)
  {
    hide ValueAt;
    TotalSplits(m, InPoints(tx));
    TotalAfterCreating(m - InPoints(tx), tx, |tx.outs|, height);
    assert CreatedUpTo(tx, |tx.outs|, height) == Created(tx, height) && tx.outs[..|tx.outs|] == tx.outs;
  }

  /** The exact law, whatever the transactions spend: the total grows by the outputs created and
      shrinks by what is really taken out. */
  lemma {:induction false} TotalExactly(m: UtxoMap, txs: seq<Tx>, height: int)
    requires FitsHeight(height) && FreshFor(m, txs)
    ensures Total(ApplyTxs(m, txs, height)) + Removed(m, txs, height) == Total(m) + AllOutSum(txs)
  {
    if txs != [] {
      var n := |txs| - 1;
      FreshPrefix(m, txs, n);
      FreshOutputsHere(m, txs, height, n);
      TotalExactly(m, txs[..n], height);
      hide FreshFor, ApplyTx, ValueAt, InPoints, OutPoints;
      OneTx(ApplyTxs(m, txs[..n], height), txs[n], height);
    }
  }

  // ----- Transactions that spend what is in the map -----

  /** What validation counts: every input at its value in the map, each time it is spent. */
  ghost function Counted(m: UtxoMap, txs: seq<Tx>): nat {
    if txs == [] then 0 else Counted(m, txs[..|txs| - 1]) + ValueAt(m, InPoints(txs[|txs| - 1]))
  }

  /** What is counted a second time. */
  ghost function Repeated(m: UtxoMap, txs: seq<Tx>): nat {
    if txs == [] then 0
    else
      var n := |txs| - 1;
      Repeated(m, txs[..n]) + ValueAt(m, InPoints(txs[n]) * AllIns(txs[..n]))
  }

  /** No output of any value is spent twice. */
  ghost predicate NothingTwice(m: UtxoMap, txs: seq<Tx>) {
    forall i, j, p | 0 <= i < j < |txs| && p in InPoints(txs[i]) && p in InPoints(txs[j]) && p in m :: m[p].out.value == 0
  }

  lemma {:induction false} UnspentSoFar(m: UtxoMap, txs: seq<Tx>, height: int, p: OutPoint)
    requires FitsHeight(height) && FreshFor(m, txs) && p in m
    ensures p in ApplyTxs(m, txs, height) <==> p !in AllIns(txs)
    ensures p in ApplyTxs(m, txs, height) ==> ApplyTxs(m, txs, height)[p] == m[p]
  {
    if txs != [] {
      var n := |txs| - 1;
      FreshPrefix(m, txs, n);
      UnspentSoFar(m, txs[..n], height, p);
      if p in OutPoints(txs[n]) {
        OwnIdMeansOwnOutput(txs, n, p);
      }
      hide FreshFor;
    }
  }

  lemma CountedInTurn(m: UtxoMap, txs: seq<Tx>, height: int, s: set<OutPoint>)
    requires FitsHeight(height) && FreshFor(m, txs) && s <= m.Keys
    ensures ValueAt(m, s) == ValueAt(ApplyTxs(m, txs, height), s) + ValueAt(m, s * AllIns(txs))
  {
    hide FreshFor, ApplyTxs, AllIns;
    var here := ApplyTxs(m, txs, height);
    forall p | p in s
      ensures p in here <==> p !in AllIns(txs)
      ensures p in here ==> here[p] == m[p]
    {
      UnspentSoFar(m, txs, height, p);
    }
    TotalSplits(OnlyAt(m, s), AllIns(txs));
    assert OnlyAt(OnlyAt(m, s), AllIns(txs)) == OnlyAt(m, s * AllIns(txs));
    assert OnlyAt(m, s) - AllIns(txs) == OnlyAt(here, s);
  }

  lemma {:induction false} CountedIs(m: UtxoMap, txs: seq<Tx>, height: int)
    requires FitsHeight(height) && FreshFor(m, txs) && AllUnspent(m, txs)
    ensures Counted(m, txs) == Removed(m, txs, height) + Repeated(m, txs)
  {
    if txs != [] {
      var n := |txs| - 1;
      FreshPrefix(m, txs, n);
      assert AllUnspent(m, txs[..n]) && InPoints(txs[n]) <= m.Keys;
      CountedIs(m, txs[..n], height);
      hide FreshFor, AllUnspent, ApplyTxs, AllIns, ValueAt;
      CountedInTurn(m, txs[..n], height, InPoints(txs[n]));
    }
  }

  lemma {:induction false} RepeatedIffTwice(m: UtxoMap, txs: seq<Tx>)
    ensures Repeated(m, txs) == 0 <==> NothingTwice(m, txs)
  {
    if txs != [] {
      var n := |txs| - 1;
      RepeatedIffTwice(m, txs[..n]);
      TwiceSoFar(m, txs, n);
    }
  }

  lemma TwiceSoFar(m: UtxoMap, txs: seq<Tx>, n: nat)
    requires n + 1 == |txs|
    ensures NothingTwice(m, txs) <==> NothingTwice(m, txs[..n]) && ValueAt(m, InPoints(txs[n]) * AllIns(txs[..n])) == 0
  {
    var again := InPoints(txs[n]) * AllIns(txs[..n]);
    WorthNothing(OnlyAt(m, again));
    assert forall i | 0 <= i < n :: txs[..n][i] == txs[i];
    forall p
      ensures p in AllIns(txs[..n]) <==> exists i :: 0 <= i < n && p in InPoints(txs[i])
    {
      AllMembers(txs[..n], p);
    }
    assert ValueAt(m, again) == 0 <==> forall p | p in again && p in m :: m[p].out.value == 0 by {
      assert forall p | p in again && p in m :: p in OnlyAt(m, again) && OnlyAt(m, again)[p] == m[p];
    }
    hide ValueAt, AllIns, InPoints;
  }

  // ----- One block -----

  lemma CountedAt(m: UtxoMap, tx: Tx)
    requires Spendable(m, tx.ins)
    ensures SpentValue(m, tx.ins) == ValueAt(m, InPoints(tx))
  {
    hide ValueAt;
    TotalAfterSpending(m, tx, |tx.ins|);
    assert InPointsUpTo(tx, |tx.ins|) == InPoints(tx) && tx.ins[..|tx.ins|] == tx.ins;
    TotalSplits(m, InPoints(tx));
  }

  lemma {:induction false} MapInputs(ctx: Context, pool: map<Id, Tx>, ins: seq<TxIn>)
    requires Spendable(ctx.utxos, ins)
    ensures InputSum(ctx, ins) == SpentValue(ctx.utxos, ins) == FeeInputSum(ctx.utxos, pool, ins)
  {
    if ins != [] {
      MapInputs(ctx, pool, ins[..|ins| - 1]);
    }
  }

  /** For a valid transaction that spends only what is in the map, the fee is exactly what its
      inputs are worth minus its outputs. */
  lemma FeeIsExact(rules: Rules, ctx: Context, pool: map<Id, Tx>, tx: Tx)
    requires TxValid(rules, ctx, tx) && forall p | p in InPoints(tx) :: p in ctx.utxos
    ensures OutSum(tx.outs) + Fee(ctx.utxos, pool, tx) == ValueAt(ctx.utxos, InPoints(tx))
  {
    TxParts(rules, ctx, tx);
    SpendableWhen(rules, ctx, tx);
    hide TxValid, ValueAt, InPoints, Spendable;
    MapInputs(ctx, pool, tx.ins);
    CountedAt(ctx.utxos, tx);
    FeeValue(ctx.utxos, pool, tx);
  }

  lemma SpendableWhen(rules: Rules, ctx: Context, tx: Tx)
    requires TxValid(rules, ctx, tx) && forall p | p in InPoints(tx) :: p in ctx.utxos
    ensures Spendable(ctx.utxos, tx.ins)
  {
    TxParts(rules, ctx, tx);
    assert InputsOk(rules, ctx, tx);
    hide TxValid, BasicsOk, DistinctInputs, LocksOk, Resolve;
    forall i | 0 <= i < |tx.ins|
      ensures tx.ins[i].toSpend.Some? && tx.ins[i].toSpend.value in ctx.utxos
    {
      assert InputOk(rules, ctx, tx, tx.ins[i]);
      assert tx.ins[i].toSpend.value in InPoints(tx);
    }
  }

  ghost predicate BlockValid(rules: Rules, chain: seq<Block>, utxos: UtxoMap, pool: map<Id, Tx>, b: Block) {
    Shape(rules, b) && ContextOk(rules, chain, utxos, pool, b)
  }

  lemma {:induction false} CountedIsPaid(rules: Rules, chain: seq<Block>, utxos: UtxoMap, pool: map<Id, Tx>,
                                         b: Block, k: nat)
    requires BlockValid(rules, chain, utxos, pool, b) && AllUnspent(utxos, b.txs) && 1 <= k <= |b.txs|
    ensures Counted(utxos, b.txs[..k]) + OutSum(b.txs[0].outs) == AllOutSum(b.txs[..k]) + FeeSum(utxos, pool, b.txs[1..][..k - 1])
    decreases k
  {
    hide BlockValid, AllUnspent, ValueAt, Fee;
    var txs := b.txs;
    if k == 1 {
      FirstPaid(rules, chain, utxos, pool, b);
    } else {
      CountedIsPaid(rules, chain, utxos, pool, b, k - 1);
      assert txs[..k][..k - 1] == txs[..k - 1] && txs[1..][..k - 1][..k - 2] == txs[1..][..k - 2];
      PaidAt(rules, chain, utxos, pool, b, k - 1);
    }
  }

  lemma FirstPaid(rules: Rules, chain: seq<Block>, utxos: UtxoMap, pool: map<Id, Tx>, b: Block)
    requires BlockValid(rules, chain, utxos, pool, b)
    ensures b.txs != []
    ensures Counted(utxos, b.txs[..1]) + OutSum(b.txs[0].outs) == AllOutSum(b.txs[..1]) + FeeSum(utxos, pool, b.txs[1..][..0])
  {
    hide ContextOk, BasicsOk;
    assert b.txs[..1][..0] == [] && InPoints(b.txs[0]) == {} && OnlyAt(utxos, {}) == map[];
    assert b.txs[1..][..0] == [];
  }

  lemma PaidAt(rules: Rules, chain: seq<Block>, utxos: UtxoMap, pool: map<Id, Tx>, b: Block, k: nat)
    requires BlockValid(rules, chain, utxos, pool, b) && AllUnspent(utxos, b.txs) && 1 <= k < |b.txs|
    ensures OutSum(b.txs[k].outs) + Fee(utxos, pool, b.txs[k]) == ValueAt(utxos, InPoints(b.txs[k]))
  {
    var txs := b.txs[1..];
    assert txs[k - 1] == b.txs[k];
    hide Shape, TxValid, ValueAt, Fee, RequiredBits, FeeSum;
    FeeIsExact(rules, BlockContext(chain, utxos, b), pool, txs[k - 1]);
  }

  /** The law of a valid block that spends what is in the map: the money grows by what the coinbase
      takes, shrinks by the fees, and grows by whatever is spent a second time. */
  lemma BlockLaw(rules: Rules, chain: seq<Block>, utxos: UtxoMap, pool: map<Id, Tx>, b: Block, height: int)
    requires FitsHeight(height) && BlockValid(rules, chain, utxos, pool, b)
    requires FreshFor(utxos, b.txs) && AllUnspent(utxos, b.txs)
    ensures b.txs != []
    ensures Total(ApplyTxs(utxos, b.txs, height)) + FeeSum(utxos, pool, b.txs[1..]) ==
            Total(utxos) + OutSum(b.txs[0].outs) + Repeated(utxos, b.txs)
  {
    hide *;
    SomeTxs(rules, chain, utxos, pool, b);
    TotalExactly(utxos, b.txs, height);
    CountedIs(utxos, b.txs, height);
    CountedIsPaid(rules, chain, utxos, pool, b, |b.txs|);
    assert b.txs[..|b.txs|] == b.txs && b.txs[1..][..|b.txs| - 1] == b.txs[1..];
  }

  lemma SomeTxs(rules: Rules, chain: seq<Block>, utxos: UtxoMap, pool: map<Id, Tx>, b: Block)
    requires BlockValid(rules, chain, utxos, pool, b)
    ensures b.txs != []
  {
    hide ContextOk;
  }

  /** A block whose coinbase claims in full adds at most the subsidy if and only if it spends no
      output of any value twice. */
  lemma ConservesIff(rules: Rules, chain: seq<Block>, utxos: UtxoMap, pool: map<Id, Tx>, b: Block, height: int)
    requires FitsHeight(height) && BlockValid(rules, chain, utxos, pool, b)
    requires FreshFor(utxos, b.txs) && AllUnspent(utxos, b.txs)
    requires b.txs != [] && OutSum(b.txs[0].outs) == Subsidy(|chain|) + FeeSum(utxos, pool, b.txs[1..])
    ensures Total(ApplyTxs(utxos, b.txs, height)) <= Total(utxos) + Subsidy(|chain|) <==> NothingTwice(utxos, b.txs)
  {
    hide *;
    BlockLaw(rules, chain, utxos, pool, b, height);
    RepeatedIffTwice(utxos, b.txs);
  }

  /** The same for every block of every validated chain. */
  lemma ValidatedConservesIff(setup: Setup, known: iset<Block>, chain: seq<Block>, i: nat)
    requires World(setup, known) && Validated(setup, known, chain) && |setup.base| <= i < |chain|
    ensures FitsHeight(|chain|) && chain[i].txs != []
    ensures var before := Fold(|setup.base|, chain[..i]);
            OutSum(chain[i].txs[0].outs) == Subsidy(i) + FeeSum(before, map[], chain[i].txs[1..]) ==>
              (Total(Fold(|setup.base|, chain[..i + 1])) <= Total(before) + Subsidy(i) <==> NothingTwice(before, chain[i].txs))
  {
    hide *;
    TameFacts(setup, known, chain, i);
    ValidatedBlock(setup, known, chain, i);
    var base, before, b := |setup.base|, Fold(|setup.base|, chain[..i]), chain[i];
    SomeTxs(setup.rules, chain[..i], before, map[], b);
    UniquePrefix(chain, i);
    forall p | p in before
      ensures p.txId !in IdsOf(b.txs)
    {
      FoldAgreesWithChain(base, chain[..i], p);
    }
    FreshWhen(before, b.txs);
    SpendsTheMap(setup, known, chain, i);
    NextFoldIs(base, chain, i);
    if OutSum(b.txs[0].outs) == Subsidy(i) + FeeSum(before, map[], b.txs[1..]) {
      ConservesIff(setup.rules, chain[..i], before, map[], b, i + 1);
    }
  }

  lemma FreshWhen(m: UtxoMap, txs: seq<Tx>)
    requires DistinctIds(txs) && forall p | p in m :: p.txId !in IdsOf(txs)
    ensures FreshFor(m, txs)
  {
  }

  lemma ValidatedBlock(setup: Setup, known: iset<Block>, chain: seq<Block>, i: nat)
    requires World(setup, known) && Validated(setup, known, chain) && |setup.base| <= i < |chain| && FitsHeight(i)
    ensures BlockValid(setup.rules, chain[..i], Fold(|setup.base|, chain[..i]), map[], chain[i])
    ensures DistinctIds(chain[i].txs)
  {
    hide World, Shape, ContextOk, Fold, TimeOk;
    assert ConnectsTo(setup, chain[..i], chain[i]);
    ShapeIds(setup.rules, chain[i]);
  }

  lemma SpendsTheMap(setup: Setup, known: iset<Block>, chain: seq<Block>, i: nat)
    requires World(setup, known) && Validated(setup, known, chain) && |setup.base| <= i < |chain| && FitsHeight(i)
    ensures AllUnspent(Fold(|setup.base|, chain[..i]), chain[i].txs)
  {
    hide *;
    NoOwnSpends(setup, known, chain, i);
    forall k, p | 0 <= k < |chain[i].txs| && p in InPoints(chain[i].txs[k])
      ensures p in Fold(|setup.base|, chain[..i])
    {
      AllMembers(chain[i].txs, p);
      TipInputs(setup.rules, chain[..i], Fold(|setup.base|, chain[..i]), chain[i], p);
    }
    AllUnspentWhen(Fold(|setup.base|, chain[..i]), chain[i].txs);
  }

  lemma AllUnspentWhen(m: UtxoMap, txs: seq<Tx>)
    requires forall k, p | 0 <= k < |txs| && p in InPoints(txs[k]) :: p in m
    ensures AllUnspent(m, txs)
  {
    hide InPoints;
  }

  lemma NoOwnSpends(setup: Setup, known: iset<Block>, chain: seq<Block>, i: nat)
    requires World(setup, known) && Validated(setup, known, chain) && |setup.base| <= i < |chain| && FitsHeight(i)
    ensures Shape(setup.rules, chain[i]) && NoSameBlockSpend(chain[i])
    ensures ContextOk(setup.rules, chain[..i], Fold(|setup.base|, chain[..i]), map[], chain[i])
  {
    assert Tame(setup, chain);
    hide World, Shape, ContextOk, Fold, TimeOk, NoSameBlockSpend, UniqueIds, Work;
    assert ConnectsTo(setup, chain[..i], chain[i]);
  }

  // ----- Blocks that pass validation and create money -----

  /** One final input, one output. */
  ghost predicate PlainSpend(rules: Rules, tx: Tx, p: OutPoint, value: nat) {
    && |tx.ins| == 1 && tx.ins[0].toSpend == Some(p) && tx.ins[0].sequence == SEQUENCE_FINAL && tx.lockTime == 0
    && |tx.outs| == 1 && tx.outs[0].value == value <= MAX_MONEY && rules.txSize(tx) <= MAX_BLOCK_SIZE
  }

  ghost predicate PlainCoinbase(rules: Rules, tx: Tx, value: nat) {
    tx.IsCoinbase() && |tx.outs| == 1 && tx.outs[0].value == value <= MAX_MONEY && rules.txSize(tx) <= MAX_BLOCK_SIZE
  }

  ghost predicate HeaderFits(setup: Setup, chain: seq<Block>, b: Block)
    requires b.txs != []
  {
    && RequiredBits(chain, b.prev) == Some(b.bits) && setup.rules.hashValue(b.id) < Difficulty.Target(b.bits)
    && b.merkle == Some(Merkle.Root(setup.rules.nodeHash, Merkle.TxIds(b.txs))) && TimeOk(chain, b)
  }

  lemma OneOut(outs: seq<TxOut>)
    requires |outs| == 1
    ensures OutSum(outs) == outs[0].value
  {
    assert outs[..0] == [];
  }

  /** A plain spend is valid once its input resolves to a mature output that is worth as much and
      that it may spend. */
  lemma PlainIsValid(rules: Rules, ctx: Context, tx: Tx, p: OutPoint, value: nat, u: Utxo)
    requires PlainSpend(rules, tx, p, value) && value <= u.out.value && Resolve(ctx, p) == Some(u)
    requires !(u.isCoinbase && |ctx.blocks| - u.height < COINBASE_MATURITY) && rules.sigOk(tx, tx.ins[0], u)
    ensures TxValid(rules, ctx, tx) && !tx.IsCoinbase()
  {
    OneOut(tx.outs);
    hide Resolve;
    assert BasicsOk(rules, tx, false);
    assert LocksOk(tx, ctx.utxos, Times(ctx.blocks)) by {
      assert AsUInt32(SEQUENCE_FINAL) == 0xFFFF_FFFF;
      assert !HasRelativeLockTime(tx.ins[0]);
    }
    assert InputsOk(rules, ctx, tx);
    assert tx.ins[..0] == [];
    assert InputSum(ctx, tx.ins) == u.out.value;
    hide BasicsOk, LocksOk, InputsOk;
  }

  lemma PlainFee(rules: Rules, utxos: UtxoMap, pool: map<Id, Tx>, tx: Tx, p: OutPoint, value: nat)
    requires PlainSpend(rules, tx, p, value)
    ensures var v := FeeInput(utxos, pool, tx.ins[0]);
            Fee(utxos, pool, tx) == if v < value then 0 else v - value
  {
    hide FeeInput;
    OneOut(tx.outs);
    FeeInputIsSmall(utxos, pool, tx.ins[0]);
    assert tx.ins[..0] == [] && FeeInputSum(utxos, pool, []) == 0;
    assert FeeInputSum(utxos, pool, tx.ins) == FeeInput(utxos, pool, tx.ins[0]);
    hide FeeInputSum, OutSum;
  }

  lemma PlainInput(rules: Rules, utxos: UtxoMap, pool: map<Id, Tx>, tx: Tx, p: OutPoint, value: nat)
    requires PlainSpend(rules, tx, p, value)
    ensures FeeInput(utxos, pool, tx.ins[0]) ==
            if p in utxos then utxos[p].out.value
            else if FindInPool(p, pool).Some? then FindInPool(p, pool).value.out.value else 0
  {
  }

  lemma NothingInNoPool(p: OutPoint)
    ensures FindInPool(p, map[]).None?
  {
  }

  lemma FeeInputIsSmall(utxos: UtxoMap, pool: map<Id, Tx>, txIn: TxIn)
    ensures FeeInput(utxos, pool, txIn) < TWO_64
  {
  }

  lemma {:induction false} ThreeShape(setup: Setup, chain: seq<Block>, b: Block, claim: nat)
    requires FitsHeight(|chain|) && |b.txs| == 3 && DistinctIds(b.txs) && HeaderFits(setup, chain, b)
    requires PlainCoinbase(setup.rules, b.txs[0], claim)
    requires var ctx := BlockContext(chain, Fold(|setup.base|, chain), b);
             TxValid(setup.rules, ctx, b.txs[1]) && TxValid(setup.rules, ctx, b.txs[2])
    requires !b.txs[1].IsCoinbase() && !b.txs[2].IsCoinbase()
    ensures Shape(setup.rules, b) && OutSum(b.txs[0].outs) == claim < TWO_64
  {
    hide Fold, TxValid, BasicsOk, OutSum, RequiredBits, TimeOk, DistinctIds, PlainCoinbase, BlockContext;
    CoinbaseBasics(setup.rules, b.txs[0], claim);
    BasicsFrom(setup.rules, BlockContext(chain, Fold(|setup.base|, chain), b), b.txs[1]);
    BasicsFrom(setup.rules, BlockContext(chain, Fold(|setup.base|, chain), b), b.txs[2]);
  }

  lemma CoinbaseBasics(rules: Rules, tx: Tx, claim: nat)
    requires PlainCoinbase(rules, tx, claim)
    ensures BasicsOk(rules, tx, true) && tx.IsCoinbase() && OutSum(tx.outs) == claim < TWO_64
  {
    OneOut(tx.outs);
  }

  lemma FeesOfTwo(utxos: UtxoMap, pool: map<Id, Tx>, txs: seq<Tx>)
    requires |txs| == 2
    ensures FeeSum(utxos, pool, txs) == Fee(utxos, pool, txs[0]) + Fee(utxos, pool, txs[1])
  {
    hide Fee;
    assert txs[..1][..0] == [];
    assert FeeSum(utxos, pool, []) == 0;
    assert FeeSum(utxos, pool, txs[..1]) == Fee(utxos, pool, txs[0]);
  }

  /** A block of a coinbase that claims just the subsidy and two plain spends passes validation if
      both spends do. */
  lemma {:induction false} ThreeConnect(setup: Setup, chain: seq<Block>, b: Block)
    requires FitsHeight(|chain| + 1) && |b.txs| == 3 && DistinctIds(b.txs) && HeaderFits(setup, chain, b)
    requires PlainCoinbase(setup.rules, b.txs[0], Subsidy(|chain|))
    requires !b.txs[1].IsCoinbase() && !b.txs[2].IsCoinbase() && FitsHeight(|chain|)
    requires var utxos := Fold(|setup.base|, chain);
             && TxValid(setup.rules, BlockContext(chain, utxos, b), b.txs[1])
             && TxValid(setup.rules, BlockContext(chain, utxos, b), b.txs[2])
             && Fee(utxos, map[], b.txs[1]) == 0 && Fee(utxos, map[], b.txs[2]) == 0
    ensures ConnectsTo(setup, chain, b)
  {
    hide TxValid, Fold, Fee, FeeSum, RequiredBits, OutSum, Shape, DistinctIds, PlainCoinbase, TimeOk, Subsidy, BlockContext;
    var utxos, rest := Fold(|setup.base|, chain), b.txs[1..];
    ThreeShape(setup, chain, b, Subsidy(|chain|));
    assert rest[0] == b.txs[1] && rest[1] == b.txs[2];
    FeesOfTwo(utxos, map[], rest);
    SubsidyIsSmall(|chain|);
    assert ContextOk(setup.rules, chain, utxos, map[], b);
  }

  lemma BasicsFrom(rules: Rules, ctx: Context, tx: Tx)
    requires TxValid(rules, ctx, tx)
    ensures BasicsOk(rules, tx, false)
  {
    hide BasicsOk;
  }

  lemma SumOfThree(txs: seq<Tx>)
    requires |txs| == 3
    ensures AllOutSum(txs) == OutSum(txs[0].outs) + OutSum(txs[1].outs) + OutSum(txs[2].outs)
  {
    hide OutSum;
    assert txs[..2][..1] == txs[..1] && txs[..1][..0] == [];
    assert AllOutSum([]) == 0;
    assert AllOutSum(txs[..1]) == OutSum(txs[0].outs);
    assert AllOutSum(txs[..2]) == AllOutSum(txs[..1]) + OutSum(txs[1].outs);
  }

  lemma RemovedByThree(m: UtxoMap, txs: seq<Tx>, height: int)
    requires FitsHeight(height) && |txs| == 3
    ensures Removed(m, txs, height) ==
            ValueAt(m, InPoints(txs[0])) + ValueAt(ApplyTxs(m, txs[..1], height), InPoints(txs[1])) +
            ValueAt(ApplyTxs(m, txs[..2], height), InPoints(txs[2]))
  {
    hide ValueAt, InPoints;
    assert txs[..2][..1] == txs[..1] && txs[..1][..0] == [];
    assert ApplyTxs(m, [], height) == m && Removed(m, [], height) == 0;
    hide ApplyTxs;
    assert Removed(m, txs[..1], height) == ValueAt(m, InPoints(txs[0]));
    assert Removed(m, txs[..2], height) == Removed(m, txs[..1], height) + ValueAt(ApplyTxs(m, txs[..1], height), InPoints(txs[1]));
  }

  lemma OnePoint(m: UtxoMap, p: OutPoint)
    ensures ValueAt(m, {p}) == if p in m then m[p].out.value else 0
  {
    if p in m {
      TotalWith(map[], p, m[p]);
      assert OnlyAt(m, {p}) == map[][p := m[p]];
    } else {
      assert OnlyAt(m, {p}) == map[];
    }
  }

  lemma PlainPoints(rules: Rules, tx: Tx, p: OutPoint, value: nat)
    requires PlainSpend(rules, tx, p, value)
    ensures InPoints(tx) == {p} && OutSum(tx.outs) == value
  {
    OneOut(tx.outs);
    assert tx.ins[0].toSpend.value in InPoints(tx);
  }

  lemma CoinbasePoints(rules: Rules, tx: Tx, value: nat, m: UtxoMap)
    requires PlainCoinbase(rules, tx, value)
    ensures InPoints(tx) == {} && OutSum(tx.outs) == value && ValueAt(m, {}) == 0
  {
    OneOut(tx.outs);
    assert OnlyAt(m, {}) == map[];
  }

  /** Two plain spends of one mature output: the block passes validation, and the value of the
      output is there twice. */
  lemma DoubleSpendCreatesMoney(setup: Setup, chain: seq<Block>, b: Block, p: OutPoint)
    requires FitsHeight(|chain| + 1) && |b.txs| == 3 && HeaderFits(setup, chain, b)
    requires FreshFor(Fold(|setup.base|, chain), b.txs) && |setup.base| <= |chain|
    requires p in Fold(|setup.base|, chain) && PlainCoinbase(setup.rules, b.txs[0], Subsidy(|chain|))
    requires var u := Fold(|setup.base|, chain)[p];
             && !(u.isCoinbase && |chain| - u.height < COINBASE_MATURITY)
             && PlainSpend(setup.rules, b.txs[1], p, u.out.value) && setup.rules.sigOk(b.txs[1], b.txs[1].ins[0], u)
             && PlainSpend(setup.rules, b.txs[2], p, u.out.value) && setup.rules.sigOk(b.txs[2], b.txs[2].ins[0], u)
    ensures ConnectsTo(setup, chain, b)
    ensures Total(Fold(|setup.base|, chain + [b])) ==
            Total(Fold(|setup.base|, chain)) + Subsidy(|chain|) + Fold(|setup.base|, chain)[p].out.value
  {
    hide *;
    SmallerFits(|chain|, |chain| + 1);
    var base, m, txs, h := |setup.base|, Fold(|setup.base|, chain), b.txs, |chain| + 1;
    var u := m[p];
    FreshIsDistinct(m, txs);
    var ctx := BlockContext(chain, m, b);
    ContextParts(chain, m, b);
    InMap(ctx, p);
    PlainIsValid(setup.rules, ctx, txs[1], p, u.out.value, u);
    PlainIsValid(setup.rules, ctx, txs[2], p, u.out.value, u);
    PlainFee(setup.rules, m, map[], txs[1], p, u.out.value);
    PlainFee(setup.rules, m, map[], txs[2], p, u.out.value);
    PlainInput(setup.rules, m, map[], txs[1], p, u.out.value);
    PlainInput(setup.rules, m, map[], txs[2], p, u.out.value);
    ThreeConnect(setup, chain, b);
    NextFold(base, chain, b);
    TotalExactly(m, txs, h);
    SumOfThree(txs);
    RemovedByThree(m, txs, h);
    CoinbasePoints(setup.rules, txs[0], Subsidy(|chain|), m);
    PlainPoints(setup.rules, txs[1], p, u.out.value);
    PlainPoints(setup.rules, txs[2], p, u.out.value);
    SpentBy(m, txs, h, p);
    OnePoint(ApplyTxs(m, txs[..1], h), p);
    OnePoint(ApplyTxs(m, txs[..2], h), p);
  }

  lemma FreshIsDistinct(m: UtxoMap, txs: seq<Tx>)
    requires FreshFor(m, txs)
    ensures DistinctIds(txs)
  {
  }

  lemma ContextParts(chain: seq<Block>, m: UtxoMap, b: Block)
    requires b.txs != []
    ensures var ctx := BlockContext(chain, m, b);
            ctx.utxos == m && ctx.siblings == b.txs[1..] && ctx.pool == map[] && ctx.blocks == chain
  {
  }

  lemma InMap(ctx: Context, p: OutPoint)
    requires p in ctx.utxos
    ensures Resolve(ctx, p) == Some(ctx.utxos[p])
  {
  }

  lemma NextFold(base: nat, chain: seq<Block>, b: Block)
    requires base <= |chain| && FitsHeight(|chain| + 1)
    ensures FitsHeight(|chain|)
    ensures Fold(base, chain + [b]) == ApplyTxs(Fold(base, chain), b.txs, |chain| + 1)
  {
    assert (chain + [b])[..|chain|] == chain;
  }

  /** The coinbase leaves p alone, the first spend takes it away. */
  lemma SpentBy(m: UtxoMap, txs: seq<Tx>, h: int, p: OutPoint)
    requires FitsHeight(h) && |txs| == 3 && FreshFor(m, txs) && p in m
    requires InPoints(txs[0]) == {} && InPoints(txs[1]) == {p}
    ensures p in ApplyTxs(m, txs[..1], h) && ApplyTxs(m, txs[..1], h)[p] == m[p]
    ensures p !in ApplyTxs(m, txs[..2], h)
  {
    FreshPrefix(m, txs, 1);
    FreshPrefix(m, txs, 2);
    UnspentSoFar(m, txs[..1], h, p);
    UnspentSoFar(m, txs[..2], h, p);
    assert txs[..2][..1] == txs[..1] && txs[..1][..0] == [];
  }

  /** A child in front of its parent: validation finds the parent among the siblings, but when the
      child's turn comes there is nothing to take away. Both outputs stay. */
  lemma ChildFirstCreatesMoney(setup: Setup, chain: seq<Block>, b: Block, p: OutPoint)
    requires FitsHeight(|chain| + 1) && |b.txs| == 3 && HeaderFits(setup, chain, b)
    requires FreshFor(Fold(|setup.base|, chain), b.txs) && |setup.base| <= |chain|
    requires p in Fold(|setup.base|, chain) && PlainCoinbase(setup.rules, b.txs[0], Subsidy(|chain|))
    requires var u, q := Fold(|setup.base|, chain)[p], OutPoint(b.txs[2].id, 0);
             && !(u.isCoinbase && |chain| - u.height < COINBASE_MATURITY)
             && PlainSpend(setup.rules, b.txs[2], p, u.out.value) && setup.rules.sigOk(b.txs[2], b.txs[2].ins[0], u)
             && PlainSpend(setup.rules, b.txs[1], q, u.out.value)
             && setup.rules.sigOk(b.txs[1], b.txs[1].ins[0], Utxo(b.txs[2].outs[0], q, false, -1))
    ensures ConnectsTo(setup, chain, b)
    ensures Total(Fold(|setup.base|, chain + [b])) ==
            Total(Fold(|setup.base|, chain)) + Subsidy(|chain|) + Fold(|setup.base|, chain)[p].out.value
  {
    hide *;
    SmallerFits(|chain|, |chain| + 1);
    var base, m, txs, h := |setup.base|, Fold(|setup.base|, chain), b.txs, |chain| + 1;
    var u, q := m[p], OutPoint(txs[2].id, 0);
    FreshIsDistinct(m, txs);
    var ctx := BlockContext(chain, m, b);
    ContextParts(chain, m, b);
    InMap(ctx, p);
    PlainIsValid(setup.rules, ctx, txs[2], p, u.out.value, u);
    PlainOut(setup.rules, txs[2], p, u.out.value);
    AmongSiblings(ctx, m, txs);
    PlainIsValid(setup.rules, ctx, txs[1], q, u.out.value, Utxo(txs[2].outs[0], q, false, -1));
    NothingInNoPool(q);
    PlainFee(setup.rules, m, map[], txs[1], q, u.out.value);
    PlainFee(setup.rules, m, map[], txs[2], p, u.out.value);
    PlainInput(setup.rules, m, map[], txs[1], q, u.out.value);
    PlainInput(setup.rules, m, map[], txs[2], p, u.out.value);
    ThreeConnect(setup, chain, b);
    NextFold(base, chain, b);
    CoinbasePoints(setup.rules, txs[0], Subsidy(|chain|), m);
    PlainPoints(setup.rules, txs[1], q, u.out.value);
    PlainPoints(setup.rules, txs[2], p, u.out.value);
    ChildFirstTotal(m, txs, h, p, q, Subsidy(|chain|), u.out.value);
  }

  lemma ChildFirstTotal(m: UtxoMap, txs: seq<Tx>, h: int, p: OutPoint, q: OutPoint, claim: nat, value: nat)
    requires FitsHeight(h) && |txs| == 3 && FreshFor(m, txs)
    requires p in m && m[p].out.value == value && q !in m && q.txId == txs[2].id
    requires InPoints(txs[0]) == {} && InPoints(txs[1]) == {q} && InPoints(txs[2]) == {p}
    requires OutSum(txs[0].outs) == claim && OutSum(txs[1].outs) == value && OutSum(txs[2].outs) == value
    requires ValueAt(m, {}) == 0
    ensures Total(ApplyTxs(m, txs, h)) == Total(m) + claim + value
  {
    hide *;
    TotalExactly(m, txs, h);
    SumOfThree(txs);
    RemovedByThree(m, txs, h);
    NotYetThere(m, txs, h, p, q);
    OnePoint(ApplyTxs(m, txs[..1], h), q);
    OnePoint(ApplyTxs(m, txs[..2], h), p);
  }

  lemma PlainOut(rules: Rules, tx: Tx, p: OutPoint, value: nat)
    requires PlainSpend(rules, tx, p, value)
    ensures |tx.outs| == 1 && tx.outs[0].value == value
  {
  }

  lemma AmongSiblings(ctx: Context, m: UtxoMap, txs: seq<Tx>)
    requires |txs| == 3 && FreshFor(m, txs) && |txs[2].outs| == 1
    requires ctx.utxos == m && ctx.siblings == txs[1..]
    ensures var q := OutPoint(txs[2].id, 0);
            q !in m && Resolve(ctx, q) == Some(Utxo(txs[2].outs[0], q, false, -1))
  {
    var q := OutPoint(txs[2].id, 0);
    assert txs[2].id in IdsOf(txs);
    assert txs[1..][0] == txs[1] && txs[1..][1..][0] == txs[2];
    assert FindInList(q, txs[1..][1..]) == Some(Utxo(txs[2].outs[0], q, false, -1));
  }

  lemma NotYetThere(m: UtxoMap, txs: seq<Tx>, h: int, p: OutPoint, q: OutPoint)
    requires FitsHeight(h) && |txs| == 3 && FreshFor(m, txs) && p in m && q !in m && q.txId == txs[2].id
    requires InPoints(txs[0]) == {} && InPoints(txs[1]) == {q}
    ensures q !in ApplyTxs(m, txs[..1], h)
    ensures p in ApplyTxs(m, txs[..2], h) && ApplyTxs(m, txs[..2], h)[p] == m[p]
  {
    FreshPrefix(m, txs, 2);
    UnspentSoFar(m, txs[..2], h, p);
    assert txs[..2][..1] == txs[..1] && txs[..1][..0] == [] && p != q;
    if q in ApplyTxs(m, txs[..1], h) {
      ApplyTxsEntries(m, txs[..1], h, q);
    }
  }
}
