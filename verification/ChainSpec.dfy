/** When a block may join the active chain, and what that entails: the specification the chain
    state machine is proved against. */
module ChainSpec {
  import opened Types
  import opened TxRules
  import opened MedianTime
  import opened Ledger
  import Difficulty
  import Merkle

  /** External functions and the initial chain: the genesis block, or nothing after a reset. */
  datatype Setup = Setup(rules: Rules, base: seq<Block>)

  // ----- Validity of a block -----

  function HalvedSubsidy(halvings: nat): UInt64 {
    if halvings == 0 then 50 * COIN else HalvedSubsidy(halvings - 1) / 2
  }

  function Subsidy(height: nat): UInt64 {
    var halvings := height / HALVE_SUBSIDY_AFTER;
    if halvings >= 64 then 0 else HalvedSubsidy(halvings)
  }

  /** The checks that look at the block alone. */
  ghost predicate Shape(rules: Rules, b: Block) {
    && b.txs != [] && DistinctIds(b.txs)
    && rules.hashValue(b.id) < Difficulty.Target(b.bits)
    && b.txs[0].IsCoinbase()
    && (forall i | 1 <= i < |b.txs| :: !b.txs[i].IsCoinbase())
    && (forall i | 0 <= i < |b.txs| :: BasicsOk(rules, b.txs[i], i == 0))
    && b.merkle == Some(Merkle.Root(rules.nodeHash, Merkle.TxIds(b.txs)))
  }

  ghost predicate TimeOk(chain: seq<Block>, b: Block) {
    b.timestamp > MedianTimePast(Times(chain))
  }

  /** The bits demanded of a block with this predecessor: the initial ones without a predecessor,
      else those of the block after the last one of the chain. */
  ghost function RequiredBits(chain: seq<Block>, prev: Option<Id>): Option<Byte> {
    if prev.None? || chain == [] then Some(INITIAL_DIFFICULTY_BITS)
    else
      var tip := chain[|chain| - 1];
      if |chain| % DIFFICULTY_PERIOD_IN_BLOCKS != 0 then Some(tip.bits)
      else Difficulty.Retarget(tip.bits, tip.timestamp - chain[|chain| - DIFFICULTY_PERIOD_IN_BLOCKS].timestamp)
  }

  /** The bits of the block behind a chain, in the times and bits of its blocks: those of the tip, except
      that the first block of a period moves them by up to two as the period before it, from its first
      block to its last, took long. Only a product that does not fit in 256 bits is left open. */
  ghost predicate BitsFollow(chain: seq<Block>, bits: Option<Byte>)
    requires chain != []
  {
    var n, tip := |chain|, chain[|chain| - 1];
    if n % DIFFICULTY_PERIOD_IN_BLOCKS != 0 then bits == Some(tip.bits)
    else
      var took, aim := tip.timestamp - chain[n - DIFFICULTY_PERIOD_IN_BLOCKS].timestamp, DIFFICULTY_PERIOD_IN_SECS;
      var move := if 2 * took < aim then 2 else if took < aim then 1 else if took < 2 * aim then 0
                  else if took < 4 * aim then -1 else -2;
      tip.bits >= 18 || Difficulty.Clamp(took) < Pow2(tip.bits + 1) ==>
        if tip.bits + move <= 255 then bits.Some? && bits.value == tip.bits + move else bits.None?
  }

  lemma RequiredBitsFollow(chain: seq<Block>, prev: Option<Id>)
    requires chain != [] && prev.Some?
    ensures BitsFollow(chain, RequiredBits(chain, prev))
  {
    hide Difficulty.Retarget, Difficulty.Clamp, Difficulty.Step, Difficulty.FollowsStep, Pow2;
    var n, tip := |chain|, chain[|chain| - 1];
    if n % DIFFICULTY_PERIOD_IN_BLOCKS == 0 {
      var took := tip.timestamp - chain[n - DIFFICULTY_PERIOD_IN_BLOCKS].timestamp;
      Difficulty.StepIs(took);
      if tip.bits >= 18 || Difficulty.Clamp(took) < Pow2(tip.bits + 1) {
        Difficulty.RetargetIsStep(tip.bits, took);
        Difficulty.FollowsParts(tip.bits, took);
      }
    }
  }

  /** A later last block never raises the bits demanded of the next one. */
  lemma LaterTipNeverRaises(chain: seq<Block>, later: Int64, prev: Option<Id>)
    requires chain != [] && prev.Some? && chain[|chain| - 1].bits >= 18
    requires later >= chain[|chain| - 1].timestamp && RequiredBits(chain, prev).Some?
    ensures var n := |chain| - 1;
            var slower := RequiredBits(chain[n := chain[n].(timestamp := later)], prev);
            slower.Some? && slower.value <= RequiredBits(chain, prev).value
  {
    var n := |chain| - 1;
    RequiredBitsFollow(chain, prev);
    RequiredBitsFollow(chain[n := chain[n].(timestamp := later)], prev);
    hide RequiredBits, Difficulty.Clamp;
  }

  ghost function FeeSum(utxos: UtxoMap, pool: map<Id, Tx>, txs: seq<Tx>): nat {
    if txs == [] then 0
    else FeeSum(utxos, pool, txs[..|txs| - 1]) + Fee(utxos, pool, txs[|txs| - 1])
  }

  ghost function BlockContext(chain: seq<Block>, utxos: UtxoMap, b: Block): Context
    requires b.txs != []
  {
    Context(utxos, b.txs[1..], map[], chain)
  }

  /** The checks against the chain the block is to extend. The sums are 64-bit sums. */
  ghost predicate ContextOk(rules: Rules, chain: seq<Block>, utxos: UtxoMap, pool: map<Id, Tx>, b: Block)
    requires b.txs != []
  {
    && RequiredBits(chain, b.prev) == Some(b.bits)
    && (forall i | 0 <= i < |b.txs[1..]| :: TxValid(rules, BlockContext(chain, utxos, b), b.txs[1..][i]))
    && OutSum(b.txs[0].outs) % TWO_64 <= (Subsidy(|chain|) + FeeSum(utxos, pool, b.txs[1..])) % TWO_64
  }

  /** The block may follow this chain: everything but the wall clock. */
  ghost predicate ConnectsTo(setup: Setup, chain: seq<Block>, b: Block) {
    && FitsHeight(|chain| + 1)
    && Shape(setup.rules, b) && TimeOk(chain, b)
    && ContextOk(setup.rules, chain, Fold(|setup.base|, chain), map[], b)
  }

  // ----- Chains -----

  ghost predicate Linked(chain: seq<Block>) {
    forall i | 1 <= i < |chain| :: chain[i].prev == Some(chain[i - 1].id)
  }

  ghost predicate Has(chain: seq<Block>, id: Id) {
    exists i :: 0 <= i < |chain| && chain[i].id == id
  }

  /** A linked chain of known, well-shaped blocks that starts with the initial chain. */
  ghost predicate IsChain(setup: Setup, known: iset<Block>, chain: seq<Block>) {
    && |setup.base| <= |chain| && chain[..|setup.base|] == setup.base
    && Linked(chain) && (chain != [] ==> chain[0].prev.None?)
    && (forall i | 0 <= i < |chain| :: chain[i] in known)
    && (forall i | |setup.base| <= i < |chain| :: Shape(setup.rules, chain[i]))
  }

  /** Total work as a mathematical integer. */
  ghost function Work(chain: seq<Block>): nat {
    if chain == [] then 0
    else Work(chain[..|chain| - 1]) + Difficulty.BlockWork(chain[|chain| - 1].bits)
  }

  /** The hypotheses on the blocks a node may ever see: ids identify blocks and transactions, only the
      first block has no predecessor, the initial chain is one coinbase at most, and along any chain
      coinbases have different ids, no transaction spends an output of its own block, and total work
      fits in 256 bits. */
  ghost predicate World(setup: Setup, known: iset<Block>) {
    && |setup.base| <= 1 && (forall b | b in setup.base :: OnlyCoinbase(b))
    && (forall a, b | a in known && b in known && a.id == b.id :: a == b)
    && (forall a, b | a in known && b in known && a.prev.None? && b.prev.None? :: a == b)
    && (forall a, b | a in known && b in known :: SameIdSameTx(a, b))
    && (forall chain | IsChain(setup, known, chain) :: Tame(setup, chain))
  }

  ghost predicate OnlyCoinbase(b: Block) {
    |b.txs| == 1 && b.txs[0].IsCoinbase()
  }

  ghost predicate SameIdSameTx(a: Block, b: Block) {
    forall i, j | 0 <= i < |a.txs| && 0 <= j < |b.txs| && a.txs[i].id == b.txs[j].id :: a.txs[i] == b.txs[j]
  }

  ghost predicate NewCoinbases(chain: seq<Block>) {
    forall i, j | 0 <= i < j < |chain| && chain[i].txs != [] && chain[j].txs != [] ::
      chain[i].txs[0].id != chain[j].txs[0].id
  }

  ghost predicate Tame(setup: Setup, chain: seq<Block>) {
    && NewCoinbases(chain) && |chain| < 0x8000_0000
    && (forall i | |setup.base| <= i < |chain| :: NoSameBlockSpend(chain[i]))
    && Work(chain) < TWO_256
  }

  /** A chain every block of which was validated on the ones before it. */
  ghost predicate Validated(setup: Setup, known: iset<Block>, chain: seq<Block>) {
    && IsChain(setup, known, chain)
    && forall i | |setup.base| <= i < |chain| :: ConnectsTo(setup, chain[..i], chain[i])
  }

  ghost predicate Follows(chain: seq<Block>, b: Block) {
    if chain == [] then b.prev.None? else b.prev == Some(chain[|chain| - 1].id)
  }

  lemma ExtendChain(setup: Setup, known: iset<Block>, chain: seq<Block>, b: Block)
    requires IsChain(setup, known, chain) && b in known && Shape(setup.rules, b) && Follows(chain, b)
    ensures IsChain(setup, known, chain + [b])
  {
    hide Shape;
    assert (chain + [b])[..|setup.base|] == setup.base;
  }

  lemma PrefixIsChain(setup: Setup, known: iset<Block>, chain: seq<Block>, n: nat)
    requires |setup.base| <= n <= |chain|
    ensures IsChain(setup, known, chain) ==> IsChain(setup, known, chain[..n])
    ensures Validated(setup, known, chain) ==> Validated(setup, known, chain[..n])
  {
    hide Shape, ConnectsTo;
    assert chain[..n][..|setup.base|] == chain[..|setup.base|];
    assert forall i | 0 <= i <= n :: chain[..n][..i] == chain[..i];
  }

  lemma ExtendValidated(setup: Setup, known: iset<Block>, chain: seq<Block>, b: Block)
    requires Validated(setup, known, chain) && b in known && Follows(chain, b) && ConnectsTo(setup, chain, b)
    ensures Validated(setup, known, chain + [b])
  {
    ExtendChain(setup, known, chain, b);
    hide Shape, ConnectsTo, IsChain;
    var next := chain + [b];
    assert forall i | 0 <= i <= |chain| :: next[..i] == chain[..i];
    assert next[..|chain|] == chain;
  }

  // ----- The mempool does not matter for a block that spends nothing of its own -----

  lemma FindInListKnown(p: OutPoint, txs: seq<Tx>)
    ensures FindInList(p, txs).Some? ==> p.txId in IdsOf(txs)
  {
    if txs != [] && txs[0].id != p.txId {
      FindInListKnown(p, txs[1..]);
      assert forall i | 1 <= i < |txs| :: txs[i] == txs[1..][i - 1];
      if p.txId in IdsOf(txs[1..]) {
        var i :| 0 <= i < |txs[1..]| && txs[1..][i].id == p.txId;
        assert txs[i + 1].id == p.txId;
      }
    }
  }

  /** Every input of the block is in the UTXO map. */
  ghost predicate AllUnspent(utxos: UtxoMap, txs: seq<Tx>) {
    forall i, p | 0 <= i < |txs| && p in InPoints(txs[i]) :: p in utxos
  }

  lemma InputsAreUnspent(rules: Rules, chain: seq<Block>, utxos: UtxoMap, b: Block, i: nat)
    requires b.txs != [] && i < |b.txs[1..]|
    requires NoSameBlockSpend(b)
    requires TxValid(rules, BlockContext(chain, utxos, b), b.txs[1..][i])
    ensures forall k | 0 <= k < |b.txs[1..][i].ins| ::
              b.txs[1..][i].ins[k].toSpend.Some? && b.txs[1..][i].ins[k].toSpend.value in utxos
  {
    hide BasicsOk, LocksOk;
    var tx := b.txs[1..][i];
    var ctx := BlockContext(chain, utxos, b);
    forall k | 0 <= k < |tx.ins|
      ensures tx.ins[k].toSpend.Some? && tx.ins[k].toSpend.value in utxos
    {
      assert InputOk(rules, ctx, tx, tx.ins[k]);
      var p := tx.ins[k].toSpend.value;
      FindInListKnown(p, b.txs[1..]);
      assert p in InPoints(b.txs[i + 1]);
      SiblingIds(b, p.txId);
    }
  }

  lemma SiblingIds(b: Block, id: Id)
    requires b.txs != []
    ensures id in IdsOf(b.txs[1..]) ==> id in IdsOf(b.txs)
  {
    if id in IdsOf(b.txs[1..]) {
      var i :| 0 <= i < |b.txs[1..]| && b.txs[1..][i].id == id;
      assert b.txs[i + 1].id == id;
    }
  }

  lemma {:induction false} FeeInputPool(utxos: UtxoMap, pool: map<Id, Tx>, ins: seq<TxIn>)
    requires forall k | 0 <= k < |ins| :: ins[k].toSpend.Some? ==> ins[k].toSpend.value in utxos
    ensures FeeInputSum(utxos, pool, ins) == FeeInputSum(utxos, map[], ins)
  {
    if ins != [] {
      FeeInputPool(utxos, pool, ins[..|ins| - 1]);
    }
  }

  lemma {:induction false} FeeSumPool(utxos: UtxoMap, pool: map<Id, Tx>, txs: seq<Tx>)
    requires forall i, k | 0 <= i < |txs| && 0 <= k < |txs[i].ins| ::
               txs[i].ins[k].toSpend.Some? ==> txs[i].ins[k].toSpend.value in utxos
    ensures FeeSum(utxos, pool, txs) == FeeSum(utxos, map[], txs)
  {
    if txs != [] {
      FeeSumPool(utxos, pool, txs[..|txs| - 1]);
      FeeInputPool(utxos, pool, txs[|txs| - 1].ins);
    }
  }

  lemma PoolIsIrrelevant(rules: Rules, chain: seq<Block>, utxos: UtxoMap, pool: map<Id, Tx>, b: Block)
    requires b.txs != [] && NoSameBlockSpend(b)
    ensures ContextOk(rules, chain, utxos, pool, b) <==> ContextOk(rules, chain, utxos, map[], b)
  {
    var txs := b.txs[1..];
    if forall i | 0 <= i < |txs| :: TxValid(rules, BlockContext(chain, utxos, b), txs[i]) {
      hide *;
      forall i, k | 0 <= i < |txs| && 0 <= k < |txs[i].ins|
        ensures txs[i].ins[k].toSpend.Some? ==> txs[i].ins[k].toSpend.value in utxos
      {
        InputsAreUnspent(rules, chain, utxos, b, i);
      }
      FeeSumPool(utxos, pool, txs);
    }
  }

  // ----- Transaction ids are unique along a validated chain -----

  lemma {:induction false} SpentInBlock(m: UtxoMap, txs: seq<Tx>, height: int, l: nat, p: OutPoint)
    requires FitsHeight(height) && l < |txs| && p in InPoints(txs[l])
    requires forall k | 0 <= k < |txs| :: p !in OutPoints(txs[k])
    ensures p !in ApplyTxs(m, txs, height)
  {
    hide InPoints, OutPoints;
    if l < |txs| - 1 {
      SpentInBlock(m, txs[..|txs| - 1], height, l, p);
    }
  }

  lemma NotOfThese(txs: seq<Tx>, p: OutPoint)
    requires p.txId !in IdsOf(txs)
    ensures forall k | 0 <= k < |txs| :: p !in OutPoints(txs[k])
  {
    assert forall k | 0 <= k < |txs| :: txs[k].id in IdsOf(txs);
  }

  lemma NotInBlock(m: UtxoMap, txs: seq<Tx>, height: int, p: OutPoint)
    requires FitsHeight(height) && p.txId !in IdsOf(txs) && p !in m
    ensures p !in ApplyTxs(m, txs, height)
  {
    hide ApplyTxs, OutPoints;
    NotOfThese(txs, p);
    if p in ApplyTxs(m, txs, height) {
      ApplyTxsEntries(m, txs, height, p);
    }
  }

  lemma {:induction false} IdsGrow(chain: seq<Block>, n: nat)
    requires n <= |chain|
    ensures ChainIds(chain[..n]) <= ChainIds(chain)
  {
    if n < |chain| {
      IdsGrow(chain[..|chain| - 1], n);
      assert chain[..|chain| - 1][..n] == chain[..n];
    } else {
      assert chain[..n] == chain;
    }
  }

  lemma FreshAt(chain: seq<Block>, i: nat)
    requires UniqueIds(chain) && i < |chain|
    ensures IdsOf(chain[i].txs) !! ChainIds(chain[..i]) && UniqueIds(chain[..i])
  {
    UniquePrefix(chain, i);
    assert FreshIds(chain[..i], chain[i]);
  }

  lemma NextFoldIs(base: nat, chain: seq<Block>, i: nat)
    requires base <= i < |chain| && FitsHeight(|chain|)
    ensures FitsHeight(i + 1)
    ensures Fold(base, chain[..i + 1]) == ApplyTxs(Fold(base, chain[..i]), chain[i].txs, i + 1)
  {
    assert chain[..i + 1][..i] == chain[..i];
  }

  /** An output that a block spends is not unspent at any later height. */
  lemma {:induction false} SpentForGood(base: nat, chain: seq<Block>, j: nat, l: nat, p: OutPoint, n: nat)
    requires FitsHeight(|chain|) && UniqueIds(chain) && base <= j < n <= |chain|
    requires l < |chain[j].txs| && p in InPoints(chain[j].txs[l]) && p in Fold(base, chain[..j])
    ensures p !in Fold(base, chain[..n])
    decreases n
  {
    hide *;
    SmallerHeights(n, |chain|);
    FreshAt(chain, j);
    FreshAt(chain, n - 1);
    FoldAgreesWithChain(base, chain[..j], p);
    IdsGrow(chain[..n - 1], j);
    assert chain[..n - 1][..j] == chain[..j];
    NextFoldIs(base, chain, n - 1);
    if j == n - 1 {
      NotOfThese(chain[j].txs, p);
      SpentInBlock(Fold(base, chain[..j]), chain[j].txs, n, l, p);
    } else {
      SpentForGood(base, chain, j, l, p, n - 1);
      NotInBlock(Fold(base, chain[..n - 1]), chain[n - 1].txs, n, p);
    }
  }

  lemma SmallerHeights(n: nat, m: nat)
    requires FitsHeight(m) && n <= m
    ensures forall i: nat | i <= n :: FitsHeight(i)
  {
  }

  /** Every transaction of a validated block but the coinbase has an input, and it is unspent. */
  lemma SomeInput(setup: Setup, chain: seq<Block>, b: Block, k: nat) returns (p: OutPoint)
    requires FitsHeight(|chain|) && ConnectsTo(setup, chain, b) && NoSameBlockSpend(b) && 0 < k < |b.txs|
    ensures b.txs[k].ins != [] && b.txs[k].ins[0].toSpend == Some(p)
    ensures p in InPoints(b.txs[k]) && p in Fold(|setup.base|, chain)
  {
    hide Shape, Fold, NoSameBlockSpend, BlockContext, TxValid, TimeOk, InPoints;
    var utxos := Fold(|setup.base|, chain);
    assert b.txs != [] by {
      ShapeParts(setup.rules, b);
    }
    AllValid(setup.rules, chain, utxos, b, k - 1);
    assert b.txs[1..][k - 1] == b.txs[k];
    InputsAreUnspent(setup.rules, chain, utxos, b, k - 1);
    HasInput(setup.rules, BlockContext(chain, utxos, b), b.txs[k]);
    p := b.txs[k].ins[0].toSpend.value;
    InputIsPoint(b.txs[k]);
  }

  lemma InputIsPoint(tx: Tx)
    requires tx.ins != [] && tx.ins[0].toSpend.Some?
    ensures tx.ins[0].toSpend.value in InPoints(tx)
  {
  }

  lemma HasInput(rules: Rules, ctx: Context, tx: Tx)
    requires TxValid(rules, ctx, tx)
    ensures tx.ins != []
  {
    hide LocksOk, InputsOk, InputSum, OutSum;
  }

  lemma ShapeParts(rules: Rules, b: Block)
    requires Shape(rules, b)
    ensures b.txs != [] && DistinctIds(b.txs) && b.txs[0].IsCoinbase()
    ensures forall i | 1 <= i < |b.txs| :: !b.txs[i].IsCoinbase()
  {
    hide BasicsOk, DistinctIds;
  }

  lemma KnownBlock(setup: Setup, known: iset<Block>, chain: seq<Block>, i: nat)
    requires World(setup, known) && Validated(setup, known, chain) && i < |chain|
    ensures chain[i] in known && FitsHeight(|chain|) && |setup.base| <= |chain| && |setup.base| <= 1 && NewCoinbases(chain)
    ensures i < |setup.base| ==> OnlyCoinbase(chain[i])
    ensures i >= |setup.base| ==> ConnectsTo(setup, chain[..i], chain[i]) && NoSameBlockSpend(chain[i])
    ensures i >= |setup.base| ==> Shape(setup.rules, chain[i])
  {
    assert Tame(setup, chain);
    hide ConnectsTo, NoSameBlockSpend, Shape, Work, NewCoinbases, Linked;
    if i < |setup.base| {
      assert chain[i] == chain[..|setup.base|][i];
    }
  }

  lemma KnownTxs(setup: Setup, known: iset<Block>, a: Block, i: nat, b: Block, j: nat)
    requires World(setup, known) && a in known && b in known
    requires i < |a.txs| && j < |b.txs| && a.txs[i].id == b.txs[j].id
    ensures a.txs[i] == b.txs[j]
  {
    hide IsChain, Tame;
    assert SameIdSameTx(a, b);
  }

  /** Only the first transaction of a block on the chain is a coinbase. */
  lemma CoinbasePlace(setup: Setup, known: iset<Block>, chain: seq<Block>, i: nat, k: nat)
    requires World(setup, known) && Validated(setup, known, chain) && i < |chain| && k < |chain[i].txs|
    ensures chain[i].txs[k].IsCoinbase() <==> k == 0
  {
    hide World, Validated;
    KnownBlock(setup, known, chain, i);
    hide Shape, ConnectsTo, NoSameBlockSpend, NewCoinbases;
    if i >= |setup.base| {
      ShapeParts(setup.rules, chain[i]);
    }
  }

  /** No block of a validated chain repeats a transaction of an earlier one: a coinbase by hypothesis,
      any other because its inputs are spent. */
  lemma NotRepeated(setup: Setup, known: iset<Block>, chain: seq<Block>, j: nat, l: nat, k: nat)
    requires World(setup, known) && Validated(setup, known, chain) && |chain| > |setup.base|
    requires var n := |chain| - 1; UniqueIds(chain[..n]) && j < n && l < |chain[j].txs| && k < |chain[n].txs|
    ensures chain[j].txs[l].id != chain[|chain| - 1].txs[k].id
  {
    hide *;
    var n, base := |chain| - 1, |setup.base|;
    if chain[j].txs[l].id == chain[n].txs[k].id {
      KnownBlock(setup, known, chain, n);
      KnownBlock(setup, known, chain, j);
      KnownTxs(setup, known, chain[j], l, chain[n], k);
      CoinbasePlace(setup, known, chain, j, l);
      CoinbasePlace(setup, known, chain, n, k);
      if k == 0 {
        CoinbasesDiffer(chain, j, n);
      } else {
        SmallerHeights(n, |chain|);
        if j < base {
          JustOne(chain[j], l);
        }
        var p := SomeInput(setup, chain[..n], chain[n], k);
        var q := SomeInput(setup, chain[..j], chain[j], l);
        assert chain[..n][..j] == chain[..j] && chain[..n][j] == chain[j] && chain[..n][..n] == chain[..n];
        SpentForGood(base, chain[..n], j, l, q, n);
      }
    }
  }

  lemma JustOne(b: Block, l: nat)
    requires OnlyCoinbase(b) && l < |b.txs|
    ensures l == 0
  {
  }

  lemma CoinbasesDiffer(chain: seq<Block>, i: nat, j: nat)
    requires NewCoinbases(chain) && i < j < |chain| && chain[i].txs != [] && chain[j].txs != []
    ensures chain[i].txs[0].id != chain[j].txs[0].id
  {
  }

  lemma FreshBlockWhen(chain: seq<Block>, b: Block)
    requires DistinctIds(b.txs) && forall j, l, k | 0 <= j < |chain| && 0 <= l < |chain[j].txs| && 0 <= k < |b.txs| ::
                                    chain[j].txs[l].id != b.txs[k].id
    ensures FreshIds(chain, b)
  {
    forall id | id in ChainIds(chain)
      ensures id !in IdsOf(b.txs)
    {
      var j, l := IdPlace(chain, id);
    }
  }

  lemma {:induction false} IdPlace(chain: seq<Block>, id: Id) returns (j: nat, l: nat)
    requires id in ChainIds(chain)
    ensures j < |chain| && l < |chain[j].txs| && chain[j].txs[l].id == id
  {
    var n := |chain| - 1;
    if id in IdsOf(chain[n].txs) {
      var i :| 0 <= i < |chain[n].txs| && chain[n].txs[i].id == id;
      j, l := n, i;
    } else {
      j, l := IdPlace(chain[..n], id);
    }
  }

  lemma UniqueNext(chain: seq<Block>)
    requires chain != [] && UniqueIds(chain[..|chain| - 1]) && FreshIds(chain[..|chain| - 1], chain[|chain| - 1])
    ensures UniqueIds(chain)
  {
    hide FreshIds;
    var n := |chain| - 1;
    forall i | 0 <= i < |chain|
      ensures FreshIds(chain[..i], chain[i])
    {
      if i < n {
        assert chain[..n][..i] == chain[..i] && chain[..n][i] == chain[i];
        assert FreshIds(chain[..n][..i], chain[..n][i]);
      }
    }
  }

  lemma InitialIsUnique(b: Block)
    requires OnlyCoinbase(b)
    ensures FreshIds([], b)
  {
  }

  lemma NothingIsUnique()
    ensures UniqueIds([])
  {
  }

  /** Along a validated chain every transaction id is unique: what validation accepts is new. */
  lemma {:induction false} ValidatedIsUnique(setup: Setup, known: iset<Block>, chain: seq<Block>)
    requires World(setup, known) && Validated(setup, known, chain)
    ensures UniqueIds(chain)
    decreases |chain|
  {
    hide *;
    if chain == [] {
      NothingIsUnique();
    } else {
      var n := |chain| - 1;
      KnownBlock(setup, known, chain, n);
      if n < |setup.base| {
        assert n == 0 && chain[..0] == [];
        NothingIsUnique();
        InitialIsUnique(chain[0]);
      } else {
        PrefixIsChain(setup, known, chain, n);
        ValidatedIsUnique(setup, known, chain[..n]);
        ShapeParts(setup.rules, chain[n]);
        forall j, l, k | 0 <= j < |chain[..n]| && 0 <= l < |chain[..n][j].txs| && 0 <= k < |chain[n].txs|
          ensures chain[..n][j].txs[l].id != chain[n].txs[k].id
        {
          assert chain[..n][j] == chain[j];
          NotRepeated(setup, known, chain, j, l, k);
        }
        FreshBlockWhen(chain[..n], chain[n]);
      }
      UniqueNext(chain);
    }
  }

  // ----- Undoing the tip -----

  lemma TipInputs(rules: Rules, chain: seq<Block>, utxos: UtxoMap, b: Block, p: OutPoint)
    requires Shape(rules, b) && ContextOk(rules, chain, utxos, map[], b) && NoSameBlockSpend(b)
    requires p in AllIns(b.txs)
    ensures p in utxos && p.txId !in IdsOf(b.txs)
  {
    hide *;
    AllMembers(b.txs, p);
    var i :| 0 <= i < |b.txs| && p in InPoints(b.txs[i]);
    NonCoinbaseInputs(rules, chain, utxos, b, i, p);
    InputsAreUnspent(rules, chain, utxos, b, i - 1);
    NotOwn(b, i, p);
    var k := InputAt(b.txs[i], p);
  }

  lemma NonCoinbaseInputs(rules: Rules, chain: seq<Block>, utxos: UtxoMap, b: Block, i: nat, p: OutPoint)
    requires Shape(rules, b) && ContextOk(rules, chain, utxos, map[], b)
    requires i < |b.txs| && p in InPoints(b.txs[i])
    ensures 0 < i && b.txs[1..][i - 1] == b.txs[i]
    ensures TxValid(rules, BlockContext(chain, utxos, b), b.txs[1..][i - 1])
  {
    CoinbaseSpendsNothing(rules, b, p);
    hide Shape, BasicsOk, TxValid, BlockContext, InPoints, Times;
    var txs := b.txs[1..];
    assert txs[i - 1] == b.txs[i];
    AllValid(rules, chain, utxos, b, i - 1);
  }

  lemma AllValid(rules: Rules, chain: seq<Block>, utxos: UtxoMap, b: Block, k: nat)
    requires b.txs != [] && ContextOk(rules, chain, utxos, map[], b) && k < |b.txs[1..]|
    ensures TxValid(rules, BlockContext(chain, utxos, b), b.txs[1..][k])
  {
    hide TxValid, BlockContext, Subsidy, FeeSum, OutSum, RequiredBits;
  }

  lemma CoinbaseSpendsNothing(rules: Rules, b: Block, p: OutPoint)
    requires Shape(rules, b)
    ensures p !in InPoints(b.txs[0])
  {
    hide BasicsOk, DistinctIds;
  }

  lemma NotOwn(b: Block, i: nat, p: OutPoint)
    requires NoSameBlockSpend(b) && i < |b.txs| && p in InPoints(b.txs[i])
    ensures p.txId !in IdsOf(b.txs)
  {
  }

  lemma InputAt(tx: Tx, p: OutPoint) returns (k: nat)
    requires p in InPoints(tx)
    ensures k < |tx.ins| && tx.ins[k].toSpend == Some(p)
  {
    k :| 0 <= k < |tx.ins| && tx.ins[k].toSpend == Some(p);
  }

  lemma NoForwardSpends(b: Block)
    requires NoSameBlockSpend(b)
    ensures NoEarlierParent(b.txs)
  {
    forall i, j | 0 <= i < j < |b.txs|
      ensures InPoints(b.txs[j]) !! OutPoints(b.txs[i])
    {
      assert b.txs[i].id in IdsOf(b.txs);
    }
  }

  /** Disconnecting the tip of a validated chain gives back the UTXO map from before it. */
  lemma TipUndo(setup: Setup, known: iset<Block>, chain: seq<Block>)
    requires World(setup, known) && Validated(setup, known, chain) && |setup.base| < |chain|
    ensures FitsHeight(|chain|)
    ensures forall p | p in AllIns(chain[|chain| - 1].txs) :: LookUp(chain, p).Some?
    ensures UndoTxs(Fold(|setup.base|, chain), chain[|chain| - 1].txs, chain) == Fold(|setup.base|, chain[..|chain| - 1])
  {
    hide *;
    var n, base := |chain| - 1, |setup.base|;
    KnownBlock(setup, known, chain, n);
    ValidatedIsUnique(setup, known, chain);
    SmallerHeights(n, |chain|);
    var m := Fold(base, chain[..n]);
    ContextOfTip(setup, chain[..n], chain[n]);
    forall p | p in AllIns(chain[n].txs)
      ensures p in m && LookUp(chain, p).Some?
    {
      TipInputs(setup.rules, chain[..n], m, chain[n], p);
      LookUpUnspent(base, chain, p);
    }
    NoForwardSpends(chain[n]);
    ResolvableWhen(m, chain[n].txs);
    UndoRestores(base, chain);
  }

  lemma ResolvableWhen(m: UtxoMap, txs: seq<Tx>)
    requires forall p | p in AllIns(txs) :: p in m
    ensures Resolvable(m, txs)
  {
    hide AllIns;
  }

  lemma ContextOfTip(setup: Setup, chain: seq<Block>, b: Block)
    requires FitsHeight(|chain|) && ConnectsTo(setup, chain, b)
    ensures Shape(setup.rules, b) && b.txs != [] && ContextOk(setup.rules, chain, Fold(|setup.base|, chain), map[], b)
  {
    hide Fold, ContextOk, TimeOk, BasicsOk, DistinctIds;
  }

  // ----- The block index -----

  ghost function IndexOf(chain: seq<Block>): map<Id, nat> {
    if chain == [] then map[] else IndexOf(chain[..|chain| - 1])[chain[|chain| - 1].id := |chain| - 1]
  }

  ghost predicate DistinctBlocks(chain: seq<Block>) {
    forall i, j | 0 <= i < j < |chain| :: chain[i].id != chain[j].id
  }

  lemma {:induction false} IndexFinds(chain: seq<Block>, id: Id)
    requires DistinctBlocks(chain)
    ensures id in IndexOf(chain) <==> Has(chain, id)
    ensures id in IndexOf(chain) ==> IndexOf(chain)[id] < |chain| && chain[IndexOf(chain)[id]].id == id
  {
    if chain != [] {
      var n := |chain| - 1;
      IndexFinds(chain[..n], id);
      assert forall i | 0 <= i < n :: chain[..n][i] == chain[i];
      if Has(chain[..n], id) {
        var i :| 0 <= i < n && chain[..n][i].id == id;
        assert chain[i].id == id;
      }
      if id == chain[n].id {
        assert Has(chain, id);
      }
    }
  }

  lemma IndexUndo(chain: seq<Block>)
    requires chain != [] && DistinctBlocks(chain)
    ensures IndexOf(chain) - {chain[|chain| - 1].id} == IndexOf(chain[..|chain| - 1])
    ensures DistinctBlocks(chain[..|chain| - 1])
  {
    var n := |chain| - 1;
    assert forall i | 0 <= i < n :: chain[..n][i] == chain[i];
    IndexFinds(chain[..n], chain[n].id);
  }

  // ----- Work -----

  lemma OneMoreBlock(chain: seq<Block>, b: Block)
    ensures Work(chain + [b]) > Work(chain)
  {
    assert (chain + [b])[..|chain|] == chain;
  }
}
