/** What every block of a validated chain is known to be, in the terms of its header and transactions:
    proof of work, difficulty, time, well-formed transactions, and the subsidy at its height. */
module BlockLaws {
  import opened Types
  import opened TxRules
  import opened MedianTime
  import opened Ledger
  import opened ChainSpec
  import opened Arithmetic
  import Difficulty
  import Merkle

  lemma JoinedAt(setup: Setup, known: iset<Block>, chain: seq<Block>, i: nat)
    requires Validated(setup, known, chain) && |setup.base| <= i < |chain|
    ensures ConnectsTo(setup, chain[..i], chain[i]) && FitsHeight(i)
    ensures Shape(setup.rules, chain[i]) && TimeOk(chain[..i], chain[i])
    ensures i > 0 ==> chain[i].prev == Some(chain[i - 1].id)
  {
    assert ConnectsTo(setup, chain[..i], chain[i]);
    hide Shape, ContextOk, TimeOk, Fold;
  }

  // ----- Proof of work -----

  lemma ShapeHasWork(rules: Rules, b: Block)
    requires Shape(rules, b)
    ensures rules.hashValue(b.id) < Pow2(255 - b.bits)
  {
    hide BasicsOk, DistinctIds, Pow2;
  }

  /** Every block behind the initial chain has its proof of work. */
  lemma EveryBlockHasWork(setup: Setup, known: iset<Block>, chain: seq<Block>, i: nat)
    requires Validated(setup, known, chain) && |setup.base| <= i < |chain|
    ensures setup.rules.hashValue(chain[i].id) < Pow2(255 - chain[i].bits)
  {
    hide *;
    JoinedAt(setup, known, chain, i);
    ShapeHasWork(setup.rules, chain[i]);
  }

  // ----- Difficulty -----

  lemma BitsAtJoin(setup: Setup, before: seq<Block>, b: Block)
    requires FitsHeight(|before|) && ConnectsTo(setup, before, b)
    ensures RequiredBits(before, b.prev) == Some(b.bits)
  {
    hide Shape, TimeOk, Fold, RequiredBits, TxValid, FeeSum, OutSum, Subsidy;
  }

  lemma FirstBits(prev: Option<Id>)
    ensures RequiredBits([], prev) == Some(INITIAL_DIFFICULTY_BITS)
  {
  }

  /** The schedule of the difficulty: the initial bits first, the tip's within a period, and from one
      period to the next what its times demand. */
  lemma BitsAreScheduled(setup: Setup, known: iset<Block>, chain: seq<Block>, i: nat)
    requires Validated(setup, known, chain) && |setup.base| <= i < |chain|
    ensures if i == 0 then chain[i].bits == INITIAL_DIFFICULTY_BITS else BitsFollow(chain[..i], Some(chain[i].bits))
  {
    hide *;
    JoinedAt(setup, known, chain, i);
    BitsAtJoin(setup, chain[..i], chain[i]);
    if i == 0 {
      assert chain[..0] == [];
      FirstBits(chain[0].prev);
    } else {
      RequiredBitsFollow(chain[..i], chain[i].prev);
    }
  }

  lemma SameWithin(chain: seq<Block>, bits: Byte)
    requires chain != [] && BitsFollow(chain, Some(bits)) && |chain| % DIFFICULTY_PERIOD_IN_BLOCKS != 0
    ensures bits == chain[|chain| - 1].bits
  {
  }

  /** All blocks of one period have the same bits. */
  lemma {:induction false} PeriodHasOneDifficulty(setup: Setup, known: iset<Block>, chain: seq<Block>, i: nat, j: nat)
    requires Validated(setup, known, chain) && |setup.base| <= i + 1 && i <= j < |chain|
    requires i / DIFFICULTY_PERIOD_IN_BLOCKS == j / DIFFICULTY_PERIOD_IN_BLOCKS
    ensures chain[i].bits == chain[j].bits
    decreases j
  {
    hide Validated, BitsFollow;
    if i < j {
      BitsAreScheduled(setup, known, chain, j);
      SameWithin(chain[..j], chain[j].bits);
      PeriodHasOneDifficulty(setup, known, chain, i, j - 1);
    }
  }

  // ----- Time -----

  lemma TimeOkIff(chain: seq<Block>, b: Block)
    ensures TimeOk(chain, b) <==>
              if |chain| < 11 then b.timestamp > 0 else !TimeReached(Times(chain), b.timestamp)
  {
    TimeReachedIff(Times(chain), b.timestamp);
    hide TimeReached;
  }

  lemma ReachedBefore(chain: seq<Block>, i: nat, t: int)
    requires 11 <= i <= |chain|
    ensures TimeReached(Times(chain[..i]), t) <==> AtLeast(Times(chain[i - 11..i]), t) >= 6
  {
    hide AtLeast;
    assert Times(chain[..i])[i - 11..] == Times(chain[i - 11..i]);
  }

  /** Every block is later than the middle one of the eleven before it: at most five of them have reached
      its time. */
  lemma TimesGoOn(setup: Setup, known: iset<Block>, chain: seq<Block>, i: nat)
    requires Validated(setup, known, chain) && |setup.base| <= i < |chain|
    ensures if i < 11 then chain[i].timestamp > 0 else AtLeast(Times(chain[i - 11..i]), chain[i].timestamp) <= 5
  {
    hide *;
    JoinedAt(setup, known, chain, i);
    TimeOkIff(chain[..i], chain[i]);
    if i >= 11 {
      ReachedBefore(chain, i, chain[i].timestamp);
    }
  }

  // ----- Transactions -----

  /** A coinbase first, then transactions with inputs, all with outputs, within the size and money
      limits, no two inputs of one spending the same output, and no two with the same id. */
  ghost predicate WellFormed(rules: Rules, txs: seq<Tx>) {
    && txs != []
    && (forall i, j | 0 <= i < j < |txs| :: txs[i].id != txs[j].id)
    && (|txs[0].ins| == 1 && txs[0].ins[0].toSpend.None?)
    && (forall i | 0 <= i < |txs| :: txs[i].outs != [] && rules.txSize(txs[i]) <= MAX_BLOCK_SIZE && OutSum(txs[i].outs) <= MAX_MONEY)
    && (forall i | 1 <= i < |txs| :: txs[i].ins != [] && !(|txs[i].ins| == 1 && txs[i].ins[0].toSpend.None?))
    && (forall i, j, k | 1 <= i < |txs| && 0 <= j < k < |txs[i].ins| && txs[i].ins[j].toSpend.Some? ::
          txs[i].ins[j].toSpend != txs[i].ins[k].toSpend)
  }

  lemma CoinbaseBasicsIff(rules: Rules, tx: Tx)
    ensures BasicsOk(rules, tx, true) <==>
              tx.outs != [] && rules.txSize(tx) <= MAX_BLOCK_SIZE && OutSum(tx.outs) <= MAX_MONEY
  {
    if OutSum(tx.outs) <= MAX_MONEY {
      OutputsAreWithin(tx.outs, MAX_MONEY);
    }
    hide OutSum;
  }

  ghost predicate AllBasic(rules: Rules, txs: seq<Tx>) {
    forall i | 0 <= i < |txs| :: BasicsOk(rules, txs[i], i == 0)
  }

  lemma AllBasicIff(rules: Rules, txs: seq<Tx>)
    ensures AllBasic(rules, txs) <==>
              && (forall i | 0 <= i < |txs| ::
                    txs[i].outs != [] && rules.txSize(txs[i]) <= MAX_BLOCK_SIZE && OutSum(txs[i].outs) <= MAX_MONEY)
              && (forall i | 1 <= i < |txs| :: txs[i].ins != [] && DistinctInputs(txs[i].ins))
  {
    hide BasicsOk, OutSum, DistinctInputs;
    forall i | 0 <= i < |txs|
      ensures BasicsOk(rules, txs[i], i == 0) <==>
                && txs[i].outs != [] && rules.txSize(txs[i]) <= MAX_BLOCK_SIZE && OutSum(txs[i].outs) <= MAX_MONEY
                && (i > 0 ==> txs[i].ins != [] && DistinctInputs(txs[i].ins))
    {
      if i == 0 {
        CoinbaseBasicsIff(rules, txs[i]);
      } else {
        BasicsIff(rules, txs[i]);
      }
    }
  }

  /** The checks that look at a block alone ask for proof of work, well-formed transactions and a Merkle
      root of their ids, and nothing else. */
  lemma ShapeIff(rules: Rules, b: Block)
    ensures Shape(rules, b) <==>
              && rules.hashValue(b.id) < Pow2(255 - b.bits) && WellFormed(rules, b.txs)
              && b.merkle == Some(Merkle.Root(rules.nodeHash, Merkle.TxIds(b.txs)))
  {
    hide BasicsOk, OutSum, Pow2, Merkle.Root;
    AllBasicIff(rules, b.txs);
  }

  lemma EveryBlockIsWellFormed(setup: Setup, known: iset<Block>, chain: seq<Block>, i: nat)
    requires Validated(setup, known, chain) && |setup.base| <= i < |chain|
    ensures WellFormed(setup.rules, chain[i].txs)
  {
    hide *;
    JoinedAt(setup, known, chain, i);
    ShapeIff(setup.rules, chain[i]);
  }

  // ----- Subsidy -----

  lemma {:induction false} HalvedIs(k: nat)
    ensures HalvedSubsidy(k) == 50 * COIN / Pow2(k)
  {
    if k > 0 {
      HalvedIs(k - 1);
      HalveAgain(50 * COIN, Pow2(k - 1));
    }
  }

  lemma HalveAgain(n: nat, d: nat)
    requires d > 0
    ensures n / d / 2 == n / (2 * d)
  {
    var q := n / d;
    assert d * q <= n < d * q + d;
    TwoSteps(n, d, q, q / 2);
    QuotientIs(n, 2 * d, q / 2);
  }

  lemma TwoSteps(n: nat, d: nat, q: nat, h: nat)
    requires d * q <= n < d * q + d && 2 * h <= q <= 2 * h + 1
    ensures (2 * d) * h <= n < (2 * d) * h + 2 * d
  {
    if q == 2 * h {
      assert d * q == (2 * d) * h;
    } else {
      assert d * (2 * h + 1) == (2 * d) * h + d;
    }
  }

  /** The subsidy in the era of k halvings is 50 coins over 2^k, rounded down once. */
  lemma SubsidyIs(height: nat)
    ensures Subsidy(height) == 50 * COIN / Pow2(height / HALVE_SUBSIDY_AFTER)
  {
    var k := height / HALVE_SUBSIDY_AFTER;
    HalvedIs(k);
    hide HalvedSubsidy;
    if k >= 64 {
      Pow2Add(64, k - 64);
      Pow2Of64();
      hide Pow2;
      Scale(Pow2(64), 1, Pow2(k - 64));
      QuotientIs(50 * COIN, Pow2(k), 0);
    }
  }

  lemma Pow2Of64()
    ensures Pow2(64) == TWO_64
  {
    assert Pow2(2) == 4;
    hide Pow2;
    Difficulty.Square(2, 4);
    Difficulty.Square(4, 16);
    Difficulty.Square(8, 256);
    Difficulty.Square(16, 65536);
    Difficulty.Square(32, 0x1_0000_0000);
  }
}
