/** The checks of block validation as the node runs them, loop by loop. */
module Validation {
  import opened Types
  import opened TxRules
  import opened Ledger
  import opened ChainSpec
  import Difficulty
  import Merkle

  method HasDuplicateIds(txs: seq<Tx>) returns (found: bool)
    ensures found <==> !DistinctIds(txs)
  {
    var seen: set<Id> := {};
    for i := 0 to |txs|
      invariant forall id :: id in seen <==> exists j :: 0 <= j < i && txs[j].id == id
      invariant DistinctIds(txs[..i])
    {
      if txs[i].id in seen {
        var j :| 0 <= j < i && txs[j].id == txs[i].id;
        return true;
      }
      seen := seen + {txs[i].id};
    }
    assert txs[..|txs|] == txs;
    found := false;
  }

  method CheckBasics(rules: Rules, txs: seq<Tx>) returns (ok: bool)
    ensures ok <==> forall i | 0 <= i < |txs| :: BasicsOk(rules, txs[i], i == 0)
  {
    hide BasicsOk;
    for i := 0 to |txs|
      invariant forall j | 0 <= j < i :: BasicsOk(rules, txs[j], j == 0)
    {
      var basicsOk := ValidateBasics(rules, txs[i], i == 0);
      if !basicsOk {
        return false;
      }
    }
    ok := true;
  }

  /** A wall-clock check stands between these two groups in the node; none changes anything. */
  method CheckShape(rules: Rules, b: Block) returns (ok: bool)
    ensures ok <==> Shape(rules, b)
  {
    hide BasicsOk;
    if b.txs == [] {
      return false;
    }
    var duplicate := HasDuplicateIds(b.txs);
    if duplicate {
      return false;
    }
    var target := Difficulty.ShiftLeftOne(255 - b.bits);
    if rules.hashValue(b.id) >= target {
      return false;
    }
    if !b.txs[0].IsCoinbase() {
      return false;
    }
    for i := 1 to |b.txs|
      invariant forall j | 1 <= j < i :: !b.txs[j].IsCoinbase()
    {
      if b.txs[i].IsCoinbase() {
        return false;
      }
    }
    ok := CheckBasics(rules, b.txs);
    if !ok {
      return;
    }
    var root := Merkle.GetRootOfTxs(rules.nodeHash, b.txs);
    ok := Some(root.value.value) == b.merkle;
  }

  /** get_next_work_required for a block without a predecessor or behind the tip. */
  method GetNextWorkRequired(chain: seq<Block>, prev: Option<Id>) returns (bits: Option<Byte>)
    ensures bits == RequiredBits(chain, prev)
    ensures prev.None? || chain == [] ==> bits == Some(INITIAL_DIFFICULTY_BITS)
    ensures prev.Some? && chain != [] ==> BitsFollow(chain, bits)
  {
    hide BitsFollow, Difficulty.Retarget, Difficulty.Clamp, Pow2;
    if prev.Some? && chain != [] {
      RequiredBitsFollow(chain, prev);
    }
    if prev.None? || chain == [] {
      return Some(INITIAL_DIFFICULTY_BITS);
    }
    var tipHeight := |chain| - 1;
    var tip := chain[tipHeight];
    if (tipHeight + 1) % DIFFICULTY_PERIOD_IN_BLOCKS != 0 {
      return Some(tip.bits);
    }
    var first := tipHeight - (DIFFICULTY_PERIOD_IN_BLOCKS - 1);
    var periodStart := chain[if first > 0 then first else 0];
    bits := Difficulty.NextBits(tip.bits, tip.timestamp - periodStart.timestamp);
  }

  /** Lock times, inputs and signatures of every non-coinbase transaction, with the fees added up
      in 64 bits on the way. */
  method CheckTransactions(rules: Rules, chain: seq<Block>, utxos: UtxoMap, pool: map<Id, Tx>, b: Block)
    returns (ok: bool, totalFees: UInt64)
    requires b.txs != []
    ensures ok <==> forall i | 0 <= i < |b.txs[1..]| :: TxValid(rules, BlockContext(chain, utxos, b), b.txs[1..][i])
    ensures ok ==> totalFees == FeeSum(utxos, pool, b.txs[1..]) % TWO_64
  {
    hide TxValid, Lawful, Fee;
    var siblings := b.txs[1..];
    totalFees := 0;
    assert siblings[..0] == [];
    for i := 0 to |siblings|
      invariant forall j | 0 <= j < i :: TxValid(rules, BlockContext(chain, utxos, b), siblings[j])
      invariant totalFees == FeeSum(utxos, pool, siblings[..i]) % TWO_64
    {
      ok := Validate(rules, Context(utxos, siblings, map[], chain), siblings[i]);
      if !ok {
        return;
      }
      var fee := CalculateFees(utxos, pool, siblings[i]);
      assert siblings[..i + 1][..i] == siblings[..i];
      WrapAdd(FeeSum(utxos, pool, siblings[..i]), fee);
      totalFees := (totalFees + fee) % TWO_64;
    }
    assert siblings[..|siblings|] == siblings;
    ok := true;
  }

  method CheckContext(rules: Rules, chain: seq<Block>, utxos: UtxoMap, pool: map<Id, Tx>, b: Block) returns (ok: bool)
    requires b.txs != []
    ensures ok <==> ContextOk(rules, chain, utxos, pool, b)
  {
    hide TxValid, FeeSum, OutSum, RequiredBits;
    var bits := GetNextWorkRequired(chain, b.prev);
    if bits != Some(b.bits) {
      return false;
    }
    var totalFees;
    ok, totalFees := CheckTransactions(rules, chain, utxos, pool, b);
    if !ok {
      return;
    }
    var maxCoinbaseValue: UInt64 := (Subsidy(|chain|) + totalFees) % TWO_64;
    WrapAdd(FeeSum(utxos, pool, b.txs[1..]), Subsidy(|chain|));
    var coinbaseValue := SumSent(b.txs[0].outs);
    ok := coinbaseValue <= maxCoinbaseValue;
  }
}
