/** The miner's wallet: the coins it finds in its own UTXO map, and why a transaction built from them
    passes validation. */
module Wallet {
  import opened Types
  import opened MedianTime
  import opened TxRules
  import opened Ledger
  import opened CoinSelection
  import opened Supply

  /** Entries are stored under their own outpoint, as those of a validated chain are. */
  ghost predicate Keyed(utxos: UtxoMap) {
    forall p | p in utxos :: utxos[p].point == p
  }

  lemma FoldIsKeyed(base: nat, chain: seq<Block>)
    requires FitsHeight(|chain|) && UniqueIds(chain)
    ensures Keyed(Fold(base, chain))
  {
    hide Fold, UniqueIds;
    forall p | p in Fold(base, chain)
      ensures Fold(base, chain)[p].point == p
    {
      FoldAgreesWithChain(base, chain, p);
    }
  }

  // ----- Finding coins -----

  ghost predicate DistinctPoints(coins: seq<Utxo>) {
    forall i, j | 0 <= i < j < |coins| :: coins[i].point != coins[j].point
  }

  /** The coin belongs to the address and may be spent by the next block. */
  predicate Usable(u: Utxo, address: seq<Byte>, height: int) {
    u.out.toAddress == address && (u.isCoinbase ==> height - u.height >= COINBASE_MATURITY)
  }

  /** find_utxos_for_address_miner, in whatever order the map is iterated. */
  method FindCoins(utxos: UtxoMap, address: seq<Byte>, height: int) returns (coins: seq<Utxo>)
    requires Keyed(utxos)
    ensures forall c | c in coins :: c.point in utxos && utxos[c.point] == c && Usable(c, address, height)
    ensures forall p | p in utxos && Usable(utxos[p], address, height) :: utxos[p] in coins
    ensures DistinctPoints(coins) && Value(coins) <= Total(utxos)
  {
    hide Value, Total, Usable;
    coins := [];
    var left := utxos;
    ValueOfNone();
    while left != map[]
      invariant forall p | p in left :: p in utxos && left[p] == utxos[p]
      invariant forall c | c in coins :: c.point in utxos && c.point !in left && utxos[c.point] == c && Usable(c, address, height)
      invariant forall p | p in utxos && p !in left && Usable(utxos[p], address, height) :: utxos[p] in coins
      invariant DistinctPoints(coins) && Value(coins) + Total(left) <= Total(utxos)
      decreases |left|
    {
      var p :| p in left;
      Smaller(left, p);
      TotalWithout(left, p);
      var u := left[p];
      left := left - {p};
      if Usable(u, address, height) {
        ValueOfOneMore(coins, u);
        coins := coins + [u];
      }
    }
  }

  lemma ValueOfNone()
    ensures Value([]) == 0
  {
  }

  lemma ValueOfOneMore(coins: seq<Utxo>, u: Utxo)
    ensures Value(coins + [u]) == Value(coins) + u.out.value
  {
    assert (coins + [u])[..|coins|] == coins;
  }

  // ----- Choosing from distinct coins -----

  lemma {:induction false} TwiceIsTwo(s: seq<Utxo>, i: nat, j: nat)
    requires i < j < |s| && s[i] == s[j]
    ensures multiset(s)[s[i]] >= 2
  {
    assert s == s[..j] + s[j..];
    assert s[i] in s[..j] && s[j] in s[j..];
  }

  lemma {:induction false} OnceIsOne(s: seq<Utxo>, c: Utxo)
    requires forall i, j | 0 <= i < j < |s| :: s[i] != s[j]
    ensures multiset(s)[c] <= 1
  {
    if s != [] {
      var n := |s| - 1;
      OnceIsOne(s[..n], c);
      assert s == s[..n] + [s[n]];
      if c == s[n] {
        assert c !in s[..n];
      }
    }
  }

  lemma ChoiceIsDistinct(sub: seq<Utxo>, coins: seq<Utxo>)
    requires SubsetOf(sub, coins) && DistinctPoints(coins)
    ensures DistinctPoints(sub) && forall c | c in sub :: c in coins
  {
    forall c | c in sub
      ensures c in coins
    {
      assert c in multiset(sub);
    }
    forall i, j | 0 <= i < j < |sub|
      ensures sub[i].point != sub[j].point
    {
      assert sub[i] in coins && sub[j] in coins;
      if sub[i] == sub[j] {
        TwiceIsTwo(sub, i, j);
        OnceIsOne(coins, sub[i]);
      }
    }
  }

  // ----- What is built is valid -----

  /** The key belongs to the address: what it signs over an outpoint and the outputs opens any output of
      the address, whatever else is in the transaction. */
  ghost predicate Opens(rules: Rules, sign: Signer, pubKey: seq<Byte>, address: seq<Byte>) {
    forall tx: Tx, txIn: TxIn, u: Utxo |
      u.out.toAddress == address && txIn == TxIn(Some(u.point), sign(u.point, tx.outs), pubKey, SEQUENCE_RBF) ::
      rules.sigOk(tx, txIn, u)
  }

  /** The coins are in the map, and each may be spent by the next block. */
  ghost predicate AtHand(ctx: Context, coins: seq<Utxo>, address: seq<Byte>) {
    forall i | 0 <= i < |coins| ::
      coins[i].point in ctx.utxos && ctx.utxos[coins[i].point] == coins[i] && Usable(coins[i], address, |ctx.blocks|)
  }

  /** Every input that a wallet signs with the right key for coins at hand passes, and the inputs are worth
      what the coins are. */
  lemma SignedInputsPass(rules: Rules, ctx: Context, tx: Tx, spent: seq<Utxo>, sign: Signer, pubKey: seq<Byte>,
                         address: seq<Byte>)
    requires Spends(tx, spent, sign, pubKey) && AtHand(ctx, spent, address) && Opens(rules, sign, pubKey, address)
    ensures InputsOk(rules, ctx, tx) && InputSum(ctx, tx.ins) == Value(spent)
  {
    forall i | 0 <= i < |tx.ins|
      ensures InputOk(rules, ctx, tx, tx.ins[i])
    {
      assert tx.ins[i] == TxIn(Some(spent[i].point), sign(spent[i].point, tx.outs), pubKey, SEQUENCE_RBF);
      assert Resolve(ctx, spent[i].point) == Some(spent[i]);
      assert rules.sigOk(tx, tx.ins[i], spent[i]);
    }
    SumIsValue(ctx, tx.ins, spent);
  }

  lemma {:induction false} SumIsValue(ctx: Context, ins: seq<TxIn>, spent: seq<Utxo>)
    requires |ins| == |spent|
    requires forall i | 0 <= i < |ins| ::
               && ins[i].toSpend == Some(spent[i].point)
               && spent[i].point in ctx.utxos && ctx.utxos[spent[i].point] == spent[i]
    ensures InputSum(ctx, ins) == Value(spent)
  {
    if ins != [] {
      SumIsValue(ctx, ins[..|ins| - 1], spent[..|ins| - 1]);
    }
  }

  /** The sequence number that signals replaceability carries no relative lock. */
  lemma NoRelativeLock(tx: Tx, utxos: UtxoMap, times: seq<int>, height: int, mtp: int)
    requires forall i | 0 <= i < |tx.ins| :: tx.ins[i].sequence == SEQUENCE_RBF
    ensures SequenceLocksOk(tx, utxos, times, height, mtp)
  {
    forall i | 0 <= i < |tx.ins|
      ensures InputLockOk(tx.ins[i], utxos, times, height, mtp)
    {
      assert !HasRelativeLockTime(tx.ins[i]);
    }
  }

  lemma BuiltIsValid(rules: Rules, ctx: Context, tx: Tx, spent: seq<Utxo>, sign: Signer, pubKey: seq<Byte>,
                     address: seq<Byte>)
    requires Spends(tx, spent, sign, pubKey) && AtHand(ctx, spent, address) && Opens(rules, sign, pubKey, address)
    requires spent != [] && DistinctPoints(spent) && tx.outs != []
    requires OutSum(tx.outs) <= Value(spent) <= MAX_MONEY
    requires rules.txSize(tx) <= MAX_BLOCK_SIZE && LockPassed(tx, Times(ctx.blocks))
    ensures TxValid(rules, ctx, tx)
  {
    SignedInputsPass(rules, ctx, tx, spent, sign, pubKey, address);
    LockTimeOkIff(tx, Times(ctx.blocks));
    NoRelativeLock(tx, ctx.utxos, Times(ctx.blocks), |ctx.blocks|, MedianTimePast(Times(ctx.blocks)));
    OutputsAreWithin(tx.outs, MAX_MONEY);
    hide InputsOk, InputSum, OutSum, Value, LockTimeOk, SequenceLocksOk, LockPassed, MedianTimePast, AtHand, Opens;
  }

  /** build_tx_miner. Whatever it builds, if it is not too big and its lock time has passed, is valid on the
      chain whose coins were asked for, with whatever siblings and mempool it is checked, and pays between
      300 and 334 times the fee rate. Nothing is built only if the mature coins do not suffice. */
  method BuildTxMiner(ghost rules: Rules, utxos: UtxoMap, blocks: seq<Block>, value: UInt64, fee: UInt64,
                      address: seq<Byte>, myAddress: seq<Byte>, pubKey: seq<Byte>, lockTime: Int64,
                      sign: Signer, txId: Hasher) returns (r: Option<Tx>, ghost mine: seq<Utxo>)
    requires Keyed(utxos) && Total(utxos) <= MAX_MONEY && value + 334 * fee <= MAX_UINT64
    requires Opens(rules, sign, pubKey, myAddress)
    ensures forall p | p in utxos && Usable(utxos[p], myAddress, |blocks|) :: utxos[p] in mine
    ensures r.None? ==> Value(mine) <= value + 300 * fee
    ensures r.Some? ==> r.value.outs != [] && r.value.outs[0] == TxOut(value, address) && r.value.lockTime == lockTime
    ensures r.Some? ==>
              forall ctx: Context | ctx.utxos == utxos && ctx.blocks == blocks &&
                                    rules.txSize(r.value) <= MAX_BLOCK_SIZE && LockPassed(r.value, Times(blocks)) ::
                && Lawful(rules, ctx, r.value)
                && 300 * fee <= InputSum(ctx, r.value.ins) - OutSum(r.value.outs) <= 334 * fee
  {
    hide Keyed, Total, Opens, Usable, LockPassed, TxValid, Lawful, InputSum, OutSum, Value;
    var coins := FindCoins(utxos, myAddress, |blocks|);
    mine := coins;
    ValueOfNone();
    if coins == [] {
      return None, coins;
    }
    ghost var spent;
    r, spent := BuildTx(coins, value, fee, address, myAddress, pubKey, lockTime, sign, txId);
    if r.Some? {
      ChoiceIsDistinct(spent, coins);
      SubsetBound(spent, coins);
      forall ctx: Context | ctx.utxos == utxos && ctx.blocks == blocks &&
                            rules.txSize(r.value) <= MAX_BLOCK_SIZE && LockPassed(r.value, Times(blocks))
        ensures Lawful(rules, ctx, r.value)
        ensures 300 * fee <= InputSum(ctx, r.value.ins) - OutSum(r.value.outs) <= 334 * fee
      {
        assert AtHand(ctx, spent, myAddress);
        BuiltIsValid(rules, ctx, r.value, spent, sign, pubKey, myAddress);
        ValidIff(rules, ctx, r.value);
        SignedInputsPass(rules, ctx, r.value, spent, sign, pubKey, myAddress);
      }
    }
  }
}
