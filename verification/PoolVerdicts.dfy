/** Where the verdict on a block depends on the mempool: the fee sum finds an input that spends a
    transaction of the same block only if the mempool holds that transaction. */
module PoolVerdicts {
  import opened Types
  import opened TxRules
  import opened Ledger
  import opened ChainSpec
  import opened Supply
  import opened Conservation

  /** The block's own transactions that are among these ids, as a mempool. */
  ghost function OwnEntries(b: Block, ids: set<Id>): map<Id, Tx>
    requires b.txs != []
  {
    map id | id in ids && FindInTxs(b.txs[1..], id).Some? :: FindInTxs(b.txs[1..], id).value
  }

  /** The checks that no mempool has a part in. */
  ghost predicate OthersOk(rules: Rules, chain: seq<Block>, utxos: UtxoMap, b: Block)
    requires b.txs != []
  {
    && DistinctIds(b.txs) && RequiredBits(chain, b.prev) == Some(b.bits)
    && forall i | 0 <= i < |b.txs[1..]| :: TxValid(rules, BlockContext(chain, utxos, b), b.txs[1..][i])
  }

  ghost function Claim(b: Block): nat
    requires b.txs != []
  {
    OutSum(b.txs[0].outs) % TWO_64
  }

  /** What the transactions take in and do not give out again. */
  ghost function TrueFees(ctx: Context, txs: seq<Tx>): int {
    if txs == [] then 0
    else
      var n := |txs| - 1;
      TrueFees(ctx, txs[..n]) + InputSum(ctx, txs[n].ins) - OutSum(txs[n].outs)
  }

  lemma NoWrap(subsidy: nat, fees: nat)
    requires subsidy + fees < TWO_64
    ensures (subsidy + fees) % TWO_64 == subsidy + fees
  {
  }

  lemma ContextOkIs(rules: Rules, chain: seq<Block>, utxos: UtxoMap, pool: map<Id, Tx>, b: Block)
    requires b.txs != [] && OthersOk(rules, chain, utxos, b)
    ensures ContextOk(rules, chain, utxos, pool, b) <==>
            Claim(b) <= (Subsidy(|chain|) + FeeSum(utxos, pool, b.txs[1..])) % TWO_64
  {
    hide TxValid, RequiredBits, FeeSum, OutSum, Subsidy;
  }

  lemma OthersAreNeeded(rules: Rules, chain: seq<Block>, utxos: UtxoMap, pool: map<Id, Tx>, b: Block)
    requires b.txs != [] && DistinctIds(b.txs) && ContextOk(rules, chain, utxos, pool, b)
    ensures OthersOk(rules, chain, utxos, b)
  {
    hide TxValid, RequiredBits, FeeSum, OutSum, Subsidy, DistinctIds;
  }

  // ----- One input -----

  lemma {:induction false} SiblingIs(p: OutPoint, txs: seq<Tx>, i: nat)
    requires DistinctIds(txs) && i < |txs| && txs[i].id == p.txId
    ensures FindInList(p, txs) ==
            if 0 <= p.idx < |txs[i].outs| then Some(Utxo(txs[i].outs[p.idx], p, false, -1)) else None
  {
    if i > 0 {
      assert txs[0].id != txs[i].id;
      SiblingIs(p, txs[1..], i - 1);
    }
  }

  lemma RestDistinct(b: Block)
    requires b.txs != [] && DistinctIds(b.txs)
    ensures DistinctIds(b.txs[1..])
  {
  }

  /** An input adds its value to the fee sum if its output is unspent or its transaction is in the
      mempool, and nothing otherwise. */
  lemma FeeInputIs(ctx: Context, b: Block, pool: map<Id, Tx>, txIn: TxIn)
    requires b.txs != [] && DistinctIds(b.txs) && PoolAgrees(pool, b.txs[1..])
    requires ctx.siblings == b.txs[1..] && ctx.pool == map[]
    requires txIn.toSpend.Some? && Resolve(ctx, txIn.toSpend.value).Some?
    ensures var p := txIn.toSpend.value;
            FeeInput(ctx.utxos, pool, txIn) ==
            if p in ctx.utxos || p.txId in pool then Resolve(ctx, p).value.out.value else 0
  {
    hide PoolAgrees, DistinctIds;
    var p, txs := txIn.toSpend.value, b.txs[1..];
    if p !in ctx.utxos {
      FindInListKnown(p, txs);
      var i :| 0 <= i < |txs| && txs[i].id == p.txId;
      RestDistinct(b);
      SiblingIs(p, txs, i);
      AgreesAt(b, pool, i);
    }
  }

  lemma AgreesAt(b: Block, pool: map<Id, Tx>, i: nat)
    requires b.txs != [] && PoolAgrees(pool, b.txs[1..]) && i < |b.txs[1..]|
    ensures b.txs[1..][i].id in pool ==> pool[b.txs[1..][i].id] == b.txs[1..][i]
  {
  }

  ghost predicate Resolved(ctx: Context, ins: seq<TxIn>) {
    forall k | 0 <= k < |ins| :: ins[k].toSpend.Some? && Resolve(ctx, ins[k].toSpend.value).Some?
  }

  lemma ResolvedPart(ctx: Context, ins: seq<TxIn>, n: nat)
    requires Resolved(ctx, ins) && n < |ins|
    ensures Resolved(ctx, ins[..n])
    ensures ins[n].toSpend.Some? && Resolve(ctx, ins[n].toSpend.value).Some?
  {
    hide Resolve;
  }

  /** The second mempool holds whatever the first one holds of the block. */
  ghost predicate HoldsMore(b: Block, pool: map<Id, Tx>, more: map<Id, Tx>)
    requires b.txs != []
  {
    forall i | 0 <= i < |b.txs[1..]| && b.txs[1..][i].id in pool :: b.txs[1..][i].id in more
  }

  lemma ParentHeld(ctx: Context, b: Block, pool: map<Id, Tx>, more: map<Id, Tx>, p: OutPoint)
    requires b.txs != [] && HoldsMore(b, pool, more) && ctx.siblings == b.txs[1..] && ctx.pool == map[]
    requires Resolve(ctx, p).Some? && p !in ctx.utxos
    ensures p.txId in pool ==> p.txId in more
  {
    FindInListKnown(p, b.txs[1..]);
  }

  // ----- One transaction -----

  lemma {:induction false} InputsGrow(ctx: Context, b: Block, pool: map<Id, Tx>, more: map<Id, Tx>, ins: seq<TxIn>)
    requires b.txs != [] && DistinctIds(b.txs) && PoolAgrees(pool, b.txs[1..]) && PoolAgrees(more, b.txs[1..]) &&
             HoldsMore(b, pool, more)
    requires ctx.siblings == b.txs[1..] && ctx.pool == map[] && Resolved(ctx, ins)
    ensures FeeInputSum(ctx.utxos, pool, ins) <= FeeInputSum(ctx.utxos, more, ins) <= InputSum(ctx, ins)
  {
    hide PoolAgrees, HoldsMore, DistinctIds, Resolve, FeeInput, Resolved;
    if ins != [] {
      var n := |ins| - 1;
      ResolvedPart(ctx, ins, n);
      InputsGrow(ctx, b, pool, more, ins[..n]);
      FeeInputIs(ctx, b, pool, ins[n]);
      FeeInputIs(ctx, b, more, ins[n]);
      if ins[n].toSpend.value !in ctx.utxos {
        ParentHeld(ctx, b, pool, more, ins[n].toSpend.value);
      }
    }
  }

  ghost predicate HoldsAll(b: Block, pool: map<Id, Tx>)
    requires b.txs != []
  {
    forall i | 0 <= i < |b.txs[1..]| :: b.txs[1..][i].id in pool
  }

  lemma AnyParentHeld(ctx: Context, b: Block, pool: map<Id, Tx>, p: OutPoint)
    requires b.txs != [] && HoldsAll(b, pool) && ctx.siblings == b.txs[1..] && ctx.pool == map[]
    requires Resolve(ctx, p).Some? && p !in ctx.utxos
    ensures p.txId in pool
  {
    FindInListKnown(p, b.txs[1..]);
  }

  lemma {:induction false} AllInputsSeen(ctx: Context, b: Block, pool: map<Id, Tx>, ins: seq<TxIn>)
    requires b.txs != [] && DistinctIds(b.txs) && PoolAgrees(pool, b.txs[1..]) && HoldsAll(b, pool)
    requires ctx.siblings == b.txs[1..] && ctx.pool == map[] && Resolved(ctx, ins)
    ensures FeeInputSum(ctx.utxos, pool, ins) == InputSum(ctx, ins)
  {
    hide PoolAgrees, HoldsAll, DistinctIds, Resolve, FeeInput, Resolved;
    if ins != [] {
      var n := |ins| - 1;
      ResolvedPart(ctx, ins, n);
      AllInputsSeen(ctx, b, pool, ins[..n]);
      FeeInputIs(ctx, b, pool, ins[n]);
      if ins[n].toSpend.value !in ctx.utxos {
        AnyParentHeld(ctx, b, pool, ins[n].toSpend.value);
      }
    }
  }

  lemma ValidParts(rules: Rules, ctx: Context, tx: Tx)
    requires TxValid(rules, ctx, tx)
    ensures Resolved(ctx, tx.ins) && OutSum(tx.outs) <= InputSum(ctx, tx.ins) < TWO_64
  {
    hide BasicsOk, LocksOk, Resolve, InputSum, OutSum;
    assert forall i | 0 <= i < |tx.ins| :: InputOk(rules, ctx, tx, tx.ins[i]);
  }

  // ----- The block -----

  ghost predicate AllValidIn(rules: Rules, ctx: Context, txs: seq<Tx>) {
    forall i | 0 <= i < |txs| :: TxValid(rules, ctx, txs[i])
  }

  lemma ValidPart(rules: Rules, ctx: Context, txs: seq<Tx>, n: nat)
    requires AllValidIn(rules, ctx, txs) && n < |txs|
    ensures AllValidIn(rules, ctx, txs[..n]) && TxValid(rules, ctx, txs[n])
  {
    hide TxValid;
  }

  lemma FeeIs(utxos: UtxoMap, pool: map<Id, Tx>, tx: Tx)
    requires OutSum(tx.outs) < TWO_64 && FeeInputSum(utxos, pool, tx.ins) < TWO_64
    ensures Fee(utxos, pool, tx) ==
            if FeeInputSum(utxos, pool, tx.ins) < OutSum(tx.outs) then 0
            else FeeInputSum(utxos, pool, tx.ins) - OutSum(tx.outs)
  {
    hide FeeInputSum, OutSum;
  }

  /** A fuller mempool finds more fees, and one that holds the whole block finds them all. */
  lemma {:induction false} FeesGrow(rules: Rules, ctx: Context, b: Block, pool: map<Id, Tx>, more: map<Id, Tx>,
                                    txs: seq<Tx>)
    requires b.txs != [] && DistinctIds(b.txs) && PoolAgrees(pool, b.txs[1..]) && PoolAgrees(more, b.txs[1..]) &&
             HoldsMore(b, pool, more)
    requires ctx.siblings == b.txs[1..] && ctx.pool == map[] && AllValidIn(rules, ctx, txs)
    ensures FeeSum(ctx.utxos, pool, txs) <= FeeSum(ctx.utxos, more, txs) <= TrueFees(ctx, txs)
    ensures HoldsAll(b, more) ==> FeeSum(ctx.utxos, more, txs) == TrueFees(ctx, txs)
  {
    hide PoolAgrees, HoldsMore, HoldsAll, DistinctIds, TxValid, AllValidIn, Fee, InputSum, OutSum, FeeInputSum,
         Resolved;
    if txs != [] {
      var n := |txs| - 1;
      var tx := txs[n];
      ValidPart(rules, ctx, txs, n);
      FeesGrow(rules, ctx, b, pool, more, txs[..n]);
      ValidParts(rules, ctx, tx);
      InputsGrow(ctx, b, pool, more, tx.ins);
      if HoldsAll(b, more) {
        AllInputsSeen(ctx, b, more, tx.ins);
      }
      FeeIs(ctx.utxos, pool, tx);
      FeeIs(ctx.utxos, more, tx);
    }
  }

  lemma OwnAgrees(b: Block, ids: set<Id>)
    requires b.txs != [] && DistinctIds(b.txs)
    ensures PoolAgrees(OwnEntries(b, ids), b.txs[1..])
    ensures ids == IdsOf(b.txs[1..]) ==> HoldsAll(b, OwnEntries(b, ids))
    ensures forall i | 0 <= i < |b.txs[1..]| :: b.txs[1..][i].id in OwnEntries(b, ids) <==> b.txs[1..][i].id in ids
  {
    RestDistinct(b);
    var txs := b.txs[1..];
    forall i | 0 <= i < |txs|
      ensures FindInTxs(txs, txs[i].id) == Some(txs[i]) && txs[i].id in IdsOf(txs)
    {
      FindInTxsFirst(txs, txs[i].id);
    }
  }

  lemma ContextOf(chain: seq<Block>, utxos: UtxoMap, b: Block, rules: Rules)
    requires b.txs != [] && OthersOk(rules, chain, utxos, b)
    ensures var ctx := BlockContext(chain, utxos, b);
            && ctx.utxos == utxos && ctx.siblings == b.txs[1..] && ctx.pool == map[]
            && AllValidIn(rules, ctx, b.txs[1..]) && DistinctIds(b.txs)
  {
    hide TxValid, RequiredBits, DistinctIds;
  }

  /** Of a mempool, the verdict sees nothing but which of the block's own transactions it holds. */
  lemma OnlyOwnEntriesMatter(rules: Rules, chain: seq<Block>, utxos: UtxoMap, pool: map<Id, Tx>, b: Block)
    requires b.txs != [] && DistinctIds(b.txs) && PoolAgrees(pool, b.txs[1..])
    ensures ContextOk(rules, chain, utxos, pool, b) <==> ContextOk(rules, chain, utxos, OwnEntries(b, pool.Keys), b)
  {
    hide *;
    var own := OwnEntries(b, pool.Keys);
    if OthersOk(rules, chain, utxos, b) {
      var ctx := BlockContext(chain, utxos, b);
      ContextOf(chain, utxos, b, rules);
      OwnAgrees(b, pool.Keys);
      OwnHoldsTheSame(b, pool);
      FeesGrow(rules, ctx, b, pool, own, b.txs[1..]);
      FeesGrow(rules, ctx, b, own, pool, b.txs[1..]);
      ContextOkIs(rules, chain, utxos, pool, b);
      ContextOkIs(rules, chain, utxos, own, b);
    } else {
      NotWithoutOthers(rules, chain, utxos, pool, b);
      NotWithoutOthers(rules, chain, utxos, own, b);
    }
  }

  lemma NotWithoutOthers(rules: Rules, chain: seq<Block>, utxos: UtxoMap, pool: map<Id, Tx>, b: Block)
    requires b.txs != [] && DistinctIds(b.txs) && !OthersOk(rules, chain, utxos, b)
    ensures !ContextOk(rules, chain, utxos, pool, b)
  {
    hide *;
    if ContextOk(rules, chain, utxos, pool, b) {
      OthersAreNeeded(rules, chain, utxos, pool, b);
    }
  }

  lemma OwnHoldsTheSame(b: Block, pool: map<Id, Tx>)
    requires b.txs != []
    requires forall i | 0 <= i < |b.txs[1..]| ::
               b.txs[1..][i].id in OwnEntries(b, pool.Keys) <==> b.txs[1..][i].id in pool.Keys
    ensures HoldsMore(b, pool, OwnEntries(b, pool.Keys)) && HoldsMore(b, OwnEntries(b, pool.Keys), pool)
  {
    hide OwnEntries;
  }

  /** Two nodes with the same chain, one of which accepts the block and one of which does not. */
  ghost predicate Split(rules: Rules, chain: seq<Block>, utxos: UtxoMap, b: Block, pool: map<Id, Tx>, other: map<Id,
                        Tx>)
    requires b.txs != []
  {
    && PoolAgrees(pool, b.txs[1..]) && PoolAgrees(other, b.txs[1..])
    && ContextOk(rules, chain, utxos, pool, b) && !ContextOk(rules, chain, utxos, other, b)
  }

  /** The verdict with a mempool that holds the whole block is the verdict on the true fees. */
  lemma FullVerdict(rules: Rules, chain: seq<Block>, utxos: UtxoMap, b: Block, full: map<Id, Tx>)
    requires b.txs != [] && OthersOk(rules, chain, utxos, b) && PoolAgrees(full, b.txs[1..]) && HoldsAll(b, full)
    requires Subsidy(|chain|) + TrueFees(BlockContext(chain, utxos, b), b.txs[1..]) < TWO_64
    ensures ContextOk(rules, chain, utxos, full, b) <==>
            Claim(b) <= Subsidy(|chain|) + TrueFees(BlockContext(chain, utxos, b), b.txs[1..])
  {
    hide *;
    var ctx := BlockContext(chain, utxos, b);
    ContextOf(chain, utxos, b, rules);
    EmptyAgrees(b, full);
    FeesGrow(rules, ctx, b, map[], full, b.txs[1..]);
    NoWrap(Subsidy(|chain|), FeeSum(utxos, full, b.txs[1..]));
    ContextOkIs(rules, chain, utxos, full, b);
  }

  /** A mempool that holds more accepts more, as long as the sums do not wrap. */
  lemma MoreAcceptsMore(rules: Rules, chain: seq<Block>, utxos: UtxoMap, b: Block, pool: map<Id, Tx>, more: map<Id, Tx>)
    requires b.txs != [] && OthersOk(rules, chain, utxos, b)
    requires PoolAgrees(pool, b.txs[1..]) && PoolAgrees(more, b.txs[1..]) && HoldsMore(b, pool, more)
    requires Subsidy(|chain|) + TrueFees(BlockContext(chain, utxos, b), b.txs[1..]) < TWO_64
    ensures ContextOk(rules, chain, utxos, pool, b) ==> ContextOk(rules, chain, utxos, more, b)
  {
    hide *;
    var ctx := BlockContext(chain, utxos, b);
    ContextOf(chain, utxos, b, rules);
    FeesGrow(rules, ctx, b, pool, more, b.txs[1..]);
    NoWrap(Subsidy(|chain|), FeeSum(utxos, pool, b.txs[1..]));
    NoWrap(Subsidy(|chain|), FeeSum(utxos, more, b.txs[1..]));
    ContextOkIs(rules, chain, utxos, pool, b);
    ContextOkIs(rules, chain, utxos, more, b);
  }

  lemma EmptyVerdict(rules: Rules, chain: seq<Block>, utxos: UtxoMap, b: Block)
    requires b.txs != [] && OthersOk(rules, chain, utxos, b)
    requires Subsidy(|chain|) + TrueFees(BlockContext(chain, utxos, b), b.txs[1..]) < TWO_64
    ensures ContextOk(rules, chain, utxos, map[], b) <==> Claim(b) <= Subsidy(|chain|) + FeeSum(utxos, map[], b.txs[1..])
  {
    hide *;
    var ctx := BlockContext(chain, utxos, b);
    ContextOf(chain, utxos, b, rules);
    EmptyAgrees(b, map[]);
    FeesGrow(rules, ctx, b, map[], map[], b.txs[1..]);
    NoWrap(Subsidy(|chain|), FeeSum(utxos, map[], b.txs[1..]));
    ContextOkIs(rules, chain, utxos, map[], b);
  }

  /** Exactly when the verdict depends on the mempool: the coinbase claims more than the fees found
      without a mempool allow, and no more than the fees really paid allow. */
  lemma VerdictsDifferIff(rules: Rules, chain: seq<Block>, utxos: UtxoMap, b: Block)
    requires b.txs != [] && OthersOk(rules, chain, utxos, b)
    requires Subsidy(|chain|) + TrueFees(BlockContext(chain, utxos, b), b.txs[1..]) < TWO_64
    ensures (exists pool, other :: Split(rules, chain, utxos, b, pool, other)) <==>
            Subsidy(|chain|) + FeeSum(utxos, map[], b.txs[1..]) < Claim(b) <=
            Subsidy(|chain|) + TrueFees(BlockContext(chain, utxos, b), b.txs[1..])
  {
    hide *;
    var full := OwnEntries(b, IdsOf(b.txs[1..]));
    ContextOf(chain, utxos, b, rules);
    OwnAgrees(b, IdsOf(b.txs[1..]));
    FullVerdict(rules, chain, utxos, b, full);
    EmptyVerdict(rules, chain, utxos, b);
    EmptyAgrees(b, full);
    if ContextOk(rules, chain, utxos, full, b) && !ContextOk(rules, chain, utxos, map[], b) {
      SplitWhen(rules, chain, utxos, b, full, map[]);
    }
    if pool, other :| Split(rules, chain, utxos, b, pool, other) {
      SplitMeans(rules, chain, utxos, b, pool, other);
      AllHoldMore(b, pool, full);
      EmptyAgrees(b, other);
      MoreAcceptsMore(rules, chain, utxos, b, pool, full);
      MoreAcceptsMore(rules, chain, utxos, b, map[], other);
    }
  }

  lemma SplitWhen(rules: Rules, chain: seq<Block>, utxos: UtxoMap, b: Block, pool: map<Id, Tx>, other: map<Id, Tx>)
    requires b.txs != [] && PoolAgrees(pool, b.txs[1..]) && PoolAgrees(other, b.txs[1..])
    requires ContextOk(rules, chain, utxos, pool, b) && !ContextOk(rules, chain, utxos, other, b)
    ensures Split(rules, chain, utxos, b, pool, other)
  {
    hide PoolAgrees, ContextOk;
  }

  lemma SplitMeans(rules: Rules, chain: seq<Block>, utxos: UtxoMap, b: Block, pool: map<Id, Tx>, other: map<Id, Tx>)
    requires b.txs != [] && Split(rules, chain, utxos, b, pool, other)
    ensures PoolAgrees(pool, b.txs[1..]) && PoolAgrees(other, b.txs[1..])
    ensures ContextOk(rules, chain, utxos, pool, b) && !ContextOk(rules, chain, utxos, other, b)
  {
    hide PoolAgrees, ContextOk;
  }

  lemma EmptyAgrees(b: Block, other: map<Id, Tx>)
    requires b.txs != []
    ensures PoolAgrees(map[], b.txs[1..]) && HoldsMore(b, map[], other)
  {
  }

  lemma AllHoldMore(b: Block, pool: map<Id, Tx>, full: map<Id, Tx>)
    requires b.txs != [] && HoldsAll(b, full)
    ensures HoldsMore(b, pool, full)
  {
  }

  // ----- A block on which nodes disagree -----

  /** A coinbase, a child and then its parent, which spends an unspent output; the child leaves a fee
      that the coinbase claims. */
  ghost predicate ChildFirst(setup: Setup, chain: seq<Block>, m: UtxoMap, b: Block, p: OutPoint, left: nat, fee: nat) {
    && |b.txs| == 3 && HeaderFits(setup, chain, b) && FreshFor(m, b.txs)
    && p in m && fee > 0 && PlainCoinbase(setup.rules, b.txs[0], Subsidy(|chain|) + fee)
    && var u, q := m[p], OutPoint(b.txs[2].id, 0);
       && u.out.value == left + fee && !(u.isCoinbase && |chain| - u.height < COINBASE_MATURITY)
       && PlainSpend(setup.rules, b.txs[2], p, u.out.value) && setup.rules.sigOk(b.txs[2], b.txs[2].ins[0], u)
       && PlainSpend(setup.rules, b.txs[1], q, left)
       && setup.rules.sigOk(b.txs[1], b.txs[1].ins[0], Utxo(b.txs[2].outs[0], q, false, -1))
  }

  lemma BothAreValid(setup: Setup, chain: seq<Block>, m: UtxoMap, b: Block, p: OutPoint, left: nat, fee: nat)
    requires ChildFirst(setup, chain, m, b, p, left, fee)
    ensures OutPoint(b.txs[2].id, 0) !in m
    ensures TxValid(setup.rules, BlockContext(chain, m, b), b.txs[1]) && !b.txs[1].IsCoinbase()
    ensures TxValid(setup.rules, BlockContext(chain, m, b), b.txs[2]) && !b.txs[2].IsCoinbase()
  {
    hide TxValid, BlockContext, Subsidy, TimeOk, RequiredBits, HeaderFits, PlainCoinbase, PlainSpend, FreshFor, Resolve;
    var rules, txs, u, q, ctx := setup.rules, b.txs, m[p], OutPoint(b.txs[2].id, 0), BlockContext(chain, m, b);
    ContextParts(chain, m, b);
    InMap(ctx, p);
    PlainIsValid(rules, ctx, txs[2], p, u.out.value, u);
    PlainOut(rules, txs[2], p, u.out.value);
    AmongSiblings(ctx, m, txs);
    PlainIsValid(rules, ctx, txs[1], q, left, Utxo(txs[2].outs[0], q, false, -1));
  }

  lemma ChildFirstParts(setup: Setup, chain: seq<Block>, m: UtxoMap, b: Block, p: OutPoint, left: nat, fee: nat)
    requires ChildFirst(setup, chain, m, b, p, left, fee)
    ensures |b.txs| == 3 && HeaderFits(setup, chain, b) && FreshFor(m, b.txs) && DistinctIds(b.txs) && fee > 0
    ensures p in m && m[p].out.value == left + fee
    ensures PlainCoinbase(setup.rules, b.txs[0], Subsidy(|chain|) + fee)
    ensures PlainSpend(setup.rules, b.txs[1], OutPoint(b.txs[2].id, 0), left)
    ensures PlainSpend(setup.rules, b.txs[2], p, left + fee)
  {
    FreshIsDistinct(m, b.txs);
    hide HeaderFits, FreshFor, PlainCoinbase, PlainSpend, Subsidy, DistinctIds;
  }

  /** Nothing in such a block spends an earlier transaction of it, so disconnecting it would be exact;
      and yet a node accepts it only if the parent is in its mempool. */
  lemma SiblingFeeSplits(setup: Setup, chain: seq<Block>, b: Block, p: OutPoint, left: nat, fee: nat)
    requires FitsHeight(|chain|) && ChildFirst(setup, chain, Fold(|setup.base|, chain), b, p, left, fee)
    ensures Shape(setup.rules, b) && NoEarlierParent(b.txs)
    ensures Split(setup.rules, chain, Fold(|setup.base|, chain), b, map[b.txs[2].id := b.txs[2]], map[])
  {
    hide *;
    var m := Fold(|setup.base|, chain);
    ChildFirstParts(setup, chain, m, b, p, left, fee);
    BothAreValid(setup, chain, m, b, p, left, fee);
    ThreeShape(setup, chain, b, Subsidy(|chain|) + fee);
    OthersOfThree(setup, chain, m, b);
    VerdictsOfTwo(setup, chain, m, b, p, left, fee);
    OnePoolAgrees(b, m);
    SplitWhen(setup.rules, chain, m, b, map[b.txs[2].id := b.txs[2]], map[]);
    PlainPoints(setup.rules, b.txs[1], OutPoint(b.txs[2].id, 0), left);
    PlainPoints(setup.rules, b.txs[2], p, left + fee);
    CoinbasePoints(setup.rules, b.txs[0], Subsidy(|chain|) + fee, m);
    ChildFirstUndoes(m, b.txs, p, OutPoint(b.txs[2].id, 0));
  }

  lemma VerdictsOfTwo(setup: Setup, chain: seq<Block>, m: UtxoMap, b: Block, p: OutPoint, left: nat, fee: nat)
    requires ChildFirst(setup, chain, m, b, p, left, fee) && OthersOk(setup.rules, chain, m, b)
    requires OutPoint(b.txs[2].id, 0) !in m && b.txs[1..] == [b.txs[1], b.txs[2]]
    requires Claim(b) == OutSum(b.txs[0].outs) % TWO_64 && OutSum(b.txs[0].outs) == Subsidy(|chain|) + fee < TWO_64
    ensures ContextOk(setup.rules, chain, m, map[b.txs[2].id := b.txs[2]], b)
    ensures !ContextOk(setup.rules, chain, m, map[], b)
  {
    hide *;
    ChildFirstParts(setup, chain, m, b, p, left, fee);
    var rules, pool, q := setup.rules, map[b.txs[2].id := b.txs[2]], OutPoint(b.txs[2].id, 0);
    assert b.txs[2].id in pool;
    SplitFees(rules, m, map[], b.txs, p, q, left, fee);
    SplitFees(rules, m, pool, b.txs, p, q, left, fee);
    NoWrap(Subsidy(|chain|), fee);
    NoWrap(Subsidy(|chain|), 0);
    ContextOkIs(rules, chain, m, map[], b);
    ContextOkIs(rules, chain, m, pool, b);
  }

  lemma OthersOfThree(setup: Setup, chain: seq<Block>, m: UtxoMap, b: Block)
    requires |b.txs| == 3 && DistinctIds(b.txs) && HeaderFits(setup, chain, b)
    requires TxValid(setup.rules, BlockContext(chain, m, b), b.txs[1])
    requires TxValid(setup.rules, BlockContext(chain, m, b), b.txs[2])
    ensures OthersOk(setup.rules, chain, m, b) && b.txs[1..] == [b.txs[1], b.txs[2]]
    ensures Claim(b) == OutSum(b.txs[0].outs) % TWO_64
  {
    hide TxValid, RequiredBits, OutSum, TimeOk;
  }

  /** With the parent in the mempool the child pays its fee, without it none. */
  lemma SplitFees(rules: Rules, m: UtxoMap, pool: map<Id, Tx>, txs: seq<Tx>, p: OutPoint, q: OutPoint, left: nat,
                  fee: nat)
    requires |txs| == 3 && q == OutPoint(txs[2].id, 0) && q !in m && p in m && m[p].out.value == left + fee
    requires PlainSpend(rules, txs[1], q, left) && PlainSpend(rules, txs[2], p, left + fee)
    requires pool == map[] || pool == map[txs[2].id := txs[2]]
    ensures FeeSum(m, pool, [txs[1], txs[2]]) == if pool == map[] then 0 else fee
  {
    hide FeeSum, Fee, FeeInput;
    PlainOut(rules, txs[2], p, left + fee);
    PlainFee(rules, m, pool, txs[1], q, left);
    PlainFee(rules, m, pool, txs[2], p, left + fee);
    PlainInput(rules, m, pool, txs[1], q, left);
    PlainInput(rules, m, pool, txs[2], p, left + fee);
    FeesOfTwo(m, pool, [txs[1], txs[2]]);
  }

  lemma OnePoolAgrees(b: Block, m: UtxoMap)
    requires |b.txs| == 3 && FreshFor(m, b.txs)
    ensures PoolAgrees(map[b.txs[2].id := b.txs[2]], b.txs[1..]) && PoolAgrees(map[], b.txs[1..])
  {
  }

  lemma ChildFirstUndoes(m: UtxoMap, txs: seq<Tx>, p: OutPoint, q: OutPoint)
    requires |txs| == 3 && FreshFor(m, txs) && p in m && q.txId == txs[2].id
    requires InPoints(txs[0]) == {} && InPoints(txs[1]) == {q} && InPoints(txs[2]) == {p}
    ensures NoEarlierParent(txs)
  {
    hide InPoints;
    assert txs[0].id in IdsOf(txs) && txs[1].id in IdsOf(txs);
  }
}
