/** What the UTXO map of a validated chain is, output by output, and what every input spent along it
    satisfies. */
module SpendLaws {
  import opened Types
  import opened TxRules
  import opened MedianTime
  import opened Ledger
  import opened ChainSpec

  // ----- Outputs made and taken -----

  /** Transaction l of the block has the output. */
  ghost predicate MakesAt(b: Block, l: nat, p: OutPoint) {
    l < |b.txs| && b.txs[l].id == p.txId && 0 <= p.idx < |b.txs[l].outs|
  }

  ghost predicate Makes(b: Block, p: OutPoint) {
    exists l: nat :: MakesAt(b, l, p)
  }

  ghost predicate TakesAt(b: Block, k: nat, i: nat, p: OutPoint) {
    k < |b.txs| && i < |b.txs[k].ins| && b.txs[k].ins[i].toSpend == Some(p)
  }

  ghost predicate Takes(b: Block, p: OutPoint) {
    exists k: nat, i: nat :: TakesAt(b, k, i, p)
  }

  ghost predicate Made(chain: seq<Block>, base: nat, p: OutPoint) {
    exists h :: base <= h < |chain| && Makes(chain[h], p)
  }

  ghost predicate Taken(chain: seq<Block>, base: nat, p: OutPoint) {
    exists h :: base <= h < |chain| && Takes(chain[h], p)
  }

  lemma MakesIff(b: Block, p: OutPoint)
    ensures Makes(b, p) <==> p in AllOuts(b.txs)
    ensures Makes(b, p) ==> p.txId in IdsOf(b.txs)
  {
    AllMembers(b.txs, p);
    if Makes(b, p) {
      var l: nat :| MakesAt(b, l, p);
      assert p in OutPoints(b.txs[l]);
    }
    if p in AllOuts(b.txs) {
      var l :| 0 <= l < |b.txs| && p in OutPoints(b.txs[l]);
      assert MakesAt(b, l, p);
    }
  }

  lemma TakesIff(b: Block, p: OutPoint)
    ensures Takes(b, p) <==> p in AllIns(b.txs)
  {
    AllMembers(b.txs, p);
    if Takes(b, p) {
      var k: nat, i: nat :| TakesAt(b, k, i, p);
      assert p in InPoints(b.txs[k]);
    }
    if p in AllIns(b.txs) {
      var k :| 0 <= k < |b.txs| && p in InPoints(b.txs[k]);
      var i := InputAt(b.txs[k], p);
      assert TakesAt(b, k, i, p);
    }
  }

  lemma {:induction false} CreatedAt(txs: seq<Tx>, height: int, l: nat, p: OutPoint)
    requires FitsHeight(height) && DistinctIds(txs) && l < |txs| && p in OutPoints(txs[l])
    ensures p in AllCreated(txs, height) && AllCreated(txs, height)[p] == Utxo(txs[l].outs[p.idx], p, txs[l].IsCoinbase(), height)
  {
    var k := |txs| - 1;
    if l < k {
      CreatedAt(txs[..k], height, l, p);
    }
  }

  // ----- One more block -----

  lemma BlockFacts(setup: Setup, known: iset<Block>, chain: seq<Block>)
    requires World(setup, known) && Validated(setup, known, chain) && |setup.base| < |chain|
    ensures FitsHeight(|chain|) && FitsHeight(|chain| - 1) && |chain| < 0x8000_0000
    ensures var n := |chain| - 1;
            && Validated(setup, known, chain[..n]) && UniqueIds(chain) && UniqueIds(chain[..n])
            && ConnectsTo(setup, chain[..n], chain[n]) && NoSameBlockSpend(chain[n])
            && DistinctIds(chain[n].txs) && IdsOf(chain[n].txs) !! ChainIds(chain[..n])
            && Fold(|setup.base|, chain) == (Fold(|setup.base|, chain[..n]) - AllIns(chain[n].txs)) + AllCreated(chain[n].txs, n + 1)
            && AllCreated(chain[n].txs, n + 1).Keys == AllOuts(chain[n].txs)
  {
    hide *;
    var n := |chain| - 1;
    KnownBlock(setup, known, chain, n);
    ShortChain(setup, known, chain);
    SmallerHeights(n, |chain|);
    PrefixIsChain(setup, known, chain, n);
    ValidatedIsUnique(setup, known, chain);
    FreshAt(chain, n);
    ShapeParts(setup.rules, chain[n]);
    NextFoldIs(|setup.base|, chain, n);
    assert chain[..n + 1] == chain;
    NoForwardSpends(chain[n]);
    ApplyClosedForm(Fold(|setup.base|, chain[..n]), chain[n].txs, n + 1);
    CreatedKeys(chain[n].txs, n + 1);
  }

  lemma ShortChain(setup: Setup, known: iset<Block>, chain: seq<Block>)
    requires World(setup, known) && Validated(setup, known, chain)
    ensures |chain| < 0x8000_0000
  {
    assert Tame(setup, chain);
  }

  /** What a block of a validated chain spends was unspent before it, and is none of its own. */
  lemma TakenWasThere(setup: Setup, known: iset<Block>, chain: seq<Block>, j: nat, p: OutPoint)
    requires World(setup, known) && Validated(setup, known, chain) && |setup.base| <= j < |chain|
    requires Takes(chain[j], p)
    ensures FitsHeight(j) && p in Fold(|setup.base|, chain[..j]) && p.txId !in IdsOf(chain[j].txs)
  {
    hide *;
    KnownBlock(setup, known, chain, j);
    SmallerHeights(j, |chain|);
    ContextOfTip(setup, chain[..j], chain[j]);
    TakesIff(chain[j], p);
    TipInputs(setup.rules, chain[..j], Fold(|setup.base|, chain[..j]), chain[j], p);
  }

  lemma MadeNowWasNeverTaken(setup: Setup, known: iset<Block>, chain: seq<Block>, p: OutPoint)
    requires World(setup, known) && Validated(setup, known, chain) && |setup.base| < |chain|
    requires Makes(chain[|chain| - 1], p)
    ensures !Taken(chain, |setup.base|, p)
  {
    hide *;
    var n, base := |chain| - 1, |setup.base|;
    BlockFacts(setup, known, chain);
    MakesIff(chain[n], p);
    forall j | base <= j < |chain|
      ensures !Takes(chain[j], p)
    {
      if Takes(chain[j], p) {
        TakenWasThere(setup, known, chain, j, p);
        if j < n {
          assert chain[..n][..j] == chain[..j];
          UniquePrefix(chain, j);
          FoldAgreesWithChain(base, chain[..j], p);
          IdsGrow(chain[..n], j);
        }
      }
    }
    NeverTaken(chain, base, p);
  }

  lemma NeverTaken(chain: seq<Block>, base: nat, p: OutPoint)
    requires forall j | base <= j < |chain| :: !Takes(chain[j], p)
    ensures !Taken(chain, base, p)
  {
  }

  lemma OneMore(chain: seq<Block>, base: nat, p: OutPoint)
    requires base < |chain|
    ensures var n := |chain| - 1;
            && (Made(chain, base, p) <==> Made(chain[..n], base, p) || Makes(chain[n], p))
            && (Taken(chain, base, p) <==> Taken(chain[..n], base, p) || Takes(chain[n], p))
  {
    hide Makes, Takes;
    var n := |chain| - 1;
    assert forall i | 0 <= i < n :: chain[..n][i] == chain[i];
    if Made(chain[..n], base, p) {
      var h :| base <= h < n && Makes(chain[..n][h], p);
      assert Makes(chain[h], p);
    }
    if Taken(chain[..n], base, p) {
      var h :| base <= h < n && Takes(chain[..n][h], p);
      assert Takes(chain[h], p);
    }
    if Made(chain, base, p) && !Makes(chain[n], p) {
      var h :| base <= h < |chain| && Makes(chain[h], p);
      assert Makes(chain[..n][h], p);
    }
    if Taken(chain, base, p) && !Takes(chain[n], p) {
      var h :| base <= h < |chain| && Takes(chain[h], p);
      assert Takes(chain[..n][h], p);
    }
  }

  lemma NoneYet(chain: seq<Block>, base: nat, p: OutPoint)
    requires |chain| <= base && FitsHeight(|chain|)
    ensures !Made(chain, base, p) && p !in Fold(base, chain)
  {
  }

  // ----- What the map is -----

  /** The UTXO map of a validated chain holds exactly the outputs that its blocks behind the initial ones
      made and none of them has spent. */
  lemma {:induction false} UnspentIff(setup: Setup, known: iset<Block>, chain: seq<Block>, p: OutPoint)
    requires World(setup, known) && Validated(setup, known, chain)
    ensures FitsHeight(|chain|)
    ensures p in Fold(|setup.base|, chain) <==> Made(chain, |setup.base|, p) && !Taken(chain, |setup.base|, p)
    decreases |chain|
  {
    hide *;
    var base := |setup.base|;
    if |chain| <= base {
      ShortIsFine(setup, known, chain);
      NoneYet(chain, base, p);
    } else {
      var n := |chain| - 1;
      BlockFacts(setup, known, chain);
      UnspentIff(setup, known, chain[..n], p);
      MakesIff(chain[n], p);
      TakesIff(chain[n], p);
      OneMore(chain, base, p);
      if Makes(chain[n], p) {
        MadeNowWasNeverTaken(setup, known, chain, p);
      }
    }
  }

  lemma ShortIsFine(setup: Setup, known: iset<Block>, chain: seq<Block>)
    requires World(setup, known) && |chain| <= |setup.base|
    ensures FitsHeight(|chain|)
  {
  }

  /** The entry of an unspent output is the output itself with its outpoint, marked as a coinbase output
      exactly if it is the first transaction's, and with the height of the block that made it. */
  lemma {:induction false} EntryIs(setup: Setup, known: iset<Block>, chain: seq<Block>, p: OutPoint, h: nat, l: nat)
    requires World(setup, known) && Validated(setup, known, chain) && FitsHeight(|chain|)
    requires |setup.base| <= h < |chain| && MakesAt(chain[h], l, p) && p in Fold(|setup.base|, chain)
    ensures Fold(|setup.base|, chain)[p] == Utxo(chain[h].txs[l].outs[p.idx], p, l == 0, h + 1)
    decreases |chain|
  {
    hide *;
    var n := |chain| - 1;
    BlockFacts(setup, known, chain);
    PointOf(chain[h], l, p);
    CoinbasePlace(setup, known, chain, h, l);
    MakesIff(chain[n], p);
    if h == n {
      CreatedAt(chain[n].txs, n + 1, l, p);
    } else {
      FreshAt(chain, h);
      IdsGrow(chain[..n], h + 1);
      assert chain[..n][..h + 1] == chain[..h + 1];
      OldId(chain, h, p.txId);
      EntryIs(setup, known, chain[..n], p, h, l);
    }
  }

  lemma PointOf(b: Block, l: nat, p: OutPoint)
    requires MakesAt(b, l, p)
    ensures l < |b.txs| && 0 <= p.idx < |b.txs[l].outs| && p in OutPoints(b.txs[l]) && p.txId in IdsOf(b.txs)
  {
  }

  lemma OldId(chain: seq<Block>, h: nat, id: Id)
    requires h < |chain| && id in IdsOf(chain[h].txs)
    ensures id in ChainIds(chain[..h + 1])
  {
    assert chain[..h + 1][h] == chain[h];
  }

  // ----- What every input satisfies -----

  lemma ValidParts(rules: Rules, ctx: Context, tx: Tx, j: nat)
    requires TxValid(rules, ctx, tx) && j < |tx.ins| && !tx.IsCoinbase()
    ensures RightlySpent(rules, ctx, tx, tx.ins[j])
    ensures LockPassed(tx, Times(ctx.blocks))
    ensures InputLockOk(tx.ins[j], ctx.utxos, Times(ctx.blocks), |ctx.blocks|, MedianTimePast(Times(ctx.blocks)))
  {
    hide BasicsOk, InputSum, OutSum, InputLockOk, InputOk, LockTimeOk, LockPassed, MedianTimePast, RightlySpent;
    InputsOkIff(rules, ctx, tx);
    LockTimeOkIff(tx, Times(ctx.blocks));
  }

  lemma UnspentIsSpentRightly(rules: Rules, ctx: Context, tx: Tx, txIn: TxIn)
    requires RightlySpent(rules, ctx, tx, txIn) && txIn.toSpend.Some? && txIn.toSpend.value in ctx.utxos
    ensures var u := ctx.utxos[txIn.toSpend.value];
            rules.sigOk(tx, txIn, u) && (u.isCoinbase ==> u.height + COINBASE_MATURITY <= |ctx.blocks|)
  {
    hide FromSibling, FromPool;
  }

  lemma NotCoinbase(rules: Rules, b: Block, k: nat)
    requires Shape(rules, b) && 0 < k < |b.txs|
    ensures !b.txs[k].IsCoinbase() && b.txs[1..][k - 1] == b.txs[k]
  {
    ShapeParts(rules, b);
    hide Shape;
  }

  /** Every input of a validated block but the coinbase's spends an output that an earlier block made and
      no earlier block has spent. It signs for that output; a coinbase output is spent only after two
      blocks more; and both locks have passed. */
  lemma EveryInputIsLawful(setup: Setup, known: iset<Block>, chain: seq<Block>, i: nat, k: nat, j: nat)
    returns (h: nat, l: nat)
    requires World(setup, known) && Validated(setup, known, chain) && |setup.base| <= i < |chain|
    requires 0 < k < |chain[i].txs| && j < |chain[i].txs[k].ins|
    ensures chain[i].txs[k].ins[j].toSpend.Some? && |setup.base| <= h < i
    ensures var tx := chain[i].txs[k];
            var p := tx.ins[j].toSpend.value;
            && MakesAt(chain[h], l, p) && (forall m | |setup.base| <= m < i :: !Takes(chain[m], p))
            && setup.rules.sigOk(tx, tx.ins[j], Utxo(chain[h].txs[l].outs[p.idx], p, l == 0, h + 1))
            && (l == 0 ==> h + 1 + COINBASE_MATURITY <= i)
            && LockPassed(tx, Times(chain[..i])) && RelativeLockPassed(Times(chain[..i]), tx.ins[j].sequence, h)
  {
    hide *;
    var b, before, base := chain[i], chain[..i], |setup.base|;
    KnownBlock(setup, known, chain, i);
    ShortChain(setup, known, chain);
    SmallerHeights(i, |chain|);
    PrefixIsChain(setup, known, chain, i);
    ContextOfTip(setup, before, b);
    var utxos := Fold(base, before);
    var ctx := Context(utxos, b.txs[1..], map[], before);
    ContextIs(before, utxos, b);
    NotCoinbase(setup.rules, b, k);
    AllValid(setup.rules, before, utxos, b, k - 1);
    ValidParts(setup.rules, ctx, b.txs[k], j);
    InputsAreUnspent(setup.rules, before, utxos, b, k - 1);
    var txIn := b.txs[k].ins[j];
    var p := txIn.toSpend.value;
    UnspentIsSpentRightly(setup.rules, ctx, b.txs[k], txIn);
    UnspentIff(setup, known, before, p);
    h, l := MadeAt(before, base, p);
    EntryIs(setup, known, before, p, h, l);
    InputLockOkIff(txIn, utxos, Times(before));
    StillThere(before, base, p);
    assert forall m | base <= m < i :: before[m] == chain[m];
  }

  lemma ContextIs(chain: seq<Block>, utxos: UtxoMap, b: Block)
    requires b.txs != []
    ensures BlockContext(chain, utxos, b) == Context(utxos, b.txs[1..], map[], chain)
  {
  }

  lemma MadeAt(chain: seq<Block>, base: nat, p: OutPoint) returns (h: nat, l: nat)
    requires Made(chain, base, p)
    ensures base <= h < |chain| && MakesAt(chain[h], l, p)
  {
    hide MakesAt;
    h :| base <= h < |chain| && Makes(chain[h], p);
    l :| MakesAt(chain[h], l, p);
  }

  lemma StillThere(chain: seq<Block>, base: nat, p: OutPoint)
    requires !Taken(chain, base, p)
    ensures forall m | base <= m < |chain| :: !Takes(chain[m], p)
  {
    hide Takes;
  }
}
