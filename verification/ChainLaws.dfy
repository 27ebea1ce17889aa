/** Laws of validated chains: median time, lock times and the money supply over whole runs. */
module ChainLaws {
  import opened Types
  import opened TxRules
  import opened MedianTime
  import opened Ledger
  import opened ChainSpec
  import opened Supply
  import Merkle

  // ----- Times -----

  ghost predicate BaseIsDated(setup: Setup) {
    forall i | 0 <= i < |setup.base| :: setup.base[i].timestamp > 0
  }

  lemma ValidatedTimes(setup: Setup, known: iset<Block>, chain: seq<Block>)
    requires Validated(setup, known, chain) && BaseIsDated(setup)
    ensures TimesRise(Times(chain), |setup.base|)
  {
    var times := Times(chain);
    hide Shape, ContextOk, MedianTimePast;
    forall i | |setup.base| <= i < |times|
      ensures times[i] > MedianTimePast(times[..i])
    {
      assert ConnectsTo(setup, chain[..i], chain[i]);
      assert Times(chain[..i]) == times[..i];
    }
    forall i | 0 <= i < |times| && i < |setup.base|
      ensures times[i] > 0
    {
      assert chain[i] == chain[..|setup.base|][i] == setup.base[i];
    }
  }

  /** Along any run of validated blocks the median time past never decreases. */
  lemma MedianNeverFalls(setup: Setup, known: iset<Block>, chain: seq<Block>, later: seq<Block>)
    requires Validated(setup, known, later) && BaseIsDated(setup)
    requires |setup.base| <= |chain| <= |later| && chain == later[..|chain|]
    ensures MedianTimePast(Times(chain)) <= MedianTimePast(Times(later))
  {
    ValidatedTimes(setup, known, later);
    assert Times(later)[..|chain|] == Times(chain);
    hide Validated, MedianTimePast, TimesRise;
    NeverDecreases(Times(chain), Times(later), |setup.base|);
  }

  // ----- Unspent outputs keep their entry -----

  lemma LookUpStable(chain: seq<Block>, later: seq<Block>, p: OutPoint)
    requires FitsHeight(|later|) && |chain| <= |later| && chain == later[..|chain|]
    requires LookUp(chain, p).Some?
    ensures LookUp(later, p) == LookUp(chain, p)
  {
    FindTxStable(later, |chain|, p.txId);
  }

  lemma {:induction false} UniqueOfPrefix(chain: seq<Block>, later: seq<Block>)
    requires UniqueIds(later) && |chain| <= |later| && chain == later[..|chain|]
    ensures UniqueIds(chain)
  {
    UniquePrefix(later, |chain|);
  }

  /** An output unspent at two tips of one chain has the same value, origin and height at both. */
  lemma UnspentIsTheSame(base: nat, chain: seq<Block>, later: seq<Block>, p: OutPoint)
    requires FitsHeight(|later|) && UniqueIds(later) && |chain| <= |later| && chain == later[..|chain|]
    requires p in Fold(base, chain) && p in Fold(base, later)
    ensures Fold(base, chain)[p] == Fold(base, later)[p]
    ensures 1 <= Fold(base, chain)[p].height <= |chain|
  {
    hide *;
    UniqueOfPrefix(chain, later);
    SmallerFits(|chain|, |later|);
    FoldAgreesWithChain(base, chain, p);
    FoldAgreesWithChain(base, later, p);
    LookUpStable(chain, later, p);
  }

  lemma SmallerFits(a: nat, b: nat)
    requires FitsHeight(b) && a <= b
    ensures FitsHeight(a)
  {
  }

  ghost predicate SameInputs(tx: Tx, utxos: UtxoMap, utxos': UtxoMap) {
    forall i | 0 <= i < |tx.ins| && tx.ins[i].toSpend.Some? ::
      (tx.ins[i].toSpend.value in utxos <==> tx.ins[i].toSpend.value in utxos')
  }

  /** A transaction that passes the lock-time and sequence-lock checks at a tip passes them at every
      validated extension in which what it could spend is still unspent. */
  lemma LocksSurvive(setup: Setup, known: iset<Block>, tx: Tx, chain: seq<Block>, later: seq<Block>)
    requires World(setup, known) && Validated(setup, known, later) && BaseIsDated(setup)
    requires |setup.base| <= |chain| <= |later| && chain == later[..|chain|]
    ensures FitsHeight(|later|)
    ensures var base := |setup.base|;
            SameInputs(tx, Fold(base, chain), Fold(base, later)) && LocksOk(tx, Fold(base, chain), Times(chain)) ==>
              LocksOk(tx, Fold(base, later), Times(later))
  {
    assert Tame(setup, later);
    ValidatedIsUnique(setup, known, later);
    ValidatedTimes(setup, known, later);
    assert Times(later)[..|chain|] == Times(chain);
    var base := |setup.base|;
    hide World, Validated, Fold, UniqueIds, Work, TimesRise, LocksOk, NoSameBlockSpend;
    UniqueOfPrefix(chain, later);
    var u, u' := Fold(base, chain), Fold(base, later);
    forall p | p in u
      ensures 1 <= u[p].height <= |chain|
    {
      FoldAgreesWithChain(base, chain, p);
    }
    if SameInputs(tx, u, u') && LocksOk(tx, u, Times(chain)) {
      forall i | 0 <= i < |tx.ins| && tx.ins[i].toSpend.Some? && tx.ins[i].toSpend.value in u
        ensures u[tx.ins[i].toSpend.value] == u'[tx.ins[i].toSpend.value]
      {
        UnspentIsTheSame(base, chain, later, tx.ins[i].toSpend.value);
      }
      LocksPersist(tx, u, Times(chain), u', Times(later), base);
    }
  }

  // ----- Supply -----

  lemma ValidatedIsSound(setup: Setup, known: iset<Block>, chain: seq<Block>, i: nat)
    requires World(setup, known) && Validated(setup, known, chain) && |setup.base| <= i < |chain|
    requires OrderedSpends(chain[i].txs)
    ensures FitsHeight(i)
    ensures Sound(setup.rules, chain[..i], Fold(|setup.base|, chain[..i]), map[], chain[i])
  {
    hide *;
    TameFacts(setup, known, chain, i);
    UniquePrefix(chain, i);
    forall p | p in Fold(|setup.base|, chain[..i])
      ensures p.txId !in IdsOf(chain[i].txs)
    {
      FoldAgreesWithChain(|setup.base|, chain[..i], p);
    }
    SoundFrom(setup, chain[..i], chain[i]);
  }

  lemma TameFacts(setup: Setup, known: iset<Block>, chain: seq<Block>, i: nat)
    requires World(setup, known) && Validated(setup, known, chain) && |setup.base| <= i < |chain|
    ensures UniqueIds(chain) && FitsHeight(i) && FitsHeight(|chain|)
    ensures ConnectsTo(setup, chain[..i], chain[i])
    ensures IdsOf(chain[i].txs) !! ChainIds(chain[..i])
  {
    hide *;
    KnownBlock(setup, known, chain, i);
    SmallerHeights(i, |chain|);
    ValidatedIsUnique(setup, known, chain);
    FreshAt(chain, i);
  }

  lemma TameChain(setup: Setup, known: iset<Block>, chain: seq<Block>)
    requires World(setup, known) && Validated(setup, known, chain)
    ensures |setup.base| <= |chain| && FitsHeight(|chain|)
  {
    hide ConnectsTo, NoSameBlockSpend, Work, UniqueIds, Shape;
    assert Tame(setup, chain);
  }

  lemma SoundFrom(setup: Setup, before: seq<Block>, b: Block)
    requires FitsHeight(|before|) && ConnectsTo(setup, before, b) && OrderedSpends(b.txs)
    requires forall p | p in Fold(|setup.base|, before) :: p.txId !in IdsOf(b.txs)
    ensures Sound(setup.rules, before, Fold(|setup.base|, before), map[], b)
  {
    hide Shape, ContextOk, OrderedSpends, Fold, TimeOk, IdsOf;
  }

  /** In every state of the node the money in circulation is within what its heights could issue,
      provided no block spends an output twice. */
  lemma ValidatedSupply(setup: Setup, known: iset<Block>, chain: seq<Block>)
    requires World(setup, known) && Validated(setup, known, chain)
    requires forall i | |setup.base| <= i < |chain| :: OrderedSpends(chain[i].txs)
    ensures FitsHeight(|chain|)
    ensures Total(Fold(|setup.base|, chain)) <= SubsidySum(|chain|) <= MAX_MONEY
  {
    hide World, Validated, Tame, Sound, OrderedSpends, Fold, Total, SubsidySum, IsChain, ConnectsTo, Shape,
         ContextOk, Work;
    TameChain(setup, known, chain);
    var pools := seq(|chain|, _ => map[]);
    forall i | |setup.base| <= i < |chain|
      ensures Sound(setup.rules, chain[..i], Fold(|setup.base|, chain[..i]), pools[i], chain[i])
    {
      ValidatedIsSound(setup, known, chain, i);
    }
    SupplyIsBounded(setup, chain, pools);
  }

  // ----- What the header commits to -----

  /** Two well-shaped blocks with the same Merkle root have the same transaction ids in the same
      order, for a hash without collisions and ids that are no hashes of two nodes. */
  lemma SameMerkleSameTxs(rules: Rules, a: Block, b: Block)
    requires Shape(rules, a) && Shape(rules, b) && a.merkle == b.merkle && Merkle.Injective(rules.nodeHash)
    requires Merkle.AllLeaves(rules.nodeHash, Merkle.TxIds(a.txs)) &&
             Merkle.AllLeaves(rules.nodeHash, Merkle.TxIds(b.txs))
    ensures Merkle.TxIds(a.txs) == Merkle.TxIds(b.txs)
    ensures (forall t, u | t in a.txs && u in b.txs && t.id == u.id :: t == u) ==> a.txs == b.txs
  {
    var xs, ys := Merkle.TxIds(a.txs), Merkle.TxIds(b.txs);
    ShapeMerkle(rules, a);
    ShapeMerkle(rules, b);
    hide Shape, Merkle.Injective, Merkle.AllLeaves, Merkle.Root, Merkle.Distinct;
    Merkle.RootBinds(rules.nodeHash, xs, ys);
    if forall t, u | t in a.txs && u in b.txs && t.id == u.id :: t == u {
      forall i | 0 <= i < |a.txs|
        ensures a.txs[i] == b.txs[i]
      {
        assert xs[i] == ys[i] && a.txs[i] in a.txs && b.txs[i] in b.txs;
      }
    }
  }

  lemma ShapeMerkle(rules: Rules, b: Block)
    requires Shape(rules, b)
    ensures b.txs != [] && Merkle.Distinct(Merkle.TxIds(b.txs))
    ensures b.merkle == Some(Merkle.Root(rules.nodeHash, Merkle.TxIds(b.txs)))
  {
    hide BasicsOk, Merkle.Root;
  }
}
