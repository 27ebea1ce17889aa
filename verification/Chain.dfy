/** The chain state machine: connecting, disconnecting, reorganising, orphans and saving. */
module Chain {
  import opened Types
  import opened TxRules
  import opened MedianTime
  import opened Ledger
  import opened ChainSpec
  import opened Branches
  import opened BlockLaws
  import opened Bytes
  import Validation

  const MAX_ORPHANS: nat := 50
  const ORPHAN_EXPIRE_SECS: int := 60 * 60

  datatype Orphan = Orphan(block: Block, addedTime: int)

  // ----- Orphans -----

  ghost predicate OrphansOk(known: iset<Block>, orphans: seq<Orphan>) {
    && |orphans| <= MAX_ORPHANS
    && (forall i | 0 <= i < |orphans| :: orphans[i].block in known && orphans[i].block.prev.Some?)
    && (forall i, j | 0 <= i < j < |orphans| && orphans[i].block.prev == orphans[j].block.prev ::
          orphans[i].block.id != orphans[j].block.id)
  }

  ghost predicate NoneKeyed(orphans: seq<Orphan>, parent: Id) {
    forall i | 0 <= i < |orphans| :: orphans[i].block.prev != Some(parent)
  }

  ghost predicate SubList(now: seq<Orphan>, before: seq<Orphan>) {
    |now| <= |before| && forall i | 0 <= i < |now| :: now[i] in before
  }

  // ----- The chain file -----

  /** The serialized blocks after the first one. */
  ghost function Body(rules: Rules, chain: seq<Block>): seq<Byte> {
    if |chain| <= 1 then [] else Body(rules, chain[..|chain| - 1]) + rules.blockBytes(chain[|chain| - 1])
  }

  /** What a full rewrite of the file writes. */
  ghost function FullFile(rules: Rules, chain: seq<Block>): seq<Byte>
    requires chain != []
  {
    LittleEndian(|chain| - 1, 4) + Body(rules, chain)
  }

  ghost predicate FileOk(rules: Rules, active: seq<Block>, lastSavedHeight: nat, file: seq<Byte>) {
    lastSavedHeight > 0 ==>
      lastSavedHeight < |active| && file == FullFile(rules, active[..lastSavedHeight + 1])
  }

  lemma AppendToActive(setup: Setup, known: iset<Block>, active: seq<Block>, b: Block, clock: int,
                       rules: Rules, lastSavedHeight: nat, file: seq<Byte>)
    requires World(setup, known) && Validated(setup, known, active) && TimesWithin(active, |setup.base|, clock)
    requires DistinctBlocks(active) && FileOk(rules, active, lastSavedHeight, file)
    requires b in known && Joins(setup, active, b, clock)
    ensures var next := active + [b];
            && Validated(setup, known, next) && TimesWithin(next, |setup.base|, clock)
            && DistinctBlocks(next) && FileOk(rules, next, lastSavedHeight, file)
            && FitsHeight(|next|)
            && Fold(|setup.base|, next) == ApplyTxs(Fold(|setup.base|, active), b.txs, |next|)
            && IndexOf(next) == IndexOf(active)[b.id := |active|]
  {
    var next := active + [b];
    hide Validated, World, ConnectsTo, IsChain, ApplyTxs, Fold, IndexOf, FileOk, TimesWithin, DistinctBlocks, Has;
    ExtendValidated(setup, known, active, b);
    ChainLength(setup, known, active);
    ConnectsFits(setup, active, b);
    FoldNext(|setup.base|, active, b);
    AppendKeeps(active, b, |setup.base|, clock, rules, lastSavedHeight, file);
  }

  lemma ChainLength(setup: Setup, known: iset<Block>, active: seq<Block>)
    requires Validated(setup, known, active)
    ensures |setup.base| <= |active|
  {
  }

  lemma ConnectsFits(setup: Setup, active: seq<Block>, b: Block)
    requires ConnectsTo(setup, active, b)
    ensures FitsHeight(|active| + 1)
  {
  }

  lemma FoldNext(base: nat, active: seq<Block>, b: Block)
    requires base <= |active| && FitsHeight(|active| + 1)
    ensures Fold(base, active + [b]) == ApplyTxs(Fold(base, active), b.txs, |active| + 1)
    ensures IndexOf(active + [b]) == IndexOf(active)[b.id := |active|]
  {
    assert (active + [b])[..|active|] == active;
  }

  lemma AppendKeeps(active: seq<Block>, b: Block, base: nat, clock: int, rules: Rules, lastSavedHeight: nat,
                    file: seq<Byte>)
    requires TimesWithin(active, base, clock) && b.timestamp - clock <= MAX_FUTURE_BLOCK_TIME
    requires DistinctBlocks(active) && !Has(active, b.id)
    requires FileOk(rules, active, lastSavedHeight, file)
    ensures TimesWithin(active + [b], base, clock) && DistinctBlocks(active + [b])
    ensures FileOk(rules, active + [b], lastSavedHeight, file)
  {
    var next := active + [b];
    if lastSavedHeight > 0 {
      assert next[..lastSavedHeight + 1] == active[..lastSavedHeight + 1];
    }
    assert forall i | 0 <= i < |active| :: next[i] == active[i];
  }

  class Node {
    const setup: Setup
    ghost const known: iset<Block>

    var activeChain: seq<Block>
    var sideBranches: seq<seq<Block>>
    var orphanBlocks: seq<Orphan>
    var activeChainIndex: map<Id, nat>
    var utxos: UtxoMap
    /** The mempool as far as blocks touch it: id to transaction. */
    var pool: map<Id, Tx>
    var lastSavedHeight: nat
    var file: seq<Byte>
    /** The wall clock at the current step; it never runs backwards. */
    var clock: int
    /** Set when the source would read outside a vector: a side branch that is empty, or heavier
        than the active chain and rooted on none of its blocks. */
    var outOfRange: bool

    /** The UTXO map and the index are caches of the active chain. */
    ghost predicate CachesOk()
      reads this
    {
      && FitsHeight(|activeChain|)
      && utxos == Fold(|setup.base|, activeChain)
      && activeChainIndex == IndexOf(activeChain)
    }

    ghost function State(): Chains
      reads this
    {
      Chains(activeChain, sideBranches, pool, outOfRange)
    }

    lemma StateIs()
      ensures State() == Chains(activeChain, sideBranches, pool, outOfRange)
    {
    }

    ghost predicate Valid()
      reads this
    {
      && World(setup, known)
      && Validated(setup, known, activeChain)
      && TimesWithin(activeChain, |setup.base|, clock)
      && DistinctBlocks(activeChain)
      && CachesOk()
      && SidesOk(setup, known, sideBranches)
      && (activeChain == [] ==> sideBranches == [])
      && OrphansOk(known, orphanBlocks)
      && FileOk(setup.rules, activeChain, lastSavedHeight, file)
    }

    constructor (setup: Setup, ghost known: iset<Block>, now: int)
      requires World(setup, known)
      requires forall b | b in setup.base :: b in known && b.prev.None?
      ensures Valid()
      ensures activeChain == setup.base && sideBranches == [] && orphanBlocks == [] && utxos == map[]
      ensures !outOfRange && lastSavedHeight == 0 && clock == now
    {
      this.setup, this.known := setup, known;
      activeChain, sideBranches, orphanBlocks := setup.base, [], [];
      activeChainIndex := if setup.base == [] then map[] else map[setup.base[0].id := 0];
      utxos, pool := map[], map[];
      lastSavedHeight, file, clock, outOfRange := 0, [], now, false;
      new;
      if setup.base != [] {
        assert setup.base[0] in setup.base;
      }
      assert IsChain(setup, known, setup.base);
      assert Tame(setup, setup.base);
    }

    // ----- Steps that always go to one chain -----

    /** locate_block_in_all_chains. */
    method LocateInAllChains(id: Id) returns (r: Option<nat>)
      requires Valid()
      ensures r == Locate(activeChain, sideBranches, id)
    {
      hide World, Validated, SidesOk, OrphansOk, FileOk, TimesWithin, Fold, IndexOf;
      IndexFinds(activeChain, id);
      if id in activeChainIndex {
        return Some(0);
      }
      for k := 0 to |sideBranches|
        invariant FirstSide(sideBranches[..k], id) == 0
      {
        assert sideBranches[..k + 1][..k] == sideBranches[..k];
        var found := ContainsBlock(sideBranches[k], id);
        if found {
          FirstSidePrefix(sideBranches, k + 1, id);
          return Some(k + 1);
        }
      }
      assert sideBranches[..|sideBranches|] == sideBranches;
      r := None;
    }

    /** validate_block, without the effects of its caller. */
    method ValidateBlock(b: Block) returns (v: Verdict)
      requires Valid()
      ensures v == VerdictOn(setup.rules, activeChain, sideBranches, utxos, pool, b, clock)
      ensures Decides(setup.rules, activeChain, sideBranches, utxos, pool, b, clock, v)
    {
      VerdictIff(setup.rules, activeChain, sideBranches, utxos, pool, b, clock);
      hide Decides;
      hide World, Validated, SidesOk, OrphansOk, FileOk, TimesWithin, Fold, IndexOf, DistinctBlocks, Shape, ContextOk;
      var shapeOk := Validation.CheckShape(setup.rules, b);
      if !shapeOk || b.timestamp - clock > MAX_FUTURE_BLOCK_TIME {
        return Rejected;
      }
      var mtp := GetMedianTimePast(activeChain, WINDOW);
      if b.timestamp <= mtp {
        return Rejected;
      }
      if b.prev.Some? {
        var prev := LocateInAllChains(b.prev.value);
        if prev.None? {
          return Orphaned;
        }
        if prev.value != 0 {
          return Accepted(prev.value);
        }
        if activeChain[|activeChain| - 1].id != b.prev.value {
          return Accepted(|sideBranches| + 1);
        }
      }
      HasTxs(setup.rules, b);
      var contextOk := Validation.CheckContext(setup.rules, activeChain, utxos, pool, b);
      v := if contextOk then Accepted(0) else Rejected;
    }

    /** The state update of connect_block once the destination is known. */
    method Append(b: Block, chainIdx: nat)
      requires Valid() && b in known && Shape(setup.rules, b)
      requires chainIdx == 0 ==> Joins(setup, activeChain, b, clock)
      requires chainIdx > 0 ==> b.prev.Some? && chainIdx <= |sideBranches| + 1 && activeChain != []
      requires 0 < chainIdx <= |sideBranches| ==> Has(sideBranches[chainIdx - 1], b.prev.value)
      modifies this`activeChain, this`sideBranches, this`activeChainIndex, this`utxos, this`pool
      ensures Valid()
      ensures chainIdx == 0 ==> activeChain == old(activeChain) + [b] && sideBranches == old(sideBranches)
      ensures chainIdx > 0 ==> activeChain == old(activeChain)
      ensures 0 < chainIdx <= old(|sideBranches|) ==>
                sideBranches == old(sideBranches)[chainIdx - 1 := old(sideBranches)[chainIdx - 1] + [b]]
      ensures chainIdx == old(|sideBranches|) + 1 ==> sideBranches == old(sideBranches) + [[b]]
      ensures pool == if chainIdx == 0 then old(pool) - IdsOf(b.txs) else old(pool)
    {
      hide World, Validated, OrphansOk, FileOk, TimesWithin, Fold, IndexOf, DistinctBlocks, Shape, Joins, BranchOk,
           Has, ApplyTxs, IdsOf;
      if chainIdx == 0 {
        AppendToActive(setup, known, activeChain, b, clock, setup.rules, lastSavedHeight, file);
        activeChain := activeChain + [b];
        activeChainIndex := activeChainIndex[b.id := |activeChain| - 1];
        pool := RemoveEntries(pool, b.txs);
        utxos := ConnectTxs(utxos, b.txs, |activeChain|);
      } else {
        if |sideBranches| < chainIdx {
          EmptyBranchOk(setup, known);
          sideBranches := sideBranches + [[]];
        }
        AppendToBranch(setup, known, sideBranches[chainIdx - 1], b);
        assert sideBranches[chainIdx - 1] + [b] == if chainIdx <= old(|sideBranches|) then old(sideBranches)[chainIdx - 1] + [b] else [b];
        sideBranches := sideBranches[chainIdx - 1 := sideBranches[chainIdx - 1] + [b]];
      }
    }

    /** connect_block with doing_reorg set: only the active chain is searched for the block, and
        neither a reorganisation nor the orphan pool is touched. */
    method ConnectDuringReorg(b: Block) returns (r: int)
      requires Valid() && b in known
      requires b.prev.Some? && Has(activeChain, b.prev.value)
      modifies this`activeChain, this`sideBranches, this`activeChainIndex, this`utxos, this`pool
      ensures Valid()
      ensures r == 0 <==> Joins(setup, old(activeChain), b, clock)
      ensures r > 0 <==> OpensStray(setup, old(activeChain), b, clock)
      ensures activeChain == if r == 0 then old(activeChain) + [b] else old(activeChain)
      ensures sideBranches == if r > 0 then old(sideBranches) + [[b]] else old(sideBranches)
      ensures pool == if r == 0 then old(pool) - IdsOf(b.txs) else old(pool)
    {
      hide World, Validated, SidesOk, OrphansOk, FileOk, TimesWithin, Fold, IndexOf, DistinctBlocks, Shape,
           ContextOk, ConnectsTo, TimeOk;
      IndexFinds(activeChain, b.id);
      if b.id in activeChainIndex {
        return -1;
      }
      assert activeChain != [];
      ValidatedIsChain(setup, known, activeChain);
      ZeroVerdict(setup, known, activeChain, sideBranches, pool, b, clock);
      var v := ValidateBlock(b);
      if !v.Accepted? {
        return -1;
      }
      Append(b, v.chainIdx);
      r := v.chainIdx;
    }

    // ----- Disconnecting -----

    /** The body of disconnect_block. The first block is never disconnected. */
    method DisconnectTip() returns (back: Block)
      requires Valid() && |activeChain| >= 2
      modifies this`activeChain, this`activeChainIndex, this`utxos, this`pool, this`lastSavedHeight
      ensures Valid()
      ensures back == old(activeChain)[|old(activeChain)| - 1]
      ensures activeChain == old(activeChain)[..|old(activeChain)| - 1]
      ensures pool == ReAdded(old(pool), back.txs) && lastSavedHeight == 0
      ensures forall tx | PutBack(back.txs, tx) :: tx.id in pool && pool[tx.id] == tx
    {
      hide World, Validated, SidesOk, OrphansOk, FileOk, TimesWithin, Fold, IndexOf, DistinctBlocks, UndoTxs, AllIns,
           LookUp, ReAdded, PutBack;
      var n := |activeChain| - 1;
      back := activeChain[n];
      BaseIsShort(setup, known);
      TipIsPutBack(setup, known, activeChain, pool);
      TipUndo(setup, known, activeChain);
      IndexUndo(activeChain);
      DropTip(setup, known, activeChain, clock);
      pool := ReAddEntries(pool, back.txs);
      var lost;
      utxos, lost := DisconnectTxs(utxos, back.txs, activeChain);
      assert lost == {};
      activeChainIndex := activeChainIndex - {back.id};
      activeChain := activeChain[..n];
      lastSavedHeight := 0;
      NothingSaved(setup.rules, activeChain, file);
    }

    /** disconnect_block: `None` is the exception for a block that is not the tip. */
    method DisconnectBlock(b: Block) returns (r: Option<Block>)
      requires Valid() && |activeChain| >= 2
      modifies this`activeChain, this`activeChainIndex, this`utxos, this`pool, this`lastSavedHeight
      ensures Valid()
      ensures b.id != old(activeChain)[|old(activeChain)| - 1].id ==>
                r.None? && activeChain == old(activeChain) && pool == old(pool) && lastSavedHeight == old(lastSavedHeight)
      ensures b.id == old(activeChain)[|old(activeChain)| - 1].id ==>
                && r == Some(old(activeChain)[|old(activeChain)| - 1])
                && activeChain == old(activeChain)[..|old(activeChain)| - 1]
                && pool == ReAdded(old(pool), r.value.txs) && lastSavedHeight == 0
    {
      hide *;
      if b.id != activeChain[|activeChain| - 1].id {
        return None;
      }
      var back := DisconnectTip();
      r := Some(back);
    }

    method DisconnectToFork(forkId: Id, ghost f: nat) returns (disconnected: seq<Block>)
      requires Valid() && f < |activeChain| && activeChain[f].id == forkId
      modifies this`activeChain, this`activeChainIndex, this`utxos, this`pool, this`lastSavedHeight
      ensures Valid()
      ensures activeChain == old(activeChain)[..f + 1] && disconnected == old(activeChain)[f + 1..]
      ensures pool == PoolBefore(old(pool), disconnected)
      ensures lastSavedHeight == if f + 1 < old(|activeChain|) then 0 else old(lastSavedHeight)
    {
      hide *;
      ValidParts();
      disconnected := [];
      ghost var oldActive, n := activeChain, |activeChain|;
      while activeChain[|activeChain| - 1].id != forkId
        invariant Valid()
        invariant f < n == |activeChain| <= |oldActive|
        invariant activeChain == oldActive[..n] && disconnected == oldActive[n..]
        invariant PoolBefore(old(pool), oldActive[f + 1..]) == PoolBefore(pool, oldActive[f + 1..n])
        invariant lastSavedHeight == if n < |oldActive| then 0 else old(lastSavedHeight)
        decreases n
      {
        CutStep(oldActive, n, f);
        PoolBeforeStep(pool, oldActive[f + 1..n]);
        assert oldActive[f + 1..n][..n - f - 2] == oldActive[f + 1..n - 1];
        var block := DisconnectTip();
        disconnected := [block] + disconnected;
        n := n - 1;
      }
      SamePlace(oldActive, |activeChain| - 1, f);
      PoolBeforeNone(pool, oldActive[f + 1..n]);
    }

    // ----- Reorganising -----

    lemma ValidParts()
      requires Valid()
      ensures World(setup, known) && Validated(setup, known, activeChain) && |setup.base| <= 1
      ensures TimesWithin(activeChain, |setup.base|, clock) && DistinctBlocks(activeChain)
      ensures SidesOk(setup, known, sideBranches) && OrphansOk(known, orphanBlocks)
      ensures IsChain(setup, known, activeChain) && Tame(setup, activeChain)
      ensures FileOk(setup.rules, activeChain, lastSavedHeight, file)
      ensures activeChain == [] ==> sideBranches == []
      ensures activeChainIndex == IndexOf(activeChain)
      ensures FitsHeight(|activeChain|) && utxos == Fold(|setup.base|, activeChain)
    {
      hide SidesOk, OrphansOk, FileOk, TimesWithin, DistinctBlocks, IndexOf, Tame, ConnectsTo, Shape;
    }

    /** rollback_reorg: the assertion in it, that every old block connects again, never fails. */
    method RollbackReorg(oldTail: seq<Block>, forkId: Id, ghost f: nat, ghost oldActive: seq<Block>)
      requires Valid() && f < |oldActive| && f < |activeChain|
      requires Validated(setup, known, oldActive) && TimesWithin(oldActive, |setup.base|, clock) &&
               DistinctBlocks(oldActive)
      requires oldTail == oldActive[f + 1..] && activeChain[..f + 1] == oldActive[..f + 1] && oldActive[f].id == forkId
      modifies this`activeChain, this`sideBranches, this`activeChainIndex, this`utxos, this`pool, this`lastSavedHeight
      ensures Valid()
      ensures activeChain == oldActive && sideBranches == old(sideBranches)
      ensures pool == PoolAfter(PoolBefore(old(pool), old(activeChain)[f + 1..]), oldTail)
      ensures lastSavedHeight == 0 || lastSavedHeight == old(lastSavedHeight)
    {
      hide *;
      ValidParts();
      assert activeChain[f] == activeChain[..f + 1][f] == oldActive[..f + 1][f];
      var undone := DisconnectToFork(forkId, f);
      ghost var unwound := pool;
      PoolAfterNone(unwound, oldTail);
      for k := 0 to |oldTail|
        invariant Valid() && sideBranches == old(sideBranches)
        invariant lastSavedHeight == 0 || lastSavedHeight == old(lastSavedHeight)
        invariant activeChain == oldActive[..f + 1 + k]
        invariant pool == PoolAfter(unwound, oldTail[..k])
      {
        ValidParts();
        Rejoins(setup, known, oldActive, clock, f + 1 + k);
        var r := ConnectDuringReorg(oldTail[k]);
        assert r == 0;
        assert oldActive[..f + 1 + k] + [oldTail[k]] == oldActive[..f + 1 + k + 1];
        PoolAfterStep(unwound, oldTail, k);
      }
      assert oldTail[..|oldTail|] == oldTail;
      assert oldActive[..|oldActive|] == oldActive;
    }

    /** The loop of try_reorg: connect the branch up to its first block that does not join. */
    method ConnectBranch(branch: seq<Block>) returns (n: nat)
      requires Valid() && activeChain != [] && branch != [] && BranchOk(setup, known, branch)
      requires branch[0].prev == Some(activeChain[|activeChain| - 1].id)
      modifies this`activeChain, this`sideBranches, this`activeChainIndex, this`utxos, this`pool
      ensures Valid()
      ensures n == Joining(setup, old(activeChain), branch, clock) <= |branch|
      ensures activeChain == old(activeChain) + branch[..n] && pool == PoolAfter(old(pool), branch[..n])
      ensures sideBranches == old(sideBranches) + Strays(setup, old(activeChain), branch, clock)
    {
      hide *;
      ghost var prefix, oldSides, oldPool := activeChain, sideBranches, pool;
      PoolAfterNone(oldPool, branch);
      assert prefix + branch[..0] == prefix;
      n := 0;
      while n < |branch|
        invariant 0 <= n <= |branch|
        invariant Valid() && sideBranches == oldSides
        invariant activeChain == prefix + branch[..n] && pool == PoolAfter(oldPool, branch[..n])
        invariant forall j | 0 <= j < n :: Joins(setup, prefix + branch[..j], branch[j], clock)
      {
        BranchPrevOnChain(setup, known, prefix, branch, n);
        var r := ConnectDuringReorg(branch[n]);
        if r != 0 {
          JoiningIs(setup, prefix, branch, clock, n);
          StraysAre(setup, prefix, branch, clock, n, r > 0);
          return;
        }
        assert (prefix + branch[..n]) + [branch[n]] == prefix + branch[..n + 1];
        PoolAfterStep(oldPool, branch, n);
        n := n + 1;
      }
      JoiningIs(setup, prefix, branch, clock, n);
      NoStrays(setup, prefix, branch, clock);
    }

    /** try_reorg: either the branch replaces the active chain behind the fork, or the active chain is
        as before, with a stray side branch if the first block that did not join opened one. */
    method TryReorg(branch: seq<Block>, branchIdx: nat, forkIdx: nat) returns (ok: bool)
      requires Valid()
      requires 1 <= branchIdx <= |sideBranches| && sideBranches[branchIdx - 1] == branch
      requires forkIdx < |activeChain| && branch != [] && branch[0].prev == Some(activeChain[forkIdx].id)
      modifies this`activeChain, this`sideBranches, this`activeChainIndex, this`utxos, this`pool, this`lastSavedHeight
      ensures Valid()
      ensures ok <==> BranchConnects(setup, old(activeChain)[..forkIdx + 1], branch, clock)
      ensures State() == AfterTry(setup, old(State()), branchIdx - 1, forkIdx, clock)
      ensures ok ==> activeChain == old(activeChain)[..forkIdx + 1] + branch
      ensures ok ==> sideBranches == old(sideBranches)[..branchIdx - 1] + old(sideBranches)[branchIdx..] + [old(activeChain)[forkIdx + 1..]]
      ensures !ok ==> activeChain == old(activeChain)
      ensures !ok ==> sideBranches == old(sideBranches) + Strays(setup, activeChain[..forkIdx + 1], branch, clock)
      ensures lastSavedHeight == 0 || lastSavedHeight == old(lastSavedHeight)
    {
      hide *;
      ValidParts();
      BranchOfSides(setup, known, sideBranches, branchIdx - 1);
      StateIs();
      ghost var oldActive, start := activeChain, State();
      var forkId := activeChain[forkIdx].id;
      var oldTail := DisconnectToFork(forkId, forkIdx);
      ghost var prefix := activeChain;
      var n := ConnectBranch(branch);
      TryConnects(setup, start, branchIdx - 1, forkIdx, clock);
      if n < |branch| {
        assert activeChain[..forkIdx + 1] == prefix && activeChain[forkIdx + 1..] == branch[..n];
        RollbackReorg(oldTail, forkId, forkIdx, oldActive);
        TryFails(setup, start, branchIdx - 1, forkIdx, clock, n);
        StateIs();
        return false;
      }
      assert branch[..n] == branch;
      NoStrays(setup, prefix, branch, clock);
      TailIsBranch(setup, known, oldActive, forkIdx);
      ReplaceSideBranch(branchIdx, oldTail);
      TrySucceeds(setup, start, branchIdx - 1, forkIdx, clock);
      StateIs();
      ok := true;
    }

    /** Erase the branch that became active, append the old tail. */
    method ReplaceSideBranch(branchIdx: nat, tail: seq<Block>)
      requires Valid() && activeChain != []
      requires 1 <= branchIdx <= |sideBranches| && BranchOk(setup, known, tail)
      modifies this`sideBranches
      ensures Valid()
      ensures sideBranches == old(sideBranches)[..branchIdx - 1] + old(sideBranches)[branchIdx..] + [tail]
    {
      hide World, Validated, SidesOk, OrphansOk, FileOk, TimesWithin, Fold, IndexOf, DistinctBlocks, BranchOk;
      ReplaceSide(setup, known, sideBranches, branchIdx - 1, tail);
      sideBranches := sideBranches[..branchIdx - 1] + sideBranches[branchIdx..];
      sideBranches := sideBranches + [tail];
    }

    method ReadOutOfRange()
      requires Valid()
      modifies this`outOfRange
      ensures Valid() && outOfRange
    {
      hide World, Validated, SidesOk, OrphansOk, FileOk, TimesWithin, Fold, IndexOf, DistinctBlocks;
      outOfRange := true;
    }

    /** The block on the active chain that a branch starts from. */
    method FindFork(root: Block) returns (fork: Option<nat>)
      requires Valid()
      ensures fork == ForkOf(activeChain, root)
    {
      ForkByIndex(activeChain, root);
      hide *;
      ValidParts();
      if root.prev.None? {
        return None;
      }
      if root.prev.value in activeChainIndex {
        fork := Some(activeChainIndex[root.prev.value]);
      } else {
        fork := None;
      }
    }

    /** Where a branch starts, and whether it outweighs the active chain as a whole. */
    method Weigh(chain: seq<Block>, activeWork: nat) returns (fork: Option<nat>, heavier: bool)
      requires Valid() && chain != [] && activeWork == Work(activeChain) % TWO_256
      ensures fork == ForkOf(activeChain, chain[0])
      ensures heavier <==> Outweighs(FullBranch(activeChain, chain), activeChain)
    {
      hide *;
      fork := FindFork(chain[0]);
      ForkFacts(activeChain, chain[0]);
      FullBranchIs(activeChain, chain);
      var fullBranch := (if fork.Some? then activeChain[..fork.value + 1] else []) + chain;
      var branchWork := GetChainWork(fullBranch);
      OutweighsIs(fullBranch, activeChain);
      heavier := branchWork > activeWork;
    }

    /** reorg_if_necessary: try the side branches that outweigh the active chain, in order, until one
        replaces it. */
    method ReorgIfNecessary() returns (reorged: bool)
      requires Valid()
      modifies this`activeChain, this`sideBranches, this`activeChainIndex, this`utxos, this`pool, this`lastSavedHeight, this`outOfRange
      ensures Valid()
      ensures var p := Reorganise(setup, old(State()), 0, |old(sideBranches)|, clock);
              && State() == p.chains && (reorged <==> p.outcome.Switched?)
              && PassIs(setup, old(State()), 0, |old(sideBranches)|, clock, p)
      ensures reorged ==> Work(activeChain) > Work(old(activeChain))
      ensures !reorged && !old(outOfRange) ==>
                (outOfRange <==> exists k :: 0 <= k < |old(sideBranches)| && Unrooted(old(activeChain), old(sideBranches)[k]))
      ensures old(sideBranches) == [] ==> lastSavedHeight == old(lastSavedHeight)
      ensures lastSavedHeight == 0 || lastSavedHeight == old(lastSavedHeight)
    {
      hide *;
      var activeWork := GetChainWork(activeChain);
      var frozen := sideBranches;
      StateIs();
      ghost var start, oldActive, n := State(), activeChain, |sideBranches|;
      ValidParts();
      ReorganiseIs(setup, start, 0, n, clock);
      PassFacts(setup, start, clock, Reorganise(setup, start, 0, n, clock));
      for k := 0 to |frozen|
        invariant Valid() && activeChain == oldActive && outOfRange == old(outOfRange)
        invariant frozen <= sideBranches && State() == Chains(activeChain, sideBranches, pool, outOfRange)
        invariant Reorganise(setup, start, 0, n, clock) == Reorganise(setup, State(), k, n, clock)
        invariant frozen == [] ==> lastSavedHeight == old(lastSavedHeight)
        invariant lastSavedHeight == 0 || lastSavedHeight == old(lastSavedHeight)
      {
        var chain := frozen[k];
        assert sideBranches[k] == chain;
        ReorganiseStep(setup, State(), k, n, clock);
        if chain == [] {
          ReadOutOfRange();
          StateIs();
          return false;
        }
        var fork, heavier := Weigh(chain, activeWork);
        if heavier {
          if fork.None? {
            ReadOutOfRange();
            StateIs();
            return false;
          }
          ghost var before := State();
          ForkFacts(activeChain, chain[0]);
          var ok := TryReorg(chain, k + 1, fork.value);
          StateIs();
          TryConnects(setup, before, k, fork.value, clock);
          if ok {
            ValidParts();
            TrueWork(setup, oldActive);
            TrueWork(setup, activeChain);
            OutweighsIs(activeChain, oldActive);
            return true;
          }
          assert frozen <= sideBranches;
        }
      }
      ReorganiseEnd(setup, State(), n, clock);
      reorged := false;
    }

    // ----- Orphans -----

    method DropExpired()
      requires Valid()
      modifies this`orphanBlocks
      ensures Valid() && SubList(orphanBlocks, old(orphanBlocks))
      ensures forall o :: o in orphanBlocks <==> o in old(orphanBlocks) && clock - o.addedTime <= ORPHAN_EXPIRE_SECS
    {
      hide World, Validated, SidesOk, FileOk, TimesWithin, Fold, IndexOf, DistinctBlocks;
      var orphans := orphanBlocks;
      var kept: seq<Orphan> := [];
      for i := 0 to |orphans|
        invariant OrphansOk(known, kept) && |kept| <= i
        invariant forall o :: o in kept <==> o in orphans[..i] && clock - o.addedTime <= ORPHAN_EXPIRE_SECS
      {
        if clock - orphans[i].addedTime <= ORPHAN_EXPIRE_SECS {
          KeepOne(known, orphans, i, kept);
          kept := kept + [orphans[i]];
        }
      }
      assert orphans[..|orphans|] == orphans;
      orphanBlocks := kept;
    }

    /** Room for one more: the oldest orphan goes while the pool is full. */
    method EvictOldest()
      requires Valid()
      modifies this`orphanBlocks
      ensures Valid() && SubList(orphanBlocks, old(orphanBlocks)) && |orphanBlocks| < MAX_ORPHANS
      ensures old(|orphanBlocks|) < MAX_ORPHANS ==> orphanBlocks == old(orphanBlocks)
      ensures old(|orphanBlocks|) - |orphanBlocks| <= 1
      ensures forall o | o in old(orphanBlocks) && o !in orphanBlocks ::
                forall p | p in orphanBlocks :: o.addedTime <= p.addedTime
    {
      hide World, Validated, SidesOk, FileOk, TimesWithin, Fold, IndexOf, DistinctBlocks;
      if |orphanBlocks| >= MAX_ORPHANS {
        var oldest := 0;
        for i := 0 to |orphanBlocks|
          invariant oldest < |orphanBlocks|
          invariant forall j | 0 <= j < i :: orphanBlocks[oldest].addedTime <= orphanBlocks[j].addedTime
        {
          if orphanBlocks[i].addedTime < orphanBlocks[oldest].addedTime {
            oldest := i;
          }
        }
        DropOne(known, orphanBlocks, oldest);
        orphanBlocks := orphanBlocks[..oldest] + orphanBlocks[oldest + 1..];
      }
    }

    method AddOrphan(b: Block)
      requires Valid() && b in known && b.prev.Some?
      modifies this`orphanBlocks
      ensures Valid()
      ensures exists o :: o in orphanBlocks && o.block == b
      ensures forall o | o in orphanBlocks :: o in old(orphanBlocks) || o == Orphan(b, clock)
      ensures forall o | o in orphanBlocks :: clock - o.addedTime <= ORPHAN_EXPIRE_SECS
      ensures old(|orphanBlocks|) < MAX_ORPHANS ==>
                forall o | o in old(orphanBlocks) && clock - o.addedTime <= ORPHAN_EXPIRE_SECS :: o in orphanBlocks
      ensures forall o, p | o in old(orphanBlocks) && o !in orphanBlocks && p in orphanBlocks && p != Orphan(b, clock) ::
                clock - o.addedTime > ORPHAN_EXPIRE_SECS || o.addedTime <= p.addedTime
    {
      hide World, Validated, SidesOk, FileOk, TimesWithin, Fold, IndexOf, DistinctBlocks;
      DropExpired();
      EvictOldest();
      var alreadyOrphaned := false;
      for i := 0 to |orphanBlocks|
        invariant alreadyOrphaned <==> exists j :: 0 <= j < i && orphanBlocks[j].block.prev == b.prev && orphanBlocks[j].block.id == b.id
      {
        if orphanBlocks[i].block.prev == b.prev && orphanBlocks[i].block.id == b.id {
          alreadyOrphaned := true;
        }
      }
      if alreadyOrphaned {
        var j :| 0 <= j < |orphanBlocks| && orphanBlocks[j].block.prev == b.prev && orphanBlocks[j].block.id == b.id;
        SameIdSameBlock(setup, known, orphanBlocks[j].block, b);
        assert orphanBlocks[j] in orphanBlocks;
      } else {
        orphanBlocks := orphanBlocks + [Orphan(b, clock)];
        assert orphanBlocks[|orphanBlocks| - 1] in orphanBlocks;
      }
    }

    /** Takes the orphans of a parent out of the pool. */
    method TakeOrphans(parentId: Id) returns (candidates: seq<Block>)
      requires Valid()
      modifies this`orphanBlocks
      ensures Valid() && SubList(orphanBlocks, old(orphanBlocks)) && NoneKeyed(orphanBlocks, parentId)
      ensures |orphanBlocks| + |candidates| == old(|orphanBlocks|)
      ensures forall i | 0 <= i < |candidates| :: candidates[i] in known && candidates[i].prev == Some(parentId)
      ensures forall o | o in old(orphanBlocks) ::
                if o.block.prev == Some(parentId) then o.block in candidates else o in orphanBlocks
      ensures forall c | c in candidates :: WasOrphan(old(orphanBlocks), c)
      ensures NoneKeyed(old(orphanBlocks), parentId) ==> candidates == [] && orphanBlocks == old(orphanBlocks)
    {
      hide World, Validated, SidesOk, OrphansOk, FileOk, TimesWithin, Fold, IndexOf, DistinctBlocks, SubList, NoneKeyed;
      var rest;
      candidates, rest := SplitOrphans(known, orphanBlocks, parentId);
      orphanBlocks := rest;
    }

    // ----- Saving -----

    /** save_to_disk: append to the file what was connected since the last save, or rewrite it. The
        flags say whether the file can be opened for appending and for writing. Whichever way is
        taken, the file ends up as a full rewrite. */
    method SaveToDisk(canAppend: bool, canWrite: bool) returns (saved: bool)
      requires Valid() && activeChain != []
      modifies this`file, this`lastSavedHeight
      ensures Valid()
      ensures saved <==> canWrite || (canAppend && 0 < old(lastSavedHeight) < |activeChain| - 1)
      ensures saved ==> file == FullFile(setup.rules, activeChain) && lastSavedHeight == |activeChain| - 1
      ensures !saved ==> file == old(file) && lastSavedHeight == old(lastSavedHeight)
    {
      hide World, Validated, SidesOk, OrphansOk, TimesWithin, Fold, IndexOf, DistinctBlocks;
      var chainSize := |activeChain| - 1;
      if lastSavedHeight > 0 && lastSavedHeight < chainSize {
        if canAppend {
          var newData := SerializeRange(setup.rules, activeChain, lastSavedHeight + 1);
          AppendedIsFull(setup.rules, activeChain, lastSavedHeight, newData);
          assert activeChain[..chainSize + 1] == activeChain;
          file := LittleEndian(chainSize, 4) + file[4..] + newData;
          lastSavedHeight := chainSize;
          return true;
        }
      }
      if !canWrite {
        return false;
      }
      var data := SerializeRange(setup.rules, activeChain, 1);
      FirstSave(setup.rules, activeChain);
      assert activeChain[..chainSize + 1] == activeChain;
      file := LittleEndian(chainSize, 4) + data;
      lastSavedHeight := chainSize;
      saved := true;
    }

    // ----- Connecting -----

    method Tick(now: int)
      requires Valid() && clock <= now
      modifies this`clock
      ensures Valid() && clock == now
    {
      hide World, Validated, SidesOk, OrphansOk, FileOk, Fold, IndexOf, DistinctBlocks;
      clock := now;
    }

    /** try_connect_orphans: the orphans of a block that has just been connected, and theirs in turn.
        `blocks` are the ones handed to connect_block, in order. */
    method TryConnectOrphans(parentId: Id) returns (ghost blocks: seq<Block>)
      requires Valid() && Located(activeChain, sideBranches, parentId)
      modifies this
      ensures Valid() && clock == old(clock)
      ensures State() == Replay(setup, old(State()), blocks, clock)
      ensures Handed(old(orphanBlocks), orphanBlocks, blocks, [])
      ensures forall o | o in old(orphanBlocks) && o.block.prev == Some(parentId) :: o.block in blocks
      ensures Work(activeChain) >= Work(old(activeChain))
      ensures forall id | Located(old(activeChain), old(sideBranches), id) :: Located(activeChain, sideBranches, id)
      ensures SubList(orphanBlocks, old(orphanBlocks)) && NoneKeyed(orphanBlocks, parentId)
      ensures NoneKeyed(old(orphanBlocks), parentId) ==>
                blocks == [] && orphanBlocks == old(orphanBlocks) && lastSavedHeight == old(lastSavedHeight) && file == old(file)
      decreases |orphanBlocks|, 0
    {
      hide *;
      StateIs();
      ghost var pool0, start := orphanBlocks, State();
      blocks := [];
      var candidates := TakeOrphans(parentId);
      StateIs();
      ghost var rest, size := orphanBlocks, |orphanBlocks|;
      SubListRefl(rest);
      SubListTrans(rest, rest, pool0);
      ReplayNone(setup, start, clock);
      HandedStart(pool0, rest, candidates, parentId);
      for k := 0 to |candidates|
        invariant Valid() && clock == old(clock)
        invariant State() == Replay(setup, start, blocks, clock)
        invariant Handed(pool0, orphanBlocks, blocks, candidates[k..])
        invariant forall j | 0 <= j < k :: candidates[j] in blocks
        invariant Work(activeChain) >= Work(old(activeChain))
        invariant Located(activeChain, sideBranches, parentId)
        invariant forall id | Located(old(activeChain), old(sideBranches), id) :: Located(activeChain, sideBranches, id)
        invariant SubList(orphanBlocks, rest) && |orphanBlocks| <= size
        invariant candidates == [] ==>
                    blocks == [] && orphanBlocks == rest && lastSavedHeight == old(lastSavedHeight) && file == old(file)
      {
        ghost var before := orphanBlocks;
        SubListTrans(before, rest, pool0);
        NoOrphan(setup.rules, activeChain, sideBranches, candidates[k], clock);
        var r, more := ConnectBlock(candidates[k]);
        SubListTrans(orphanBlocks, before, rest);
        HandedStep(pool0, before, blocks, candidates[k..], orphanBlocks, more);
        assert candidates[k..][1..] == candidates[k + 1..];
        ReplayAppend(setup, start, blocks, more, clock);
        blocks := blocks + more;
        if r >= 0 {
          var canAppend: bool, canWrite: bool := *, *;
          StateIs();
          var saved := SaveToDisk(canAppend, canWrite);
          StateIs();
        }
      }
      assert candidates[|candidates|..] == [];
      SubListTrans(orphanBlocks, rest, pool0);
      NoneKeyedSub(orphanBlocks, rest, parentId);
    }

    /** connect_block: -1 when the block is refused or kept as an orphan, else the number of the
        chain it was put on. `blocks` are all the blocks handled, the orphans that followed included. */
    method ConnectBlock(b: Block) returns (r: int, ghost blocks: seq<Block>)
      requires Valid() && b in known
      modifies this
      ensures Valid() && clock == old(clock)
      ensures r == ConnectResult(setup, old(activeChain), old(sideBranches), b, clock)
      ensures State() == Replay(setup, old(State()), blocks, clock) && blocks != [] && blocks[0] == b
      ensures Work(activeChain) >= Work(ActiveWith(old(activeChain), b, r)) >= Work(old(activeChain))
      ensures r == 0 ==> Work(activeChain) > Work(old(activeChain))
      ensures r < 0 ==> blocks == [b] && State() == old(State())
      ensures r >= 0 ==> activeChain != [] && Located(activeChain, sideBranches, b.id) && NoneKeyed(orphanBlocks, b.id)
      ensures forall id | Located(old(activeChain), old(sideBranches), id) :: Located(activeChain, sideBranches, id)
      ensures GoesTo(setup, old(activeChain), old(sideBranches), b, clock, r)
      ensures r >= 0 ==> setup.rules.hashValue(b.id) < Pow2(255 - b.bits)
      ensures r >= 0 ==> forall o | o in old(orphanBlocks) && o.block.prev == Some(b.id) :: o.block in blocks
      ensures IsOrphan(setup.rules, old(activeChain), old(sideBranches), b, clock) ==>
                r == -1 && exists o :: o in orphanBlocks && o.block == b
      ensures !IsOrphan(setup.rules, old(activeChain), old(sideBranches), b, clock) ==>
                SubList(orphanBlocks, old(orphanBlocks)) && Handed(old(orphanBlocks), orphanBlocks, blocks[1..], [])
      ensures r >= 0 && NoneKeyed(old(orphanBlocks), b.id) ==>
                var t := Placed(old(State()), b, r);
                var p := Reorganise(setup, t, 0, |t.sides|, clock);
                && blocks == [b] && orphanBlocks == old(orphanBlocks)
                && State() == p.chains && PassIs(setup, t, 0, |t.sides|, clock, p)
      ensures r == 0 && NoneKeyed(old(orphanBlocks), b.id) && old(sideBranches) == [] ==>
                && sideBranches == [] && activeChain == old(activeChain) + [b] && lastSavedHeight == old(lastSavedHeight)
      ensures r < 0 || NoneKeyed(old(orphanBlocks), b.id) ==>
                file == old(file) && (lastSavedHeight == 0 || lastSavedHeight == old(lastSavedHeight))
      decreases |orphanBlocks|, 1
    {
      hide *;
      StateIs();
      ghost var oldActive, oldSides, oldOrphans, start := activeChain, sideBranches, orphanBlocks, State();
      ValidParts();
      SubListRefl(oldOrphans);
      HandedNone(oldOrphans);
      LocateFinds(activeChain, sideBranches, b.id);
      ResultCases(setup, known, activeChain, sideBranches, pool, b, clock);
      ResultIff(setup, known, activeChain, sideBranches, b, clock);
      WithNothing(activeChain, b);
      ReplayOne(setup, start, b, clock);
      HandledIs(setup, start, b, clock);
      blocks := [b];
      assert blocks[1..] == [];
      var located := LocateInAllChains(b.id);
      if located.Some? {
        return -1, [b];
      }
      UnlocatedIsOff(activeChain, sideBranches, b.id);
      ZeroVerdict(setup, known, activeChain, sideBranches, pool, b, clock);
      VerdictFacts(setup.rules, activeChain, sideBranches, utxos, pool, b, clock);
      AcceptedNeedsChain(setup, known, activeChain, sideBranches, utxos, pool, b, clock);
      var v := ValidateBlock(b);
      if v == Rejected {
        return -1, [b];
      }
      if v == Orphaned {
        AddOrphan(b);
        StateIs();
        return -1, [b];
      }
      ShapeHasWork(setup.rules, b);
      Append(b, v.chainIdx);
      AppendGains(oldActive, oldSides, b, v.chainIdx, activeChain, sideBranches);
      WithIs(oldActive, oldSides, b, v.chainIdx, activeChain, sideBranches);
      PlacedIs(start, b, v.chainIdx);
      StateIs();
      ghost var t, p, sides1 := State(), Reorganise(setup, State(), 0, |sideBranches|, clock), sideBranches;
      var reorged := ReorgIfNecessary();
      StateIs();
      PassKeeps(setup, t, clock, p);
      if sides1 == [] {
        NothingToSwitch(setup, t, clock);
      }
      ValidParts();
      ghost var more := TryConnectOrphans(b.id);
      ReplayAppend(setup, start, [b], more, clock);
      blocks := [b] + more;
      assert blocks[1..] == more;
      StateIs();
      ValidParts();
      LocatedNeedsChain(activeChain, sideBranches, b.id);
      r := v.chainIdx;
    }

    /** The loop of load_from_disk, on a node that has just started. */
    method ConnectLoaded(loaded: seq<Block>) returns (ok: bool)
      requires Valid() && activeChain == setup.base && activeChain != []
      requires sideBranches == [] && orphanBlocks == [] && lastSavedHeight == 0
      requires forall i | 0 <= i < |loaded| :: loaded[i] in known
      modifies this
      ensures Valid() && clock == old(clock) && file == old(file) && lastSavedHeight == 0 && sideBranches == []
      ensures ok <==> BranchConnects(setup, setup.base, loaded, clock)
      ensures activeChain == if ok then setup.base + loaded else setup.base
    {
      hide *;
      ghost var base := setup.base;
      assert base + loaded[..0] == base;
      for i := 0 to |loaded|
        invariant Valid() && clock == old(clock) && file == old(file) && lastSavedHeight == 0
        invariant sideBranches == [] && orphanBlocks == [] && activeChain == base + loaded[..i]
        invariant forall j | 0 <= j < i :: Joins(setup, base + loaded[..j], loaded[j], clock)
      {
        ValidParts();
        ResultZero(setup, known, activeChain, loaded[i], clock);
        NothingKeyed(loaded[i].id);
        var r, handled := ConnectBlock(loaded[i]);
        if r != 0 {
          BranchBreaks(setup, base, loaded, i, clock);
          StartOver();
          return false;
        }
        assert base + loaded[..i] + [loaded[i]] == base + loaded[..i + 1];
      }
      BranchHolds(setup, base, loaded, clock);
      assert loaded[..|loaded|] == loaded;
      ok := true;
    }

    /** Back to the initial chain, as load_from_disk does when a block does not connect. The orphan
        pool is left alone. */
    method StartOver()
      requires Valid() && lastSavedHeight == 0
      modifies this`activeChain, this`sideBranches, this`activeChainIndex, this`utxos, this`pool
      ensures Valid() && activeChain == setup.base && sideBranches == []
    {
      hide World, Validated, OrphansOk, TimesWithin, DistinctBlocks, IndexOf, Fold, BranchOk;
      BaseIsValid(setup, known, activeChain, clock);
      activeChain, sideBranches := setup.base, [];
      activeChainIndex := if setup.base == [] then map[] else map[setup.base[0].id := 0];
      utxos, pool := map[], map[];
    }
  }

  /** A block that comes before its predecessor is kept, and handled once that one is accepted. It is
      accepted as if it had come alone. */
  method ChildBeforeParent(node: Node, child: Block, parent: Block) returns (r: int, ghost blocks: seq<Block>)
    requires node.Valid() && child in node.known && parent in node.known && child.prev == Some(parent.id)
    requires !Located(node.activeChain, node.sideBranches, parent.id)
    requires !Located(node.activeChain, node.sideBranches, child.id)
    requires PreOk(node.setup.rules, node.activeChain, child, node.clock)
    modifies node
    ensures node.Valid() && GoesTo(node.setup, old(node.activeChain), old(node.sideBranches), parent, node.clock, r)
    ensures r >= 0 ==> blocks != [] && blocks[0] == parent && child in blocks
  {
    hide *;
    IsOrphanWhen(node.setup.rules, node.activeChain, node.sideBranches, child, node.clock);
    node.StateIs();
    var first, handled := node.ConnectBlock(child);
    node.StateIs();
    ghost var o :| o in node.orphanBlocks && o.block == child;
    r, blocks := node.ConnectBlock(parent);
  }

  /** The orphans of a parent, and the others. */
  method SplitOrphans(ghost known: iset<Block>, orphans: seq<Orphan>, parentId: Id)
    returns (candidates: seq<Block>, rest: seq<Orphan>)
    requires OrphansOk(known, orphans)
    ensures OrphansOk(known, rest) && SubList(rest, orphans) && NoneKeyed(rest, parentId)
    ensures |rest| + |candidates| == |orphans|
    ensures forall i | 0 <= i < |candidates| :: candidates[i] in known && candidates[i].prev == Some(parentId)
    ensures forall o | o in orphans :: if o.block.prev == Some(parentId) then o.block in candidates else o in rest
    ensures forall c | c in candidates :: WasOrphan(orphans, c)
    ensures NoneKeyed(orphans, parentId) ==> candidates == [] && rest == orphans
  {
    hide *;
    rest, candidates := [], [];
    SplitStart(known, orphans, parentId);
    for i := 0 to |orphans|
      invariant SplitTo(known, orphans, parentId, i, candidates, rest)
    {
      SplitStep(known, orphans, parentId, i, candidates, rest);
      if orphans[i].block.prev == Some(parentId) {
        candidates := candidates + [orphans[i].block];
      } else {
        rest := rest + [orphans[i]];
      }
    }
    SplitEnd(known, orphans, parentId, candidates, rest);
  }

  /** The first i orphans have been sorted into candidates and the rest. */
  ghost predicate SplitTo(known: iset<Block>, orphans: seq<Orphan>, parentId: Id, i: nat,
                          candidates: seq<Block>, rest: seq<Orphan>)
    requires i <= |orphans|
  {
    && OrphansOk(known, rest) && |rest| + |candidates| == i
    && (forall o | o in rest :: o in orphans[..i] && o.block.prev != Some(parentId))
    && (forall j | 0 <= j < i :: if orphans[j].block.prev == Some(parentId) then orphans[j].block in candidates else orphans[j] in rest)
    && (forall c | c in candidates :: c in known && c.prev == Some(parentId) && WasOrphan(orphans, c))
    && (NoneKeyed(orphans, parentId) ==> candidates == [] && rest == orphans[..i])
  }

  lemma SplitStart(known: iset<Block>, orphans: seq<Orphan>, parentId: Id)
    ensures SplitTo(known, orphans, parentId, 0, [], [])
  {
  }

  lemma SplitStep(known: iset<Block>, orphans: seq<Orphan>, parentId: Id, i: nat, candidates: seq<Block>,
                  rest: seq<Orphan>)
    requires OrphansOk(known, orphans) && i < |orphans| && SplitTo(known, orphans, parentId, i, candidates, rest)
    ensures var o := orphans[i];
            if o.block.prev == Some(parentId) then SplitTo(known, orphans, parentId, i + 1, candidates + [o.block], rest)
            else SplitTo(known, orphans, parentId, i + 1, candidates, rest + [o])
  {
    assert orphans[i].block in known;
    if orphans[i].block.prev != Some(parentId) {
      KeepOne(known, orphans, i, rest);
    }
    hide OrphansOk;
  }

  lemma SplitEnd(known: iset<Block>, orphans: seq<Orphan>, parentId: Id, candidates: seq<Block>, rest: seq<Orphan>)
    requires SplitTo(known, orphans, parentId, |orphans|, candidates, rest)
    ensures OrphansOk(known, rest) && SubList(rest, orphans) && NoneKeyed(rest, parentId)
    ensures |rest| + |candidates| == |orphans|
    ensures forall i | 0 <= i < |candidates| :: candidates[i] in known && candidates[i].prev == Some(parentId)
    ensures forall o | o in orphans :: if o.block.prev == Some(parentId) then o.block in candidates else o in rest
    ensures forall c | c in candidates :: WasOrphan(orphans, c)
    ensures NoneKeyed(orphans, parentId) ==> candidates == [] && rest == orphans
  {
    hide OrphansOk;
    assert orphans[..|orphans|] == orphans;
    assert forall i | 0 <= i < |rest| :: rest[i] in rest;
  }

  lemma BaseIsValid(setup: Setup, known: iset<Block>, chain: seq<Block>, clock: int)
    requires World(setup, known) && Validated(setup, known, chain)
    ensures Validated(setup, known, setup.base) && TimesWithin(setup.base, |setup.base|, clock) && DistinctBlocks(setup.base)
    ensures Fold(|setup.base|, setup.base) == map[] && FitsHeight(|setup.base|)
    ensures IndexOf(setup.base) == if setup.base == [] then map[] else map[setup.base[0].id := 0]
  {
    PrefixIsChain(setup, known, chain, |setup.base|);
    assert chain[..|setup.base|] == setup.base;
    hide Validated, IsChain;
  }

  // ----- Blocks handed on from the orphan pool -----

  ghost predicate WasOrphan(orphans: seq<Orphan>, b: Block) {
    exists o :: o in orphans && o.block == b
  }

  /** All blocks come from the orphan pool as it was, and whatever is no longer in the pool is among
      them or still to come. */
  ghost predicate Handed(before: seq<Orphan>, after: seq<Orphan>, blocks: seq<Block>, left: seq<Block>) {
    && (forall b | b in blocks || b in left :: WasOrphan(before, b))
    && (forall o | o in before :: o in after || o.block in blocks || o.block in left)
  }

  lemma HandedNone(orphans: seq<Orphan>)
    ensures Handed(orphans, orphans, [], [])
  {
  }

  lemma HandedStart(before: seq<Orphan>, rest: seq<Orphan>, candidates: seq<Block>, parentId: Id)
    requires forall o | o in before :: if o.block.prev == Some(parentId) then o.block in candidates else o in rest
    requires forall b | b in candidates :: WasOrphan(before, b)
    ensures Handed(before, rest, [], candidates[0..])
  {
    assert candidates[0..] == candidates;
  }

  lemma HandedStep(pool0: seq<Orphan>, before: seq<Orphan>, blocks: seq<Block>, left: seq<Block>,
                   after: seq<Orphan>, more: seq<Block>)
    requires Handed(pool0, before, blocks, left) && left != [] && SubList(before, pool0)
    requires more != [] && more[0] == left[0] && Handed(before, after, more[1..], [])
    ensures Handed(pool0, after, blocks + more, left[1..])
  {
    assert more == [more[0]] + more[1..] && left == [left[0]] + left[1..];
    forall b | b in more[1..]
      ensures WasOrphan(pool0, b)
    {
      assert WasOrphan(before, b);
      var o :| o in before && o.block == b;
      var i :| 0 <= i < |before| && before[i] == o;
    }
  }

  // ----- Facts used while reorganising -----

  lemma PoolBeforeStep(pool: map<Id, Tx>, blocks: seq<Block>)
    ensures blocks != [] ==>
              PoolBefore(pool, blocks) == PoolBefore(ReAdded(pool, blocks[|blocks| - 1].txs), blocks[..|blocks| - 1])
  {
  }

  lemma PoolBeforeNone(pool: map<Id, Tx>, blocks: seq<Block>)
    ensures blocks == [] ==> PoolBefore(pool, blocks) == pool
  {
  }

  lemma PoolAfterNone(pool: map<Id, Tx>, blocks: seq<Block>)
    ensures PoolAfter(pool, blocks[..0]) == pool
  {
  }

  lemma PoolAfterStep(pool: map<Id, Tx>, blocks: seq<Block>, k: nat)
    requires k < |blocks|
    ensures PoolAfter(pool, blocks[..k + 1]) == PoolAfter(pool, blocks[..k]) - IdsOf(blocks[k].txs)
  {
    assert blocks[..k + 1][..k] == blocks[..k];
  }

  lemma StraysAre(setup: Setup, prefix: seq<Block>, branch: seq<Block>, now: int, i: nat, stray: bool)
    requires i < |branch| && Joining(setup, prefix, branch, now) == i
    requires stray <==> OpensStray(setup, prefix + branch[..i], branch[i], now)
    ensures Strays(setup, prefix, branch, now) == if stray then [[branch[i]]] else []
  {
    hide OpensStray, Joining;
  }

  lemma NoStrays(setup: Setup, prefix: seq<Block>, branch: seq<Block>, now: int)
    requires Joining(setup, prefix, branch, now) == |branch|
    ensures Strays(setup, prefix, branch, now) == [] && forall sides: seq<seq<Block>> :: sides + [] == sides
  {
    hide Joining;
  }

  lemma TryFails(setup: Setup, c: Chains, k: nat, f: nat, now: int, i: nat)
    requires k < |c.sides| && f < |c.active| && i < |c.sides[k]|
    requires Joining(setup, c.active[..f + 1], c.sides[k], now) == i
    ensures var prefix, tail, branch := c.active[..f + 1], c.active[f + 1..], c.sides[k];
            AfterTry(setup, c, k, f, now) ==
            c.(sides := c.sides + Strays(setup, prefix, branch, now),
               pool := PoolAfter(PoolBefore(PoolAfter(PoolBefore(c.pool, tail), branch[..i]), branch[..i]), tail))
  {
    hide Joining, Strays, PoolAfter, PoolBefore;
  }

  lemma TrySucceeds(setup: Setup, c: Chains, k: nat, f: nat, now: int)
    requires k < |c.sides| && f < |c.active|
    requires Joining(setup, c.active[..f + 1], c.sides[k], now) == |c.sides[k]|
    ensures var prefix, tail, branch := c.active[..f + 1], c.active[f + 1..], c.sides[k];
            AfterTry(setup, c, k, f, now) ==
            c.(active := prefix + branch, sides := c.sides[..k] + c.sides[k + 1..] + [tail],
               pool := PoolAfter(PoolBefore(c.pool, tail), branch))
  {
    hide Joining, PoolAfter, PoolBefore;
    var branch := c.sides[k];
    assert branch[..|branch|] == branch;
  }

  lemma ForkByIndex(active: seq<Block>, root: Block)
    requires DistinctBlocks(active)
    ensures root.prev.None? ==> ForkOf(active, root).None?
    ensures root.prev.Some? ==>
              ForkOf(active, root) == if root.prev.value in IndexOf(active) then Some(IndexOf(active)[root.prev.value]) else None
  {
    hide IndexOf, PlaceOf;
    if root.prev.Some? {
      IndexFinds(active, root.prev.value);
      var r := ForkOf(active, root);
      if r.Some? {
        assert Has(active, root.prev.value);
        SamePlace(active, r.value, IndexOf(active)[root.prev.value]);
      }
    }
  }

  lemma ForkFacts(active: seq<Block>, root: Block)
    ensures ForkOf(active, root).Some? ==>
              ForkOf(active, root).value < |active| && root.prev == Some(active[ForkOf(active, root).value].id)
  {
  }

  lemma FullBranchIs(active: seq<Block>, branch: seq<Block>)
    requires branch != []
    ensures var fork := ForkOf(active, branch[0]);
            FullBranch(active, branch) == (if fork.Some? then active[..fork.value + 1] else []) + branch
  {
    hide ForkOf;
  }

  lemma OutweighsIs(chain: seq<Block>, active: seq<Block>)
    ensures Outweighs(chain, active) <==> Work(chain) % TWO_256 > Work(active) % TWO_256
  {
  }

  lemma TryConnects(setup: Setup, c: Chains, k: nat, f: nat, now: int)
    requires k < |c.sides| && f < |c.active|
    ensures var prefix, branch := c.active[..f + 1], c.sides[k];
            BranchConnects(setup, prefix, branch, now) <==> Joining(setup, prefix, branch, now) == |branch|
  {
    hide Joins;
    var prefix, branch := c.active[..f + 1], c.sides[k];
    JoiningFacts(setup, prefix, branch, now);
    JoiningIs(setup, prefix, branch, now, Joining(setup, prefix, branch, now));
  }

  /** One branch of a pass. */
  lemma ReorganiseStep(setup: Setup, c: Chains, k: nat, n: nat, now: int)
    requires k < n <= |c.sides|
    ensures var branch, p := c.sides[k], Reorganise(setup, c, k, n, now);
            if branch == [] then p == Pass(c.(outOfRange := true), LeftBounds(k))
            else if !Outweighs(FullBranch(c.active, branch), c.active) then p == Reorganise(setup, c, k + 1, n, now)
            else
              var fork := ForkOf(c.active, branch[0]);
              if fork.None? then p == Pass(c.(outOfRange := true), LeftBounds(k))
              else
                && fork.value < |c.active|
                && var t := AfterTry(setup, c, k, fork.value, now);
                   if Joining(setup, c.active[..fork.value + 1], branch, now) == |branch| then p == Pass(t, Switched(k, fork.value))
                   else c.sides <= t.sides && p == Reorganise(setup, t, k + 1, n, now)
  {
    hide Outweighs, FullBranch, PlaceOf, Joining;
  }

  lemma ReorganiseEnd(setup: Setup, c: Chains, n: nat, now: int)
    requires n <= |c.sides|
    ensures Reorganise(setup, c, n, n, now) == Pass(c, Kept)
  {
  }

  /** The bounds are left exactly if some branch leaves them, unless the pass switches first. */
  lemma PassFacts(setup: Setup, c: Chains, now: int, p: Pass)
    requires PassIs(setup, c, 0, |c.sides|, now, p)
    ensures p.outcome.Switched? ==> Outweighs(p.chains.active, c.active)
    ensures !p.outcome.Switched? ==>
              (p.outcome.LeftBounds? <==> exists k :: 0 <= k < |c.sides| && Unrooted(c.active, c.sides[k]))
    ensures p.chains.outOfRange == (c.outOfRange || p.outcome.LeftBounds?)
  {
    hide Outweighs, BranchConnects, Unrooted, AllStrays;
    if p.outcome.Kept? {
      forall k | 0 <= k < |c.sides|
        ensures !Unrooted(c.active, c.sides[k])
      {
        assert NoBetterBranch(setup, c.active, c.sides[0..|c.sides|][k], now);
      }
    }
  }

  // ----- Saved bytes -----

  ghost function Blocks(rules: Rules, blocks: seq<Block>): seq<Byte> {
    if blocks == [] then [] else Blocks(rules, blocks[..|blocks| - 1]) + rules.blockBytes(blocks[|blocks| - 1])
  }

  method SerializeRange(rules: Rules, chain: seq<Block>, from: nat) returns (data: seq<Byte>)
    requires from <= |chain|
    ensures data == Blocks(rules, chain[from..])
  {
    data := [];
    for height := from to |chain|
      invariant data == Blocks(rules, chain[from..height])
    {
      assert chain[from..height + 1][..height - from] == chain[from..height];
      data := data + rules.blockBytes(chain[height]);
    }
    assert chain[from..|chain|] == chain[from..];
  }

  lemma {:induction false} BodySplits(rules: Rules, chain: seq<Block>, k: nat)
    requires 1 <= k <= |chain|
    ensures Body(rules, chain) == Body(rules, chain[..k]) + Blocks(rules, chain[k..])
    decreases |chain|
  {
    if k == |chain| {
      assert chain[..k] == chain;
    } else {
      var n := |chain| - 1;
      BodySplits(rules, chain[..n], k);
      assert chain[..n][..k] == chain[..k] && chain[..n][k..] == chain[k..][..n - k];
    }
  }

  lemma FirstSave(rules: Rules, chain: seq<Block>)
    requires chain != []
    ensures FullFile(rules, chain) == LittleEndian(|chain| - 1, 4) + Blocks(rules, chain[1..])
  {
    BodySplits(rules, chain, 1);
  }

  /** Overwriting the count and appending the new blocks is a full rewrite. */
  lemma AppendedIsFull(rules: Rules, chain: seq<Block>, saved: nat, newData: seq<Byte>)
    requires saved + 1 < |chain| && newData == Blocks(rules, chain[saved + 1..])
    ensures var was := FullFile(rules, chain[..saved + 1]);
            |was| >= 4 && LittleEndian(|chain| - 1, 4) + was[4..] + newData == FullFile(rules, chain)
  {
    BodySplits(rules, chain, saved + 1);
    var was := FullFile(rules, chain[..saved + 1]);
    assert was[4..] == Body(rules, chain[..saved + 1]);
  }

  // ----- Facts used by connect_block -----

  lemma NothingKeyed(id: Id)
    ensures NoneKeyed([], id)
  {
  }

  lemma SubListRefl(a: seq<Orphan>)
    ensures SubList(a, a)
  {
  }

  lemma SubListTrans(a: seq<Orphan>, b: seq<Orphan>, c: seq<Orphan>)
    requires SubList(a, b) && SubList(b, c)
    ensures SubList(a, c) && |a| <= |b|
  {
    forall i | 0 <= i < |a|
      ensures a[i] in c
    {
      var j :| 0 <= j < |b| && b[j] == a[i];
    }
  }

  lemma NoneKeyedSub(a: seq<Orphan>, b: seq<Orphan>, parent: Id)
    requires SubList(a, b) && NoneKeyed(b, parent)
    ensures NoneKeyed(a, parent)
  {
    forall i | 0 <= i < |a|
      ensures a[i].block.prev != Some(parent)
    {
      var j :| 0 <= j < |b| && b[j] == a[i];
    }
  }

  lemma KeepOne(known: iset<Block>, orphans: seq<Orphan>, i: nat, kept: seq<Orphan>)
    requires OrphansOk(known, orphans) && OrphansOk(known, kept)
    requires i < |orphans| && |kept| <= i && forall o | o in kept :: o in orphans[..i]
    ensures OrphansOk(known, kept + [orphans[i]])
  {
    var next := kept + [orphans[i]];
    forall j | 0 <= j < |kept| && kept[j].block.prev == orphans[i].block.prev
      ensures kept[j].block.id != orphans[i].block.id
    {
      assert kept[j] in orphans[..i];
    }
  }

  lemma DropOne(known: iset<Block>, orphans: seq<Orphan>, k: nat)
    requires OrphansOk(known, orphans) && k < |orphans|
    ensures var rest := orphans[..k] + orphans[k + 1..];
            OrphansOk(known, rest) && SubList(rest, orphans) && forall o | o in orphans && o !in rest :: o == orphans[k]
  {
    var rest := orphans[..k] + orphans[k + 1..];
    assert forall i | 0 <= i < |orphans| && i != k :: orphans[i] == rest[if i < k then i else i - 1];
  }

  lemma SameIdSameBlock(setup: Setup, known: iset<Block>, a: Block, b: Block)
    requires World(setup, known) && a in known && b in known && a.id == b.id
    ensures a == b
  {
  }

  lemma BaseIsShort(setup: Setup, known: iset<Block>)
    requires World(setup, known)
    ensures |setup.base| <= 1
  {
  }

  lemma TipIsPutBack(setup: Setup, known: iset<Block>, chain: seq<Block>, pool: map<Id, Tx>)
    requires Validated(setup, known, chain) && |setup.base| < |chain|
    ensures var txs := chain[|chain| - 1].txs;
            forall tx | PutBack(txs, tx) :: tx.id in ReAdded(pool, txs) && ReAdded(pool, txs)[tx.id] == tx
  {
    hide *;
    var n := |chain| - 1;
    JoinedAt(setup, known, chain, n);
    ShapeParts(setup.rules, chain[n]);
    ReAddedIs(pool, chain[n].txs);
  }

  lemma DropTip(setup: Setup, known: iset<Block>, chain: seq<Block>, clock: int)
    requires Validated(setup, known, chain) && TimesWithin(chain, |setup.base|, clock)
    requires |setup.base| < |chain|
    ensures Validated(setup, known, chain[..|chain| - 1]) && TimesWithin(chain[..|chain| - 1], |setup.base|, clock)
  {
    hide Validated;
    PrefixIsChain(setup, known, chain, |chain| - 1);
  }

  lemma NothingSaved(rules: Rules, chain: seq<Block>, file: seq<Byte>)
    ensures FileOk(rules, chain, 0, file)
  {
  }

  lemma HasTxs(rules: Rules, b: Block)
    requires Shape(rules, b)
    ensures b.txs != []
  {
  }
}
