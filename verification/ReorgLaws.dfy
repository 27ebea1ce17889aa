/** What a reorganisation leaves behind when it fails, and when it leaves the bounds of a vector. */
module ReorgLaws {
  import opened Types
  import opened Ledger
  import opened ChainSpec
  import opened Branches
  import opened Roots
  import Arithmetic
  import Difficulty

  // ----- Failed attempts -----

  /** A failed attempt leaves a stray side branch if and only if the first block that does not join
      fits the chain further down. */
  lemma StrayIff(setup: Setup, prefix: seq<Block>, branch: seq<Block>, now: int)
    ensures Strays(setup, prefix, branch, now) != [] <==>
            exists i :: 0 <= i < |branch| && (forall j | 0 <= j < i :: Joins(setup, prefix + branch[..j], branch[j], now)) &&
                        OpensStray(setup, prefix + branch[..i], branch[i], now)
  {
    hide Joins, PreOk;
    JoiningFacts(setup, prefix, branch, now);
    if i :| 0 <= i < |branch| && (forall j | 0 <= j < i :: Joins(setup, prefix + branch[..j], branch[j], now)) &&
            OpensStray(setup, prefix + branch[..i], branch[i], now) {
      StraysDoNotJoin(setup, prefix + branch[..i], branch[i], now);
      JoiningIs(setup, prefix, branch, now, i);
    }
  }

  lemma StraysDoNotJoin(setup: Setup, chain: seq<Block>, b: Block, now: int)
    requires OpensStray(setup, chain, b, now)
    ensures !Joins(setup, chain, b, now)
  {
    hide PreOk, ConnectsTo;
  }

  lemma {:induction false} NoStraysAtAll(setup: Setup, active: seq<Block>, branches: seq<seq<Block>>, now: int)
    ensures AllStrays(setup, active, branches, now) == [] <==>
            forall j | 0 <= j < |branches| :: StraysAt(setup, active, branches[j], now) == []
  {
    hide StraysAt;
    if branches != [] {
      NoStraysAtAll(setup, active, branches[1..], now);
      assert forall j | 1 <= j < |branches| :: branches[j] == branches[1..][j - 1];
    }
  }

  /** A pass that does not switch is invisible, up to the mempool, if and only if none of the
      branches up to the first unrooted one leaves a stray; it stays within bounds if and only if
      there is no unrooted one. */
  lemma InvisibleIff(setup: Setup, c: Chains, now: int)
    requires DistinctBlocks(c.active)
    ensures var u, p := FirstUnrooted(c.active, c.sides), Reorganise(setup, c, 0, |c.sides|, now);
            !p.outcome.Switched? ==>
              && p.chains.active == c.active
              && (p.chains.sides == c.sides <==>
                    forall j | 0 <= j < u :: StraysAt(setup, c.active, c.sides[j], now) == [])
              && (p.chains.outOfRange <==> c.outOfRange || u < |c.sides|)
  {
    hide Reorganise, StraysAt, AllStrays, NothingBetter, Unrooted, Outweighs, BranchConnects, DistinctBlocks,
         FirstUnrooted;
    var n, p := |c.sides|, Reorganise(setup, c, 0, |c.sides|, now);
    ReorganiseIs(setup, c, 0, n, now);
    StopsAtUnrooted(setup, c, now);
    if !p.outcome.Switched? {
      var u := FirstUnrooted(c.active, c.sides);
      NoStraysAtAll(setup, c.active, c.sides[0..u], now);
      assert |c.sides + AllStrays(setup, c.active, c.sides[0..u], now)| == n + |AllStrays(setup, c.active, c.sides[0..u], now)|;
      assert forall j | 0 <= j < u :: c.sides[0..u][j] == c.sides[j];
    }
  }

  // ----- The mempool after a failed attempt -----

  /** What disconnecting the blocks puts back: everything but the coinbases. */
  ghost function Returned(blocks: seq<Block>): set<Id> {
    if blocks == [] then {} else Returned(blocks[..|blocks| - 1]) + SpendingIds(blocks[|blocks| - 1].txs)
  }

  ghost function SpendingIds(txs: seq<Tx>): set<Id> {
    set i | 0 <= i < |txs| && !txs[i].IsCoinbase() :: txs[i].id
  }

  lemma {:induction false} ReAddedKeys(pool: map<Id, Tx>, txs: seq<Tx>)
    ensures ReAdded(pool, txs).Keys == pool.Keys + SpendingIds(txs)
  {
    if txs != [] {
      var k := |txs| - 1;
      ReAddedKeys(pool, txs[..k]);
      assert SpendingIds(txs) == SpendingIds(txs[..k]) + if txs[k].IsCoinbase() then {} else {txs[k].id};
    }
  }

  lemma {:induction false} PoolBeforeKeys(pool: map<Id, Tx>, blocks: seq<Block>)
    ensures PoolBefore(pool, blocks).Keys == pool.Keys + Returned(blocks)
    decreases |blocks|
  {
    if blocks != [] {
      var last := blocks[|blocks| - 1];
      ReAddedKeys(pool, last.txs);
      PoolBeforeKeys(ReAdded(pool, last.txs), blocks[..|blocks| - 1]);
    }
  }

  lemma {:induction false} PoolAfterKeys(pool: map<Id, Tx>, blocks: seq<Block>)
    ensures PoolAfter(pool, blocks).Keys == pool.Keys - ChainIds(blocks)
  {
    if blocks != [] {
      PoolAfterKeys(pool, blocks[..|blocks| - 1]);
    }
  }

  lemma {:induction false} ReturnedAreIds(blocks: seq<Block>)
    ensures Returned(blocks) <= ChainIds(blocks)
  {
    if blocks != [] {
      ReturnedAreIds(blocks[..|blocks| - 1]);
    }
  }

  /** The mempool is not restored: the transactions of the branch blocks that did connect are put
      into it, coinbases aside, and those of the old tail are gone from it. */
  lemma PoolOfFailure(setup: Setup, c: Chains, k: nat, f: nat, now: int)
    requires k < |c.sides| && f < |c.active|
    requires Joining(setup, c.active[..f + 1], c.sides[k], now) < |c.sides[k]|
    ensures var tail := c.active[f + 1..];
            var joined := c.sides[k][..Joining(setup, c.active[..f + 1], c.sides[k], now)];
            AfterTry(setup, c, k, f, now).pool.Keys == c.pool.Keys - ChainIds(joined) + Returned(joined) - ChainIds(tail)
  {
    hide Joining, Strays, PoolAfter, PoolBefore;
    var tail := c.active[f + 1..];
    var joined := c.sides[k][..Joining(setup, c.active[..f + 1], c.sides[k], now)];
    var unwound := PoolBefore(c.pool, tail);
    PoolBeforeKeys(c.pool, tail);
    PoolAfterKeys(unwound, joined);
    PoolBeforeKeys(PoolAfter(unwound, joined), joined);
    PoolAfterKeys(PoolBefore(PoolAfter(unwound, joined), joined), tail);
    ReturnedAreIds(tail);
  }

  // ----- A stray in a run of the node -----

  ghost predicate Apart(blocks: seq<Block>) {
    forall i, j | 0 <= i < j < |blocks| :: blocks[i].id != blocks[j].id
  }

  lemma WorkOfThree(a: Block, b: Block, c: Block)
    ensures Work([a, b, c]) == Difficulty.BlockWork(a.bits) + Difficulty.BlockWork(b.bits) + Difficulty.BlockWork(c.bits)
  {
    OneMoreWork([], a);
    OneMoreWork([a], b);
    OneMoreWork([a, b], c);
    assert [] + [a] == [a] && [a] + [b] == [a, b] && [a, b] + [c] == [a, b, c];
    assert Work([]) == 0;
  }

  lemma OneMoreWork(chain: seq<Block>, b: Block)
    ensures Work(chain + [b]) == Work(chain) + Difficulty.BlockWork(b.bits)
  {
    assert (chain + [b])[..|chain|] == chain;
  }

  lemma WorkOfFour(a: Block, b: Block, c: Block, d: Block)
    ensures Work([a, b, c, d]) == Work([a, b, c]) + Difficulty.BlockWork(d.bits)
  {
    OneMoreWork([a, b, c], d);
    assert [a, b, c] + [d] == [a, b, c, d];
  }

  lemma OneMoreOutweighs(g: Block, x: Block, y: Block, a: Block, b: Block, d: Block)
    requires x.bits == a.bits && y.bits == b.bits && Work([g, a, b, d]) < TWO_256
    ensures Outweighs([g, a, b, d], [g, x, y])
  {
    hide Work, Difficulty.BlockWork;
    WorkOfThree(g, x, y);
    WorkOfThree(g, a, b);
    WorkOfFour(g, a, b, d);
    NoWrap(Work([g, a, b, d]));
    NoWrap(Work([g, x, y]));
  }

  lemma NoWrap(work: nat)
    requires work < TWO_256
    ensures work % TWO_256 == work
  {
  }

  /** Where the chains are [g, x, y] and [a, b], a block d behind a goes to the side branch [a, b],
      though not behind its tip. The branch is now heavier; d does not follow b, and the failed
      reorganisation leaves d as a side branch of its own. That branch is rooted nowhere, and if it is
      heavy by itself, the next pass leaves the bounds. */
  lemma StrayExample(setup: Setup, g: Block, x: Block, y: Block, a: Block, b: Block, d: Block, pool: map<Id, Tx>,
                     now: int)
    requires Apart([g, x, y, a, b, d])
    requires a.prev == Some(g.id) && b.prev == Some(a.id) && d.prev == Some(a.id)
    requires x.bits == a.bits && y.bits == b.bits && Work([g, a, b, d]) < TWO_256
    requires Joins(setup, [g], a, now) && Joins(setup, [g, a], b, now)
    requires PreOk(setup.rules, [g, x, y], d, now) && PreOk(setup.rules, [g, a, b], d, now)
    ensures var t := Handled(setup, Chains([g, x, y], [[a, b]], pool, false), d, now);
            && t.active == [g, x, y] && t.sides == [[a, b, d], [d]] && !Rooted(t.active, t.sides[1][0])
            && (Outweighs([d], [g, x, y]) ==> Reorganise(setup, t, 0, 2, now).outcome == LeftBounds(1))
  {
    hide *;
    var c := Chains([g, x, y], [[a, b]], pool, false);
    var t := Chains([g, x, y], [[a, b, d]], pool, false);
    PlacedOnSide(setup, g, x, y, a, b, d, now);
    HandledIs(setup, c, d, now);
    PlacedThere(c, a, b, d);
    OneMoreOutweighs(g, x, y, a, b, d);
    FailsAtThird(setup, g, x, y, a, b, d, now);
    Distinct(g, x, y, a, b, d);
    RootedAtFirst(g, x, y, a);
    assert t.active[..1] + t.sides[0] == [g, a, b, d];
    TriedOnce(setup, t, now);
    assert [[a, b, d]] + [[d]] == [[a, b, d], [d]];
    if Outweighs([d], [g, x, y]) {
      StrayLeavesBounds(setup, g, x, y, a, b, d, Handled(setup, c, d, now), now);
    }
    NotBehind(g, x, y, d);
  }

  lemma NotBehind(g: Block, x: Block, y: Block, d: Block)
    ensures Rooted([g, x, y], d) ==> d.prev.Some? && d.prev.value in {g.id, x.id, y.id}
  {
  }

  lemma StrayLeavesBounds(setup: Setup, g: Block, x: Block, y: Block, a: Block, b: Block, d: Block, t: Chains, now: int)
    requires Apart([g, x, y, a, b, d]) && a.prev == Some(g.id) && d.prev == Some(a.id)
    requires Joins(setup, [g], a, now) && Joins(setup, [g, a], b, now) && PreOk(setup.rules, [g, a, b], d, now)
    requires t.active == [g, x, y] && t.sides == [[a, b, d], [d]] && Outweighs([d], [g, x, y])
    ensures Reorganise(setup, t, 0, 2, now).outcome == LeftBounds(1)
  {
    hide *;
    Distinct(g, x, y, a, b, d);
    FailsAtThird(setup, g, x, y, a, b, d, now);
    RootedAtFirst(g, x, y, a);
    ThreeDistinct(g, x, y);
    NotBehind(g, x, y, d);
    JoiningFacts(setup, [g], [a, b, d], now);
    assert [g, x, y][..1] == [g];
    DoesNotConnect(setup, [g], [a, b, d], now);
    NoBetterBranchAt(setup, t.active, t.sides[0], now);
    assert t.sides[0..1] == [t.sides[0]];
    OnlyOne(setup, t.active, t.sides[0], now);
    UnrootedWhen(t.active, [d]);
    EndsAtIff(setup, t, 1, 0, now);
  }

  lemma OnlyOne(setup: Setup, active: seq<Block>, branch: seq<Block>, now: int)
    requires NoBetterBranch(setup, active, branch, now)
    ensures NothingBetter(setup, active, [branch], now)
  {
    hide NoBetterBranch;
  }

  lemma DoesNotConnect(setup: Setup, prefix: seq<Block>, branch: seq<Block>, now: int)
    requires Joining(setup, prefix, branch, now) < |branch|
    ensures !BranchConnects(setup, prefix, branch, now)
  {
    hide Joins;
    JoiningFacts(setup, prefix, branch, now);
  }

  lemma ThreeDistinct(g: Block, x: Block, y: Block)
    requires g.id != x.id && g.id != y.id && x.id != y.id
    ensures DistinctBlocks([g, x, y])
  {
  }

  lemma PlacedThere(c: Chains, a: Block, b: Block, d: Block)
    requires c.sides == [[a, b]]
    ensures Placed(c, d, 1) == c.(sides := [[a, b, d]])
  {
    assert [a, b] + [d] == [a, b, d];
    assert [[a, b]][0 := [a, b, d]] == [[a, b, d]];
  }

  /** A pass over a single branch that outweighs and does not connect. */
  lemma TriedOnce(setup: Setup, t: Chains, now: int)
    requires |t.sides| == 1 && t.sides[0] != [] && ForkOf(t.active, t.sides[0][0]) == Some(0) && t.active != []
    requires Outweighs(t.active[..1] + t.sides[0], t.active)
    requires Joining(setup, t.active[..1], t.sides[0], now) < |t.sides[0]|
    ensures var p := Reorganise(setup, t, 0, 1, now);
            p.outcome == Kept && p.chains.active == t.active
            && p.chains.sides == t.sides + Strays(setup, t.active[..1], t.sides[0], now)
  {
    hide Outweighs, ForkOf, Joining, Strays, PoolAfter, PoolBefore;
    var t' := AfterTry(setup, t, 0, 0, now);
    assert Reorganise(setup, t', 1, 1, now) == Pass(t', Kept);
  }

  lemma RootedAtFirst(g: Block, x: Block, y: Block, a: Block)
    requires g.id != x.id && g.id != y.id && a.prev == Some(g.id)
    ensures ForkOf([g, x, y], a) == Some(0)
  {
    assert [g, x, y][..2] == [g, x] && [g, x][..1] == [g];
    assert PlaceOf([g], g.id) == Some(0);
    assert PlaceOf([g, x], g.id) == Some(0);
  }

  lemma FailsAtThird(setup: Setup, g: Block, x: Block, y: Block, a: Block, b: Block, d: Block, now: int)
    requires Apart([g, x, y, a, b, d]) && d.prev == Some(a.id)
    requires Joins(setup, [g], a, now) && Joins(setup, [g, a], b, now) && PreOk(setup.rules, [g, a, b], d, now)
    ensures Joining(setup, [g, x, y][..1], [a, b, d], now) == 2
    ensures Strays(setup, [g, x, y][..1], [a, b, d], now) == [[d]]
  {
    hide Joins, PreOk;
    var branch := [a, b, d];
    Distinct(g, x, y, a, b, d);
    assert [g, x, y][..1] == [g];
    assert [g] + branch[..0] == [g] && [g] + branch[..1] == [g, a] && [g] + branch[..2] == [g, a, b];
    assert OpensStray(setup, [g, a, b], d, now);
    StraysDoNotJoin(setup, [g, a, b], d, now);
    JoiningIs(setup, [g], branch, now, 2);
  }

  lemma PlacedOnSide(setup: Setup, g: Block, x: Block, y: Block, a: Block, b: Block, d: Block, now: int)
    requires Apart([g, x, y, a, b, d]) && d.prev == Some(a.id) && PreOk(setup.rules, [g, x, y], d, now)
    ensures ConnectResult(setup, [g, x, y], [[a, b]], d, now) == 1
  {
    hide PreOk, Fold, ContextOk;
    Distinct(g, x, y, a, b, d);
    assert !Has([g, x, y], d.id) && !Has([a, b], d.id) && !Has([g, x, y], a.id);
    assert [a, b][0].id == a.id;
    assert [[a, b]][0] == [a, b] && Has([a, b], a.id);
    hide Has;
    assert FirstSide([[a, b]], a.id) == 1;
    assert !Located([g, x, y], [[a, b]], d.id);
    assert Destination([g, x, y], [[a, b]], d) == Some(1);
  }

  lemma Distinct(g: Block, x: Block, y: Block, a: Block, b: Block, d: Block)
    requires Apart([g, x, y, a, b, d])
    ensures d.id !in {g.id, x.id, y.id, a.id, b.id} && a.id !in {g.id, x.id, y.id, b.id}
    ensures g.id !in {x.id, y.id} && x.id !in {g.id, y.id, a.id, b.id, d.id}
  {
    var l := [g, x, y, a, b, d];
    assert l[0].id != l[1].id && l[0].id != l[2].id && l[0].id != l[3].id && l[0].id != l[5].id;
    assert l[1].id != l[2].id && l[1].id != l[3].id && l[1].id != l[4].id && l[1].id != l[5].id;
    assert l[2].id != l[3].id && l[2].id != l[5].id && l[3].id != l[4].id && l[3].id != l[5].id && l[4].id != l[5].id;
  }

  // ----- Leaving the bounds -----

  lemma HeavyBits()
    ensures 4 * Difficulty.BlockWork(24) < Difficulty.BlockWork(250)
  {
    Difficulty.WorkAround(230);
    Difficulty.WorkAround(5);
    Arithmetic.Pow2Add(25, 2);
    Arithmetic.Pow2Strict(27, 250);
  }

  /** A swap can unroot another branch: [z] was rooted at x, and once [a, b, d] has replaced
      [x, y] it is rooted nowhere. If it is heavy by itself, the next pass leaves the bounds. */
  lemma SwapUnroots(setup: Setup, g: Block, x: Block, y: Block, a: Block, b: Block, d: Block, z: Block,
                    pool: map<Id, Tx>, now: int)
    requires Apart([g, x, y, a, b, d]) && a.prev == Some(g.id) && z.prev == Some(x.id)
    requires g.bits == x.bits == y.bits == a.bits == b.bits == d.bits == 24 && z.bits == 250
    requires BranchConnects(setup, [g], [a, b, d], now)
    ensures Rooted([g, x, y], z)
    ensures var p := Reorganise(setup, Chains([g, x, y], [[a, b, d], [z]], pool, false), 0, 2, now);
            && p.outcome == Switched(0, 0)
            && p.chains.active == [g, a, b, d] && p.chains.sides == [[z], [x, y]] && !p.chains.outOfRange
            && Unrooted(p.chains.active, [z])
            && Reorganise(setup, p.chains, 0, 2, now).outcome == LeftBounds(0)
  {
    hide *;
    var c := Chains([g, x, y], [[a, b, d], [z]], pool, false);
    Distinct(g, x, y, a, b, d);
    WorkOfThree(g, a, b);
    WorkOfFour(g, a, b, d);
    HeavyBits();
    WorkFits();
    OneMoreOutweighs(g, x, y, a, b, d);
    RootedAtFirst(g, x, y, a);
    assert [g, x, y][..1] == [g] && [g] + [a, b, d] == [g, a, b, d];
    SwitchesFirst(setup, c, now);
    assert [[a, b, d], [z]][..0] + [[a, b, d], [z]][1..] + [[x, y]] == [[z], [x, y]];
    Unrooting(g, x, y, a, b, d, z);
    LeavesAtFirst(setup, Reorganise(setup, c, 0, 2, now).chains, now);
  }

  lemma WorkFits()
    ensures 0 < Difficulty.BlockWork(24) && Difficulty.BlockWork(250) < TWO_256
  {
  }

  lemma Unrooting(g: Block, x: Block, y: Block, a: Block, b: Block, d: Block, z: Block)
    requires x.id !in {g.id, a.id, b.id, d.id} && z.prev == Some(x.id)
    requires Work([g, a, b, d]) < Difficulty.BlockWork(z.bits)
    ensures Rooted([g, x, y], z) && Unrooted([g, a, b, d], [z])
  {
    hide Work, Difficulty.BlockWork;
    OneMoreWork([], z);
    assert [] + [z] == [z];
    WorkFitsFor(z);
    assert [g, x, y][1].id == x.id;
  }

  lemma WorkFitsFor(z: Block)
    ensures Work([]) == 0 && Difficulty.BlockWork(z.bits) < TWO_256
  {
  }

  lemma SwitchesFirst(setup: Setup, c: Chains, now: int)
    requires |c.sides| == 2 && c.sides[0] != [] && c.active != [] && ForkOf(c.active, c.sides[0][0]) == Some(0)
    requires Outweighs(c.active[..1] + c.sides[0], c.active) && BranchConnects(setup, c.active[..1], c.sides[0], now)
    ensures var p := Reorganise(setup, c, 0, 2, now);
            && p.outcome == Switched(0, 0) && p.chains.active == c.active[..1] + c.sides[0]
            && p.chains.sides == c.sides[..0] + c.sides[1..] + [c.active[1..]] && p.chains.outOfRange == c.outOfRange
  {
    hide Outweighs, ForkOf, PoolAfter, PoolBefore, Joining, Joins;
    JoiningFacts(setup, c.active[..1], c.sides[0], now);
    JoiningIs(setup, c.active[..1], c.sides[0], now, Joining(setup, c.active[..1], c.sides[0], now));
  }

  lemma LeavesAtFirst(setup: Setup, c: Chains, now: int)
    requires |c.sides| == 2 && c.sides[0] != [] && Unrooted(c.active, c.sides[0])
    ensures Reorganise(setup, c, 0, 2, now).outcome == LeftBounds(0)
  {
    hide Outweighs, PlaceOf;
    assert [] + c.sides[0] == c.sides[0];
  }
}
