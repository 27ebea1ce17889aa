/** Where the side branches are rooted: how a pass over them ends, and when they stay rooted. */
module Roots {
  import opened Types
  import opened TxRules
  import opened Ledger
  import opened ChainSpec
  import opened Branches

  // ----- How a pass ends -----

  /** The branch starts from block f of the active chain, outweighs it and connects. */
  ghost predicate Better(setup: Setup, active: seq<Block>, branch: seq<Block>, f: nat, now: int) {
    && f < |active| && branch != [] && branch[0].prev == Some(active[f].id)
    && Outweighs(active[..f + 1] + branch, active) && BranchConnects(setup, active[..f + 1], branch, now)
  }

  lemma NotBetter(setup: Setup, active: seq<Block>, branch: seq<Block>, f: nat, now: int)
    requires NoBetterBranch(setup, active, branch, now)
    ensures !Unrooted(active, branch) && !Better(setup, active, branch, f, now)
  {
    hide Outweighs, BranchConnects;
  }

  lemma BetterIsRooted(setup: Setup, active: seq<Block>, branch: seq<Block>, f: nat, now: int)
    requires Better(setup, active, branch, f, now)
    ensures !Unrooted(active, branch)
  {
    hide Outweighs, BranchConnects;
  }

  lemma OneFork(setup: Setup, active: seq<Block>, branch: seq<Block>, f: nat, f': nat, now: int)
    requires DistinctBlocks(active) && Better(setup, active, branch, f, now) && Better(setup, active, branch, f', now)
    ensures f == f'
  {
    hide Outweighs, BranchConnects;
  }

  lemma NothingBetterAt(setup: Setup, active: seq<Block>, sides: seq<seq<Block>>, v: nat, j: nat, now: int)
    requires j < v <= |sides| && NothingBetter(setup, active, sides[0..v], now)
    ensures NoBetterBranch(setup, active, sides[j], now)
  {
    hide NoBetterBranch;
    assert sides[0..v][j] == sides[j];
  }

  /** What PassIs says of the branch at which the pass stopped. */
  lemma StopIs(setup: Setup, c: Chains, now: int, p: Pass)
    requires PassIs(setup, c, 0, |c.sides|, now, p)
    ensures var u := StopOf(p.outcome, |c.sides|);
            && u <= |c.sides| && NothingBetter(setup, c.active, c.sides[0..u], now)
            && (p.outcome.LeftBounds? ==> u < |c.sides| && Unrooted(c.active, c.sides[u]))
            && (p.outcome.Switched? ==> u < |c.sides| && Better(setup, c.active, c.sides[u], p.outcome.fork, now))
  {
    hide NothingBetter, Unrooted, Outweighs, BranchConnects, AllStrays;
  }

  /** A pass ends at the first branch that is unrooted or better, and there is at most one way to end
      at a branch. */
  lemma EndsAtIff(setup: Setup, c: Chains, u: nat, f: nat, now: int)
    requires DistinctBlocks(c.active) && u < |c.sides|
    ensures var p := Reorganise(setup, c, 0, |c.sides|, now);
            && (p.outcome == LeftBounds(u) <==>
                  NothingBetter(setup, c.active, c.sides[0..u], now) && Unrooted(c.active, c.sides[u]))
            && (p.outcome == Switched(u, f) <==>
                  NothingBetter(setup, c.active, c.sides[0..u], now) && Better(setup, c.active, c.sides[u], f, now))
  {
    hide *;
    var n, p := |c.sides|, Reorganise(setup, c, 0, |c.sides|, now);
    ReorganiseIs(setup, c, 0, n, now);
    StopIs(setup, c, now, p);
    StopValue(p.outcome, n);
    var v := StopOf(p.outcome, n);
    if NothingBetter(setup, c.active, c.sides[0..u], now) {
      if v < u {
        NothingBetterAt(setup, c.active, c.sides, u, v, now);
        NotBetter(setup, c.active, c.sides[v], if p.outcome.Switched? then p.outcome.fork else 0, now);
      }
      if Better(setup, c.active, c.sides[u], f, now) {
        BetterIsRooted(setup, c.active, c.sides[u], f, now);
      }
      if u < v {
        NothingBetterAt(setup, c.active, c.sides, v, u, now);
        NotBetter(setup, c.active, c.sides[u], f, now);
      } else if u == v && p.outcome.Switched? {
        BetterIsRooted(setup, c.active, c.sides[u], p.outcome.fork, now);
        if Better(setup, c.active, c.sides[u], f, now) {
          OneFork(setup, c.active, c.sides[u], f, p.outcome.fork, now);
        }
      }
    }
  }

  lemma StopValue(outcome: Outcome, n: nat)
    ensures StopOf(outcome, n) == if outcome.Kept? then n else outcome.branch
  {
  }

  // ----- All branches rooted -----

  ghost predicate AllRooted(active: seq<Block>, sides: seq<seq<Block>>) {
    forall k | 0 <= k < |sides| :: sides[k] != [] && Rooted(active, sides[k][0])
  }

  /** The block the other branch starts from is kept by a swap at block f, or comes back with the
      branch. */
  ghost predicate StaysRooted(active: seq<Block>, f: nat, branch: seq<Block>, other: seq<Block>)
    requires other != [] && Rooted(active, other[0])
  {
    var g := ForkOf(active, other[0]).value;
    g <= f || Has(branch, active[g].id)
  }

  lemma OtherRoot(active: seq<Block>, f: nat, branch: seq<Block>, other: seq<Block>)
    requires DistinctBlocks(active) && f < |active| && other != [] && Rooted(active, other[0])
    ensures Rooted(active[..f + 1] + branch, other[0]) <==> StaysRooted(active, f, branch, other)
  {
    hide PlaceOf;
    var g, next := ForkOf(active, other[0]).value, active[..f + 1] + branch;
    var id := other[0].prev.value;
    assert active[g].id == id;
    if g <= f {
      assert next[g].id == id;
    }
    if Has(branch, id) {
      var i :| 0 <= i < |branch| && branch[i].id == id;
      assert next[f + 1 + i].id == id;
    }
    if Has(next, id) {
      var i :| 0 <= i < |next| && next[i].id == id;
      if i > f {
        assert branch[i - f - 1].id == id;
      } else {
        assert next[i] == active[i];
      }
    }
  }

  lemma OldTailRoot(active: seq<Block>, f: nat, branch: seq<Block>)
    requires Linked(active) && f + 1 < |active|
    ensures active[f + 1..] != [] && Rooted(active[..f + 1] + branch, active[f + 1..][0])
  {
    var next := active[..f + 1] + branch;
    assert active[f + 1..][0] == active[f + 1] && next[f] == active[f];
    assert active[f + 1].prev == Some(active[f].id);
  }

  /** The branches after a swap: the others, and the old tail. */
  lemma SwappedSides(next: seq<Block>, sides: seq<seq<Block>>, k: nat, tail: seq<Block>)
    requires k < |sides|
    ensures AllRooted(next, sides[..k] + sides[k + 1..] + [tail]) <==>
            && tail != [] && Rooted(next, tail[0])
            && forall j | 0 <= j < |sides| && j != k :: sides[j] != [] && Rooted(next, sides[j][0])
  {
    hide Rooted;
    var swapped := sides[..k] + sides[k + 1..] + [tail];
    assert swapped[|swapped| - 1] == tail;
    assert forall j | 0 <= j < k :: swapped[j] == sides[j];
    assert forall j | k < j < |sides| :: swapped[j - 1] == sides[j];
    if AllRooted(next, swapped) {
      forall j | 0 <= j < |sides| && j != k
        ensures sides[j] != [] && Rooted(next, sides[j][0])
      {
        var i := if j < k then j else j - 1;
        assert swapped[i] == sides[j];
      }
    }
  }

  /** Exactly when a swap keeps every branch rooted: there is an old tail, and every other branch
      starts from a block that is kept or comes back with the branch. */
  lemma SwapRootsIff(active: seq<Block>, sides: seq<seq<Block>>, f: nat, k: nat)
    requires DistinctBlocks(active) && Linked(active) && AllRooted(active, sides) && f < |active| && k < |sides|
    ensures AllRooted(active[..f + 1] + sides[k], sides[..k] + sides[k + 1..] + [active[f + 1..]]) <==>
            f + 1 < |active| && forall j | 0 <= j < |sides| && j != k :: StaysRooted(active, f, sides[k], sides[j])
  {
    hide Rooted, StaysRooted, DistinctBlocks, Linked;
    SwappedSides(active[..f + 1] + sides[k], sides, k, active[f + 1..]);
    if f + 1 < |active| {
      OldTailRoot(active, f, sides[k]);
    }
    forall j | 0 <= j < |sides| && j != k
      ensures Rooted(active[..f + 1] + sides[k], sides[j][0]) <==> StaysRooted(active, f, sides[k], sides[j])
    {
      OtherRoot(active, f, sides[k], sides[j]);
    }
  }

  // ----- Strays -----

  ghost predicate StraysRooted(setup: Setup, active: seq<Block>, branch: seq<Block>, on: seq<Block>, now: int) {
    AllRooted(on, StraysAt(setup, active, branch, now))
  }

  lemma AllRootedJoin(on: seq<Block>, a: seq<seq<Block>>, b: seq<seq<Block>>)
    ensures AllRooted(on, a + b) <==> AllRooted(on, a) && AllRooted(on, b)
  {
    hide Rooted;
    if AllRooted(on, a + b) {
      assert forall k | 0 <= k < |a| :: (a + b)[k] == a[k];
      forall k | 0 <= k < |b|
        ensures b[k] != [] && Rooted(on, b[k][0])
      {
        assert (a + b)[|a| + k] == b[k];
      }
    }
  }

  lemma {:induction false} StraysOfAll(setup: Setup, active: seq<Block>, branches: seq<seq<Block>>, on: seq<Block>,
                                       now: int)
    ensures AllRooted(on, AllStrays(setup, active, branches, now)) <==>
            forall j | 0 <= j < |branches| :: StraysRooted(setup, active, branches[j], on, now)
  {
    hide StraysAt, Rooted;
    if branches != [] {
      StraysOfAll(setup, active, branches[1..], on, now);
      AllRootedJoin(on, StraysAt(setup, active, branches[0], now), AllStrays(setup, active, branches[1..], now));
      assert forall j | 1 <= j < |branches| :: branches[j] == branches[1..][j - 1];
    }
  }

  // ----- Passes -----

  lemma NoneUnrooted(active: seq<Block>, sides: seq<seq<Block>>)
    requires AllRooted(active, sides)
    ensures forall k | 0 <= k < |sides| :: !Unrooted(active, sides[k])
  {
    hide Outweighs, Rooted;
  }

  /** A pass over rooted branches that does not switch ends within bounds, and exactly if every stray
      it leaves starts from the active chain, all branches are rooted still. */
  lemma FailureRootsIff(setup: Setup, c: Chains, now: int)
    requires DistinctBlocks(c.active) && AllRooted(c.active, c.sides)
    ensures var p := Reorganise(setup, c, 0, |c.sides|, now);
            !p.outcome.Switched? ==>
              && p.outcome.Kept?
              && (AllRooted(p.chains.active, p.chains.sides) <==>
                    forall j | 0 <= j < |c.sides| :: StraysRooted(setup, c.active, c.sides[j], c.active, now))
  {
    hide *;
    var n, p := |c.sides|, Reorganise(setup, c, 0, |c.sides|, now);
    ReorganiseIs(setup, c, 0, n, now);
    StopIs(setup, c, now, p);
    SidesAfter(setup, c, now, p);
    StopValue(p.outcome, n);
    if !p.outcome.Switched? {
      UnrootedNot(c.active, c.sides, StopOf(p.outcome, n));
      assert c.sides[0..n] == c.sides;
      StraysOfAll(setup, c.active, c.sides, c.active, now);
      AllRootedJoin(c.active, c.sides, AllStrays(setup, c.active, c.sides, now));
    }
  }

  lemma UnrootedNot(active: seq<Block>, sides: seq<seq<Block>>, u: nat)
    requires AllRooted(active, sides)
    ensures u < |sides| ==> !Unrooted(active, sides[u])
  {
    hide Unrooted;
    NoneUnrooted(active, sides);
  }

  lemma SidesAfter(setup: Setup, c: Chains, now: int, p: Pass)
    requires PassIs(setup, c, 0, |c.sides|, now, p)
    ensures var u := StopOf(p.outcome, |c.sides|);
            u <= |c.sides| &&
            var sides := c.sides + AllStrays(setup, c.active, c.sides[0..u], now);
            if p.outcome.Switched? then
              && u < |c.sides| && p.outcome.fork < |c.active|
              && p.chains.active == c.active[..p.outcome.fork + 1] + c.sides[u]
              && p.chains.sides == sides[..u] + sides[u + 1..] + [c.active[p.outcome.fork + 1..]]
            else p.chains.active == c.active && p.chains.sides == sides
  {
    hide NothingBetter, Unrooted, Outweighs, BranchConnects, AllStrays;
  }

  /** A pass over rooted branches that switches to branch u from block f keeps them all rooted exactly
      if there is an old tail, every other branch starts from a block that is kept or comes back, and
      so does every stray that was left on the way to branch u. */
  lemma SwitchRootsIff(setup: Setup, c: Chains, u: nat, f: nat, now: int)
    requires DistinctBlocks(c.active) && Linked(c.active) && AllRooted(c.active, c.sides) && u < |c.sides|
    requires NothingBetter(setup, c.active, c.sides[0..u], now) && Better(setup, c.active, c.sides[u], f, now)
    ensures var p := Reorganise(setup, c, 0, |c.sides|, now);
            && p.outcome == Switched(u, f)
            && (AllRooted(p.chains.active, p.chains.sides) <==>
                  && f + 1 < |c.active|
                  && (forall j | 0 <= j < |c.sides| && j != u :: StaysRooted(c.active, f, c.sides[u], c.sides[j]))
                  && (forall j | 0 <= j < u ::
                        StraysRooted(setup, c.active, c.sides[j], c.active[..f + 1] + c.sides[u], now)))
  {
    hide *;
    BetterForks(setup, c.active, c.sides[u], f, now);
    var n, p, next := |c.sides|, Reorganise(setup, c, 0, |c.sides|, now), c.active[..f + 1] + c.sides[u];
    var strays := AllStrays(setup, c.active, c.sides[0..u], now);
    ReorganiseIs(setup, c, 0, n, now);
    EndsAtIff(setup, c, u, f, now);
    SidesAfter(setup, c, now, p);
    StopValue(p.outcome, n);
    SwappedSides(next, c.sides + strays, u, c.active[f + 1..]);
    SwappedSides(next, c.sides, u, c.active[f + 1..]);
    SwapRootsIff(c.active, c.sides, f, u);
    StrayParts(next, c.sides, strays, u);
    StraysOfAll(setup, c.active, c.sides[0..u], next, now);
    assert forall j | 0 <= j < u :: c.sides[0..u][j] == c.sides[j];
  }

  lemma BetterForks(setup: Setup, active: seq<Block>, branch: seq<Block>, f: nat, now: int)
    requires Better(setup, active, branch, f, now)
    ensures f < |active|
  {
    hide Outweighs, BranchConnects;
  }

  lemma StrayParts(next: seq<Block>, sides: seq<seq<Block>>, strays: seq<seq<Block>>, u: nat)
    requires u < |sides|
    ensures (forall j | 0 <= j < |sides + strays| && j != u ::
               (sides + strays)[j] != [] && Rooted(next, (sides + strays)[j][0])) <==>
            (forall j | 0 <= j < |sides| && j != u :: sides[j] != [] && Rooted(next, sides[j][0])) && AllRooted(next, strays)
  {
    hide Rooted;
    var joined := sides + strays;
    assert forall j | 0 <= j < |sides| :: joined[j] == sides[j];
    assert forall j | 0 <= j < |strays| :: joined[|sides| + j] == strays[j];
  }

  lemma NewBranchIsRooted(setup: Setup, active: seq<Block>, sides: seq<seq<Block>>, b: Block, now: int)
    requires ConnectResult(setup, active, sides, b, now) == |sides| + 1
    ensures Rooted(active, b)
  {
    hide PreOk, ContextOk, Fold, Located, FirstSide, Follows, Has;
  }

  lemma LongerChainRoots(active: seq<Block>, b: Block, root: Block)
    requires Rooted(active, root)
    ensures Rooted(active + [b], root)
  {
    var i :| 0 <= i < |active| && active[i].id == root.prev.value;
    assert (active + [b])[i].id == root.prev.value;
  }

  /** Putting a block on its chain keeps every branch rooted: only a pass can unroot one. */
  lemma PlacedKeepsRoots(setup: Setup, c: Chains, b: Block, now: int)
    requires AllRooted(c.active, c.sides) && ConnectResult(setup, c.active, c.sides, b, now) >= 0
    ensures var t := Placed(c, b, ConnectResult(setup, c.active, c.sides, b, now));
            AllRooted(t.active, t.sides)
  {
    hide Rooted, ConnectResult;
    var r := ConnectResult(setup, c.active, c.sides, b, now);
    var t := Placed(c, b, r);
    forall k | 0 <= k < |t.sides|
      ensures t.sides[k] != [] && Rooted(t.active, t.sides[k][0])
    {
      if k == |c.sides| {
        NewBranchIsRooted(setup, c.active, c.sides, b, now);
      } else if r == 0 {
        LongerChainRoots(c.active, b, c.sides[k][0]);
      }
    }
  }

  // ----- Within bounds -----

  /** The first branch on which a pass would leave the bounds; their number if there is none. */
  ghost function FirstUnrooted(active: seq<Block>, sides: seq<seq<Block>>): (u: nat)
    ensures u <= |sides| && (u < |sides| ==> Unrooted(active, sides[u]))
    ensures forall j | 0 <= j < u :: !Unrooted(active, sides[j])
  {
    if sides == [] || Unrooted(active, sides[0]) then 0
    else
      assert forall j | 1 <= j < |sides| :: sides[j] == sides[1..][j - 1];
      1 + FirstUnrooted(active, sides[1..])
  }

  /** A pass that does not switch goes as far as the first unrooted branch. */
  lemma StopsAtUnrooted(setup: Setup, c: Chains, now: int)
    requires DistinctBlocks(c.active)
    ensures var p := Reorganise(setup, c, 0, |c.sides|, now);
            !p.outcome.Switched? ==> StopOf(p.outcome, |c.sides|) == FirstUnrooted(c.active, c.sides)
  {
    hide *;
    var n, p := |c.sides|, Reorganise(setup, c, 0, |c.sides|, now);
    ReorganiseIs(setup, c, 0, n, now);
    StopIs(setup, c, now, p);
    StopValue(p.outcome, n);
    if !p.outcome.Switched? {
      var v, u := StopOf(p.outcome, n), FirstUnrooted(c.active, c.sides);
      if u < v {
        NothingBetterAt(setup, c.active, c.sides, v, u, now);
        NotBetter(setup, c.active, c.sides[u], 0, now);
      }
    }
  }

  // ----- Blocks without a predecessor -----

  lemma LinkedNext(active: seq<Block>, b: Block)
    requires active != []
    ensures Linked(active + [b]) ==> b.prev == Some(active[|active| - 1].id)
    ensures Linked(active) && b.prev == Some(active[|active| - 1].id) ==> Linked(active + [b])
  {
    var next, n := active + [b], |active|;
    assert next[n] == b && next[n - 1] == active[n - 1];
    assert Linked(next) ==> next[n].prev == Some(next[n - 1].id);
    assert forall i | 0 <= i < n :: next[i] == active[i];
  }

  /** A block without a predecessor goes to the active chain, behind the tip, once it passes the
      checks and has the initial bits; the chain is not linked any more. */
  lemma RootlessIsAppended(setup: Setup, active: seq<Block>, sides: seq<seq<Block>>, b: Block, now: int)
    requires active != [] && FitsHeight(|active|) && b.prev.None?
    ensures ConnectResult(setup, active, sides, b, now) == 0 <==>
            && !Located(active, sides, b.id) && PreOk(setup.rules, active, b, now)
            && ContextOk(setup.rules, active, Fold(|setup.base|, active), map[], b)
    ensures ConnectResult(setup, active, sides, b, now) == 0 ==> b.bits == INITIAL_DIFFICULTY_BITS
    ensures !Linked(active + [b])
  {
    hide Shape, TimeOk, Fold, Located, ContextOk, FirstSide, Linked;
    LinkedNext(active, b);
    SomeTx(setup.rules, b);
    if b.txs != [] && ContextOk(setup.rules, active, Fold(|setup.base|, active), map[], b) {
      InitialBits(setup.rules, active, Fold(|setup.base|, active), b);
    }
  }

  lemma SomeTx(rules: Rules, b: Block)
    ensures Shape(rules, b) ==> b.txs != []
  {
    hide BasicsOk;
  }

  lemma InitialBits(rules: Rules, active: seq<Block>, utxos: UtxoMap, b: Block)
    requires b.prev.None? && b.txs != [] && ContextOk(rules, active, utxos, map[], b)
    ensures b.bits == INITIAL_DIFFICULTY_BITS
  {
    hide TxValid, FeeSum, Subsidy, OutSum, BlockContext;
  }

  /** Exactly when a block that was accepted for the active chain leaves it linked. */
  lemma StaysLinkedIff(setup: Setup, active: seq<Block>, sides: seq<seq<Block>>, b: Block, now: int)
    requires FitsHeight(|active|) && Linked(active) && ConnectResult(setup, active, sides, b, now) == 0
    ensures Linked(active + [b]) <==> active == [] || b.prev.Some?
  {
    hide Shape, TimeOk, Fold, ContextOk, Located, FirstSide;
    if active != [] {
      LinkedNext(active, b);
    }
  }
}
