/** Side branches: where a block goes, when it joins, and reorganisation as a function of the
    chains. */
module Branches {
  import opened Types
  import opened TxRules
  import opened Ledger
  import opened ChainSpec
  import Difficulty

  // ----- Side branches -----

  /** Every block but the first has its predecessor earlier in the branch, though not
      necessarily right before it. */
  ghost predicate SelfContained(branch: seq<Block>) {
    forall k | 1 <= k < |branch| :: branch[k].prev.Some? && Has(branch[..k], branch[k].prev.value)
  }

  ghost predicate BranchOk(setup: Setup, known: iset<Block>, branch: seq<Block>) {
    && SelfContained(branch)
    && forall i | 0 <= i < |branch| :: branch[i] in known && branch[i].prev.Some? && Shape(setup.rules, branch[i])
  }

  ghost predicate SidesOk(setup: Setup, known: iset<Block>, sides: seq<seq<Block>>) {
    forall k | 0 <= k < |sides| :: BranchOk(setup, known, sides[k])
  }

  /** The number, from one, of the first side branch that holds the block; zero if none does. */
  ghost function FirstSide(sides: seq<seq<Block>>, id: Id): (k: nat)
    ensures k <= |sides|
    ensures k > 0 ==> Has(sides[k - 1], id)
    ensures k == 0 <==> forall j | 0 <= j < |sides| :: !Has(sides[j], id)
  {
    if sides == [] then 0
    else
      var n := |sides| - 1;
      var earlier := FirstSide(sides[..n], id);
      assert forall j | 0 <= j < n :: sides[..n][j] == sides[j];
      if earlier > 0 then earlier else if Has(sides[n], id) then n + 1 else 0
  }

  /** locate_block_in_all_chains: zero for the active chain. */
  ghost function Locate(active: seq<Block>, sides: seq<seq<Block>>, id: Id): Option<nat> {
    if Has(active, id) then Some(0)
    else if FirstSide(sides, id) > 0 then Some(FirstSide(sides, id)) else None
  }

  ghost predicate Located(active: seq<Block>, sides: seq<seq<Block>>, id: Id) {
    Has(active, id) || exists k :: 0 <= k < |sides| && Has(sides[k], id)
  }

  lemma LocateFinds(active: seq<Block>, sides: seq<seq<Block>>, id: Id)
    ensures Locate(active, sides, id).Some? <==> Located(active, sides, id)
  {
  }

  // ----- Verdicts -----

  datatype Verdict = Accepted(chainIdx: nat) | Orphaned | Rejected

  ghost predicate PreOk(rules: Rules, active: seq<Block>, b: Block, now: int) {
    Shape(rules, b) && b.timestamp - now <= MAX_FUTURE_BLOCK_TIME && TimeOk(active, b)
  }

  /** Which chain the block would go to: the active one behind its tip, a new side branch, the
      first side branch that holds its predecessor, or none. */
  ghost function Destination(active: seq<Block>, sides: seq<seq<Block>>, b: Block): Option<nat> {
    if b.prev.None? then Some(0)
    else if Has(active, b.prev.value) then
      if Follows(active, b) then Some(0) else Some(|sides| + 1)
    else Locate(active, sides, b.prev.value)
  }

  ghost function VerdictOn(rules: Rules, active: seq<Block>, sides: seq<seq<Block>>, utxos: UtxoMap,
                           pool: map<Id, Tx>, b: Block, now: int): Verdict
  {
    if !PreOk(rules, active, b, now) then Rejected
    else
      match Destination(active, sides, b)
      case None => Orphaned
      case Some(k) => if k > 0 || ContextOk(rules, active, utxos, pool, b) then Accepted(k) else Rejected
  }

  /** A block that waits for its predecessor: it is new and passes the checks that need none, and names one
      that is on no chain. */
  ghost predicate IsOrphan(rules: Rules, active: seq<Block>, sides: seq<seq<Block>>, b: Block, now: int) {
    && !Located(active, sides, b.id) && PreOk(rules, active, b, now)
    && b.prev.Some? && !Located(active, sides, b.prev.value)
  }

  // ----- Reorganisation -----

  /** Every block of the branch may follow the prefix and the branch blocks before it. */
  ghost predicate BranchConnects(setup: Setup, prefix: seq<Block>, branch: seq<Block>, now: int) {
    forall i | 0 <= i < |branch| :: Joins(setup, prefix + branch[..i], branch[i], now)
  }

  ghost predicate Joins(setup: Setup, chain: seq<Block>, b: Block, now: int) {
    && Follows(chain, b) && ConnectsTo(setup, chain, b)
    && b.timestamp - now <= MAX_FUTURE_BLOCK_TIME && !Has(chain, b.id)
  }

  // ----- Lemmas about reorganisations -----

  /** A block of a validated chain may always be put back where it was. */
  lemma Rejoins(setup: Setup, known: iset<Block>, chain: seq<Block>, clock: int, k: nat)
    requires Validated(setup, known, chain) && TimesWithin(chain, |setup.base|, clock) && DistinctBlocks(chain)
    requires 1 <= k < |chain| && |setup.base| <= k
    ensures Joins(setup, chain[..k], chain[k], clock)
    ensures chain[k] in known && Shape(setup.rules, chain[k]) && Has(chain[..k], chain[k - 1].id)
    ensures chain[k].prev == Some(chain[k - 1].id)
  {
    hide ConnectsTo, Shape;
    assert chain[..k][k - 1] == chain[k - 1];
    assert forall i | 0 <= i < k :: chain[..k][i] == chain[i];
  }

  /** What is cut off a validated chain is a side branch. */
  lemma TailIsBranch(setup: Setup, known: iset<Block>, chain: seq<Block>, f: nat)
    requires Validated(setup, known, chain) && f < |chain| && |setup.base| <= 1
    ensures BranchOk(setup, known, chain[f + 1..])
  {
    hide ConnectsTo, Shape;
    var tail := chain[f + 1..];
    forall k | 1 <= k < |tail|
      ensures tail[k].prev.Some? && Has(tail[..k], tail[k].prev.value)
    {
      assert tail[..k][k - 1] == chain[f + k];
    }
    forall i | 0 <= i < |tail|
      ensures tail[i] in known && tail[i].prev.Some? && Shape(setup.rules, tail[i])
    {
      assert tail[i] == chain[f + 1 + i];
      assert chain[f + 1 + i].prev == Some(chain[f + i].id);
    }
  }

  lemma CutStep(chain: seq<Block>, n: nat, f: nat)
    requires f < n <= |chain| && chain[n - 1].id != chain[f].id
    ensures f + 1 < n && chain[..n][..n - 1] == chain[..n - 1] && [chain[n - 1]] + chain[n..] == chain[n - 1..]
  {
  }

  lemma SamePlace(chain: seq<Block>, i: nat, j: nat)
    requires DistinctBlocks(chain) && i < |chain| && j < |chain| && chain[i].id == chain[j].id
    ensures i == j
  {
  }

  lemma ReplaceSide(setup: Setup, known: iset<Block>, sides: seq<seq<Block>>, k: nat, tail: seq<Block>)
    requires SidesOk(setup, known, sides) && k < |sides| && BranchOk(setup, known, tail)
    ensures SidesOk(setup, known, sides[..k] + sides[k + 1..] + [tail])
  {
    hide BranchOk;
  }

  /** Swapping a branch with the tail of the active chain loses no block. */
  lemma SwapKeepsLocated(active: seq<Block>, sides: seq<seq<Block>>, f: nat, k: nat, id: Id)
    requires f < |active| && k < |sides| && Located(active, sides, id)
    ensures Located(active[..f + 1] + sides[k], sides[..k] + sides[k + 1..] + [active[f + 1..]], id)
  {
    var active' := active[..f + 1] + sides[k];
    var sides': seq<seq<Block>> := sides[..k] + sides[k + 1..] + [active[f + 1..]];
    if Has(active, id) {
      var i :| 0 <= i < |active| && active[i].id == id;
      if i <= f {
        assert active'[i].id == id;
      } else {
        assert sides'[|sides'| - 1][i - f - 1].id == id;
        assert Has(sides'[|sides'| - 1], id);
      }
    } else {
      var j :| 0 <= j < |sides| && Has(sides[j], id);
      if j == k {
        var i :| 0 <= i < |sides[k]| && sides[k][i].id == id;
        assert active'[f + 1 + i].id == id;
      } else {
        assert sides'[if j < k then j else j - 1] == sides[j];
      }
    }
  }

  /** A branch block's predecessor is on the chain while the branch is being connected. */
  lemma BranchPrevOnChain(setup: Setup, known: iset<Block>, prefix: seq<Block>, branch: seq<Block>, i: nat)
    requires BranchOk(setup, known, branch) && i < |branch|
    requires prefix != [] && branch[0].prev == Some(prefix[|prefix| - 1].id)
    ensures branch[i] in known && branch[i].prev.Some? && Has(prefix + branch[..i], branch[i].prev.value)
    ensures i == 0 ==> Follows(prefix + branch[..i], branch[i])
    ensures i > 0 ==> (Follows(prefix + branch[..i], branch[i]) <==> branch[i].prev == Some(branch[i - 1].id))
  {
    hide Shape;
    var c := prefix + branch[..i];
    if i == 0 {
      assert c == prefix && c[|prefix| - 1].id == branch[0].prev.value;
    } else {
      assert c[|c| - 1] == branch[i - 1];
      var j :| 0 <= j < i && branch[..i][j].id == branch[i].prev.value;
      assert c[|prefix| + j].id == branch[i].prev.value;
    }
  }

  ghost predicate Rooted(active: seq<Block>, root: Block) {
    root.prev.Some? && Has(active, root.prev.value)
  }

  /** The 256-bit comparison of total work. */
  ghost predicate Outweighs(chain: seq<Block>, active: seq<Block>) {
    Work(chain) % TWO_256 > Work(active) % TWO_256
  }

  /** The side branches on which the source leaves the bounds of a vector. */
  ghost predicate Unrooted(active: seq<Block>, branch: seq<Block>) {
    branch == [] || (!Rooted(active, branch[0]) && Outweighs(branch, active))
  }

  /** No reason to reorganise to the branch: it is within bounds, and wherever it is rooted, it
      either does not outweigh the active chain or does not connect. */
  ghost predicate NoBetterBranch(setup: Setup, active: seq<Block>, branch: seq<Block>, now: int) {
    && !Unrooted(active, branch)
    && forall f | 0 <= f < |active| && branch[0].prev == Some(active[f].id) && Outweighs(active[..f + 1] + branch, active) ::
         !BranchConnects(setup, active[..f + 1], branch, now)
  }

  /** What connect_block returns. */
  ghost function ConnectResult(setup: Setup, active: seq<Block>, sides: seq<seq<Block>>, b: Block, now: int): (r: int)
    ensures -1 <= r <= |sides| + 1
  {
    if !FitsHeight(|active|) || Located(active, sides, b.id) then -1
    else
      match VerdictOn(setup.rules, active, sides, Fold(|setup.base|, active), map[], b, now)
      case Accepted(k) => k
      case _ => -1
  }

  /** The chains right after the block was put on chain r. */
  ghost function ActiveWith(active: seq<Block>, b: Block, r: int): seq<Block> {
    if r == 0 then active + [b] else active
  }

  ghost function SidesWith(sides: seq<seq<Block>>, b: Block, r: int): seq<seq<Block>>
    requires r <= |sides| + 1
  {
    if r <= 0 then sides else if r <= |sides| then sides[r - 1 := sides[r - 1] + [b]] else sides + [[b]]
  }

  lemma NoBetterBranchAt(setup: Setup, active: seq<Block>, branch: seq<Block>, now: int)
    requires branch != [] && DistinctBlocks(active)
    requires var fork := ForkOf(active, branch[0]);
             Outweighs(FullBranch(active, branch), active) ==>
               fork.Some? && !BranchConnects(setup, active[..fork.value + 1], branch, now)
    ensures NoBetterBranch(setup, active, branch, now)
  {
    hide BranchConnects, Outweighs, PlaceOf;
    assert [] + branch == branch;
  }

  lemma TrueWork(setup: Setup, chain: seq<Block>)
    requires Tame(setup, chain)
    ensures Work(chain) % TWO_256 == Work(chain)
  {
    hide UniqueIds, NoSameBlockSpend, Work;
  }

  // ----- Reorganisation as a function -----

  /** What connecting, disconnecting and reorganising work on. */
  datatype Chains = Chains(active: seq<Block>, sides: seq<seq<Block>>, pool: map<Id, Tx>, outOfRange: bool)

  /** The pool after the blocks were connected in turn, and after they were disconnected again. */
  ghost function PoolAfter(pool: map<Id, Tx>, blocks: seq<Block>): map<Id, Tx> {
    if blocks == [] then pool
    else PoolAfter(pool, blocks[..|blocks| - 1]) - IdsOf(blocks[|blocks| - 1].txs)
  }

  ghost function PoolBefore(pool: map<Id, Tx>, blocks: seq<Block>): map<Id, Tx>
    decreases |blocks|
  {
    if blocks == [] then pool
    else PoolBefore(ReAdded(pool, blocks[|blocks| - 1].txs), blocks[..|blocks| - 1])
  }

  /** How many blocks of the branch join, one after the other. */
  ghost function Joining(setup: Setup, chain: seq<Block>, branch: seq<Block>, now: int): (n: nat)
    ensures n <= |branch|
  {
    if branch == [] then 0
    else
      var m := |branch| - 1;
      var n := Joining(setup, chain, branch[..m], now);
      if n == m && Joins(setup, chain + branch[..m], branch[m], now) then m + 1 else n
  }

  lemma {:induction false} JoiningFacts(setup: Setup, chain: seq<Block>, branch: seq<Block>, now: int)
    ensures var n := Joining(setup, chain, branch, now);
            && (forall j | 0 <= j < n :: Joins(setup, chain + branch[..j], branch[j], now))
            && (n < |branch| ==> !Joins(setup, chain + branch[..n], branch[n], now))
  {
    hide Joins;
    if branch != [] {
      var m := |branch| - 1;
      JoiningFacts(setup, chain, branch[..m], now);
      assert forall j | 0 <= j <= m :: branch[..m][..j] == branch[..j];
    }
  }

  lemma JoiningIs(setup: Setup, chain: seq<Block>, branch: seq<Block>, now: int, i: nat)
    requires i <= |branch| && forall j | 0 <= j < i :: Joins(setup, chain + branch[..j], branch[j], now)
    requires i < |branch| ==> !Joins(setup, chain + branch[..i], branch[i], now)
    ensures Joining(setup, chain, branch, now) == i
    ensures BranchConnects(setup, chain, branch, now) <==> i == |branch|
  {
    hide Joins;
    JoiningFacts(setup, chain, branch, now);
  }

  /** The block fits the chain, but further down than behind its tip: during a reorganisation it
      opens a new side branch. */
  ghost predicate OpensStray(setup: Setup, chain: seq<Block>, b: Block, now: int) {
    !Has(chain, b.id) && !Follows(chain, b) && PreOk(setup.rules, chain, b, now)
  }

  /** What a failed attempt at the branch leaves behind among the side branches. */
  ghost function Strays(setup: Setup, prefix: seq<Block>, branch: seq<Block>, now: int): seq<seq<Block>> {
    var n := Joining(setup, prefix, branch, now);
    if n < |branch| && OpensStray(setup, prefix + branch[..n], branch[n], now) then [[branch[n]]] else []
  }

  /** try_reorg to side branch k, rooted at block f of the active chain. */
  ghost function AfterTry(setup: Setup, c: Chains, k: nat, f: nat, now: int): (t: Chains)
    requires k < |c.sides| && f < |c.active|
    ensures Joining(setup, c.active[..f + 1], c.sides[k], now) < |c.sides[k]| ==> t.active == c.active && c.sides <= t.sides
  {
    var prefix, tail, branch := c.active[..f + 1], c.active[f + 1..], c.sides[k];
    var n := Joining(setup, prefix, branch, now);
    var connected := PoolAfter(PoolBefore(c.pool, tail), branch[..n]);
    if n == |branch| then c.(active := prefix + branch, sides := c.sides[..k] + c.sides[k + 1..] + [tail], pool := connected)
    else c.(sides := c.sides + Strays(setup, prefix, branch, now), pool := PoolAfter(PoolBefore(connected, branch[..n]), tail))
  }

  ghost function PlaceOf(chain: seq<Block>, id: Id): (r: Option<nat>)
    ensures r.Some? ==> r.value < |chain| && chain[r.value].id == id
    ensures r.None? ==> !Has(chain, id)
  {
    if chain == [] then None
    else
      var n := |chain| - 1;
      if chain[n].id == id then Some(n)
      else
        assert forall i | 0 <= i < n :: chain[..n][i] == chain[i];
        PlaceOf(chain[..n], id)
  }

  /** The block of the active chain that a branch starts from. */
  ghost function ForkOf(active: seq<Block>, root: Block): (r: Option<nat>)
    ensures r.Some? ==> r.value < |active| && root.prev == Some(active[r.value].id)
    ensures r.None? <==> !Rooted(active, root)
  {
    if root.prev.None? then None else PlaceOf(active, root.prev.value)
  }

  /** The branch as a whole chain; only its own blocks if it is rooted nowhere. */
  ghost function FullBranch(active: seq<Block>, branch: seq<Block>): seq<Block>
    requires branch != []
  {
    var fork := ForkOf(active, branch[0]);
    (if fork.Some? then active[..fork.value + 1] else []) + branch
  }

  datatype Outcome = Kept | Switched(branch: nat, fork: nat) | LeftBounds(branch: nat)

  datatype Pass = Pass(chains: Chains, outcome: Outcome)

  /** reorg_if_necessary over side branches k to n: the first heavier branch that connects takes
      over; a heavier branch that is rooted nowhere ends the pass. */
  ghost function Reorganise(setup: Setup, c: Chains, k: nat, n: nat, now: int): Pass
    requires k <= n <= |c.sides|
    decreases n - k
  {
    if k == n then Pass(c, Kept)
    else
      var branch := c.sides[k];
      if branch == [] then Pass(c.(outOfRange := true), LeftBounds(k))
      else if !Outweighs(FullBranch(c.active, branch), c.active) then Reorganise(setup, c, k + 1, n, now)
      else
        match ForkOf(c.active, branch[0])
        case None => Pass(c.(outOfRange := true), LeftBounds(k))
        case Some(f) =>
          var t := AfterTry(setup, c, k, f, now);
          if Joining(setup, c.active[..f + 1], branch, now) == |branch| then Pass(t, Switched(k, f))
          else Reorganise(setup, t, k + 1, n, now)
  }

  /** What the pass leaves behind when it fails at the branch. */
  ghost function StraysAt(setup: Setup, active: seq<Block>, branch: seq<Block>, now: int): seq<seq<Block>> {
    if branch == [] || ForkOf(active, branch[0]).None? || !Outweighs(FullBranch(active, branch), active) then []
    else Strays(setup, active[..ForkOf(active, branch[0]).value + 1], branch, now)
  }

  ghost function AllStrays(setup: Setup, active: seq<Block>, branches: seq<seq<Block>>, now: int): seq<seq<Block>> {
    if branches == [] then []
    else StraysAt(setup, active, branches[0], now) + AllStrays(setup, active, branches[1..], now)
  }

  ghost predicate NothingBetter(setup: Setup, active: seq<Block>, branches: seq<seq<Block>>, now: int) {
    forall j | 0 <= j < |branches| :: NoBetterBranch(setup, active, branches[j], now)
  }

  /** Where a pass stops. */
  ghost function StopOf(outcome: Outcome, n: nat): nat {
    if outcome.Kept? then n else outcome.branch
  }

  /** What a pass does: up to where it stops nothing is a reason to switch, and all it changes
      before it stops is to add the strays of its failed attempts. */
  ghost predicate PassIs(setup: Setup, c: Chains, k: nat, n: nat, now: int, p: Pass)
    requires k <= n <= |c.sides|
  {
    var u := StopOf(p.outcome, n);
    && k <= u <= n && NothingBetter(setup, c.active, c.sides[k..u], now)
    && var sides := c.sides + AllStrays(setup, c.active, c.sides[k..u], now);
       match p.outcome
       case Kept => p.chains.active == c.active && p.chains.sides == sides && p.chains.outOfRange == c.outOfRange
       case LeftBounds(_) =>
         && u < n && Unrooted(c.active, c.sides[u])
         && p.chains.active == c.active && p.chains.sides == sides && p.chains.outOfRange
       case Switched(_, f) =>
         && u < n && f < |c.active| && c.sides[u] != [] && c.sides[u][0].prev == Some(c.active[f].id)
         && p.chains.active == c.active[..f + 1] + c.sides[u] && Outweighs(p.chains.active, c.active)
         && BranchConnects(setup, c.active[..f + 1], c.sides[u], now)
         && p.chains.sides == sides[..u] + sides[u + 1..] + [c.active[f + 1..]] && p.chains.outOfRange == c.outOfRange
  }

  lemma UnrootedWhen(active: seq<Block>, branch: seq<Block>)
    requires branch == [] || (!Rooted(active, branch[0]) && Outweighs(branch, active))
    ensures Unrooted(active, branch)
  {
  }

  /** A branch that was passed over, untried or in vain, then the rest of the pass. */
  lemma PassStep(setup: Setup, c: Chains, t: Chains, k: nat, n: nat, now: int, p: Pass)
    requires k < n <= |c.sides| && NoBetterBranch(setup, c.active, c.sides[k], now)
    requires t.active == c.active && t.outOfRange == c.outOfRange
    requires t.sides == c.sides + StraysAt(setup, c.active, c.sides[k], now)
    requires PassIs(setup, t, k + 1, n, now, p)
    ensures PassIs(setup, c, k, n, now, p)
  {
    hide Outweighs, BranchConnects, NoBetterBranch, StraysAt, Unrooted;
    var u := StopOf(p.outcome, n);
    assert t.sides[k + 1..u] == c.sides[k + 1..u] == c.sides[k..u][1..];
    assert c.sides[k..u][0] == c.sides[k];
    var a, b := StraysAt(setup, c.active, c.sides[k], now), AllStrays(setup, c.active, c.sides[k + 1..u], now);
    assert (c.sides + a) + b == c.sides + (a + b);
    assert u < n ==> t.sides[u] == c.sides[u];
  }

  lemma {:induction false} TryStep(setup: Setup, c: Chains, k: nat, n: nat, now: int)
    requires k < n <= |c.sides| && DistinctBlocks(c.active) && c.sides[k] != []
    requires Outweighs(FullBranch(c.active, c.sides[k]), c.active)
    ensures PassIs(setup, c, k, n, now, Reorganise(setup, c, k, n, now))
    decreases n - k, 0
  {
    hide PassIs, Outweighs, Joining, Joins, NoBetterBranch, DistinctBlocks, Strays, BranchConnects, AfterTry,
         PlaceOf, Rooted;
    var branch := c.sides[k];
    var fork := ForkOf(c.active, branch[0]);
    if fork.None? {
      TryNowhere(setup, c, k, n, now);
    } else {
      var prefix := c.active[..fork.value + 1];
      var t := AfterTry(setup, c, k, fork.value, now);
      JoiningFacts(setup, prefix, branch, now);
      JoiningIs(setup, prefix, branch, now, Joining(setup, prefix, branch, now));
      if Joining(setup, prefix, branch, now) < |branch| {
        NoBetterBranchAt(setup, c.active, branch, now);
        TryFailed(setup, c, k, fork.value, now);
        ReorganiseIs(setup, t, k + 1, n, now);
        PassStep(setup, c, t, k, n, now, Reorganise(setup, t, k + 1, n, now));
      } else {
        TryDone(setup, c, k, n, fork.value, now);
      }
    }
  }

  lemma TryNowhere(setup: Setup, c: Chains, k: nat, n: nat, now: int)
    requires k < n <= |c.sides| && c.sides[k] != [] && ForkOf(c.active, c.sides[k][0]).None?
    requires Outweighs(FullBranch(c.active, c.sides[k]), c.active)
    ensures PassIs(setup, c, k, n, now, Pass(c.(outOfRange := true), LeftBounds(k)))
  {
    hide Outweighs;
    assert c.sides[k..k] == [] && c.sides + [] == c.sides && [] + c.sides[k] == c.sides[k];
  }

  lemma TryFailed(setup: Setup, c: Chains, k: nat, f: nat, now: int)
    requires k < |c.sides| && c.sides[k] != [] && ForkOf(c.active, c.sides[k][0]) == Some(f)
    requires Joining(setup, c.active[..f + 1], c.sides[k], now) < |c.sides[k]|
    requires Outweighs(FullBranch(c.active, c.sides[k]), c.active)
    ensures var t := AfterTry(setup, c, k, f, now);
            && t.active == c.active && t.outOfRange == c.outOfRange
            && t.sides == c.sides + StraysAt(setup, c.active, c.sides[k], now)
  {
    hide Outweighs, Joining, Strays, ForkOf, PoolAfter, PoolBefore;
  }

  lemma TryDone(setup: Setup, c: Chains, k: nat, n: nat, f: nat, now: int)
    requires k < n <= |c.sides| && c.sides[k] != [] && ForkOf(c.active, c.sides[k][0]) == Some(f)
    requires BranchConnects(setup, c.active[..f + 1], c.sides[k], now)
    requires Joining(setup, c.active[..f + 1], c.sides[k], now) == |c.sides[k]|
    requires Outweighs(FullBranch(c.active, c.sides[k]), c.active)
    ensures PassIs(setup, c, k, n, now, Pass(AfterTry(setup, c, k, f, now), Switched(k, f)))
  {
    hide Outweighs, Joining, BranchConnects, PoolAfter, PoolBefore;
    assert c.sides[k..k] == [] && c.sides + [] == c.sides;
  }

  lemma {:induction false} ReorganiseIs(setup: Setup, c: Chains, k: nat, n: nat, now: int)
    requires k <= n <= |c.sides| && DistinctBlocks(c.active)
    ensures PassIs(setup, c, k, n, now, Reorganise(setup, c, k, n, now))
    decreases n - k, 1
  {
    hide Outweighs, BranchConnects, Joins, ForkOf, FullBranch, NoBetterBranch, Strays, Unrooted, DistinctBlocks;
    if k == n {
      assert c.sides[k..n] == [];
    } else {
      var branch := c.sides[k];
      assert c.sides[k..k] == [];
      if branch == [] {
        UnrootedWhen(c.active, branch);
      } else if !Outweighs(FullBranch(c.active, branch), c.active) {
        NoBetterBranchAt(setup, c.active, branch, now);
        ReorganiseIs(setup, c, k + 1, n, now);
        PassStep(setup, c, c, k, n, now, Reorganise(setup, c, k + 1, n, now));
      } else {
        TryStep(setup, c, k, n, now);
      }
    }
  }

  // ----- One block after the other -----

  /** The chains once the block is on chain r. */
  ghost function Placed(c: Chains, b: Block, r: nat): Chains
    requires r <= |c.sides| + 1
  {
    c.(active := ActiveWith(c.active, b, r), sides := SidesWith(c.sides, b, r),
       pool := if r == 0 then c.pool - IdsOf(b.txs) else c.pool)
  }

  /** connect_block without what waits among the orphans. */
  ghost function Handled(setup: Setup, c: Chains, b: Block, now: int): Chains {
    var r := ConnectResult(setup, c.active, c.sides, b, now);
    if r < 0 then c
    else
      var t := Placed(c, b, r);
      Reorganise(setup, t, 0, |t.sides|, now).chains
  }

  ghost function Replay(setup: Setup, c: Chains, blocks: seq<Block>, now: int): Chains {
    if blocks == [] then c
    else Handled(setup, Replay(setup, c, blocks[..|blocks| - 1], now), blocks[|blocks| - 1], now)
  }

  lemma {:induction false} ReplayAppend(setup: Setup, c: Chains, a: seq<Block>, b: seq<Block>, now: int)
    ensures Replay(setup, c, a + b, now) == Replay(setup, Replay(setup, c, a, now), b, now)
  {
    hide Handled;
    if b == [] {
      assert a + b == a;
    } else {
      assert (a + b)[..|a + b| - 1] == a + b[..|b| - 1];
      ReplayAppend(setup, c, a, b[..|b| - 1], now);
    }
  }

  lemma ReplayOne(setup: Setup, c: Chains, b: Block, now: int)
    ensures Replay(setup, c, [b], now) == Handled(setup, c, b, now)
  {
    hide Handled;
    assert [b][..0] == [];
    assert Replay(setup, c, [], now) == c;
  }

  lemma ReplayNone(setup: Setup, c: Chains, now: int)
    ensures Replay(setup, c, [], now) == c
  {
  }

  lemma HandledIs(setup: Setup, c: Chains, b: Block, now: int)
    ensures var r := ConnectResult(setup, c.active, c.sides, b, now);
            Handled(setup, c, b, now) ==
            if r < 0 then c else
              var t := Placed(c, b, r);
              Reorganise(setup, t, 0, |t.sides|, now).chains
  {
    hide ConnectResult, Placed, Reorganise;
  }

  lemma PlacedIs(c: Chains, b: Block, r: nat)
    requires r <= |c.sides| + 1
    ensures Placed(c, b, r) == Chains(ActiveWith(c.active, b, r), SidesWith(c.sides, b, r),
                                      if r == 0 then c.pool - IdsOf(b.txs) else c.pool, c.outOfRange)
  {
    hide ActiveWith, SidesWith;
  }

  lemma NothingToSwitch(setup: Setup, c: Chains, now: int)
    requires c.sides == []
    ensures Reorganise(setup, c, 0, 0, now) == Pass(c, Kept)
  {
  }

  /** A pass that does not switch leaves the active chain alone; no pass loses a block. */
  lemma PassKeeps(setup: Setup, c: Chains, now: int, p: Pass)
    requires PassIs(setup, c, 0, |c.sides|, now, p)
    ensures !p.outcome.Switched? ==> p.chains.active == c.active
    ensures forall id | Located(c.active, c.sides, id) :: Located(p.chains.active, p.chains.sides, id)
  {
    PassKeepsLocated(setup, c, now, p);
    hide Outweighs, NothingBetter, Unrooted, BranchConnects, AllStrays, Located;
  }

  /** A pass loses no block. */
  lemma PassKeepsLocated(setup: Setup, c: Chains, now: int, p: Pass)
    requires PassIs(setup, c, 0, |c.sides|, now, p)
    ensures forall id | Located(c.active, c.sides, id) :: Located(p.chains.active, p.chains.sides, id)
  {
    hide Outweighs, NothingBetter, Unrooted, BranchConnects, AllStrays;
    var u := StopOf(p.outcome, |c.sides|);
    var sides := c.sides + AllStrays(setup, c.active, c.sides[0..u], now);
    forall id | Located(c.active, c.sides, id)
      ensures Located(p.chains.active, p.chains.sides, id)
    {
      MoreSidesLocate(c.active, c.sides, sides, id);
      if p.outcome.Switched? {
        SwapKeepsLocated(c.active, sides, p.outcome.fork, u, id);
      }
    }
  }

  lemma MoreSidesLocate(active: seq<Block>, sides: seq<seq<Block>>, sides': seq<seq<Block>>, id: Id)
    requires sides <= sides' && Located(active, sides, id)
    ensures Located(active, sides', id)
  {
    if !Has(active, id) {
      var j :| 0 <= j < |sides| && Has(sides[j], id);
      assert sides'[j] == sides[j];
    }
  }

  // ----- Putting transactions back into the mempool -----

  ghost function ReAdded(pool: map<Id, Tx>, txs: seq<Tx>): map<Id, Tx> {
    if txs == [] then pool
    else
      var k := |txs| - 1;
      var before := ReAdded(pool, txs[..k]);
      if txs[k].IsCoinbase() then before else before[txs[k].id := txs[k]]
  }

  /** The transaction is one of these and no coinbase. */
  ghost predicate PutBack(txs: seq<Tx>, tx: Tx) {
    exists k :: 0 <= k < |txs| && txs[k] == tx && !tx.IsCoinbase()
  }

  /** Putting back a block's transactions gives each id its own transaction, leaves out the coinbase and
      changes nothing else. */
  lemma {:induction false} ReAddedIs(pool: map<Id, Tx>, txs: seq<Tx>)
    requires DistinctIds(txs)
    ensures forall tx | PutBack(txs, tx) :: tx.id in ReAdded(pool, txs) && ReAdded(pool, txs)[tx.id] == tx
    ensures forall id | id in ReAdded(pool, txs) ::
              PutBack(txs, ReAdded(pool, txs)[id]) || (id in pool && ReAdded(pool, txs)[id] == pool[id])
    ensures forall id | id in pool :: id in ReAdded(pool, txs)
  {
    if txs != [] {
      var k := |txs| - 1;
      var before, r := ReAdded(pool, txs[..k]), ReAdded(pool, txs);
      ReAddedIs(pool, txs[..k]);
      forall tx | PutBack(txs, tx)
        ensures tx.id in r && r[tx.id] == tx
      {
        var j :| 0 <= j < |txs| && txs[j] == tx && !tx.IsCoinbase();
        if j < k {
          assert txs[..k][j] == tx;
        }
      }
      forall id | id in r
        ensures PutBack(txs, r[id]) || (id in pool && r[id] == pool[id])
      {
        if id in before && r[id] == before[id] && PutBack(txs[..k], before[id]) {
          var j :| 0 <= j < k && txs[..k][j] == before[id];
          assert txs[j] == r[id];
        } else if r[id] == txs[k] && !txs[k].IsCoinbase() {
          assert txs[|txs| - 1] == r[id];
        }
      }
    }
  }

  method ReAddEntries(pool: map<Id, Tx>, txs: seq<Tx>) returns (r: map<Id, Tx>)
    ensures r == ReAdded(pool, txs)
  {
    r := pool;
    assert txs[..0] == [];
    for i := 0 to |txs|
      invariant r == ReAdded(pool, txs[..i])
    {
      assert txs[..i + 1][..i] == txs[..i];
      if !txs[i].IsCoinbase() {
        r := r[txs[i].id := txs[i]];
      }
    }
    assert txs[..|txs|] == txs;
  }

  method GetBlockWork(bits: Byte) returns (w: nat)
    ensures w == Difficulty.BlockWork(bits)
  {
    var target := Difficulty.ShiftLeftOne(255 - bits);
    assert target == Difficulty.Target(bits);
    w := ((TWO_256 - 1 - target) / (target + 1) + 1) % TWO_256;
  }

  /** get_chain_work: a 256-bit sum. */
  method GetChainWork(chain: seq<Block>) returns (total: nat)
    ensures total == Work(chain) % TWO_256
  {
    total := 0;
    assert chain[..0] == [];
    for i := 0 to |chain|
      invariant total == Work(chain[..i]) % TWO_256
    {
      assert chain[..i + 1][..i] == chain[..i];
      var w := GetBlockWork(chain[i].bits);
      WrapWork(Work(chain[..i]), w);
      total := (total + w) % TWO_256;
    }
    assert chain[..|chain|] == chain;
  }

  lemma WrapWork(a: nat, b: nat)
    ensures (a % TWO_256 + b) % TWO_256 == (a + b) % TWO_256
  {
  }

  ghost predicate TimesWithin(active: seq<Block>, base: nat, clock: int) {
    forall i | base <= i < |active| :: active[i].timestamp - clock <= MAX_FUTURE_BLOCK_TIME
  }

  // ----- Lemmas about one more block -----

  /** For a block that stands behind the tip, the verdict of validation and the specification of
      the chain agree, whatever the mempool holds. */
  lemma ZeroVerdict(setup: Setup, known: iset<Block>, active: seq<Block>, sides: seq<seq<Block>>,
                    pool: map<Id, Tx>, b: Block, now: int)
    requires World(setup, known) && IsChain(setup, known, active) && FitsHeight(|active|)
    requires b in known && !Has(active, b.id)
    ensures VerdictOn(setup.rules, active, sides, Fold(|setup.base|, active), pool, b, now) == Accepted(0)
            <==> Joins(setup, active, b, now)
  {
    hide Shape, IsChain, World, ContextOk, Fold, TimeOk, Destination, Follows, Has, FitsHeight;
    DestinationZero(setup, known, active, sides, b);
    if Shape(setup.rules, b) && Follows(active, b) {
      ContextSansPool(setup, known, active, pool, b);
    }
  }

  lemma DestinationZero(setup: Setup, known: iset<Block>, active: seq<Block>, sides: seq<seq<Block>>, b: Block)
    requires World(setup, known) && IsChain(setup, known, active)
    requires b in known && !Has(active, b.id)
    ensures Destination(active, sides, b) == Some(0) <==> Follows(active, b)
  {
    if b.prev.None? {
      if active != [] {
        OnlyFirst(setup, known, active, b);
      }
    } else if active != [] && Follows(active, b) {
      assert Has(active, b.prev.value);
    }
  }

  lemma OnlyFirst(setup: Setup, known: iset<Block>, active: seq<Block>, b: Block)
    requires World(setup, known) && IsChain(setup, known, active)
    requires b in known && b.prev.None? && active != []
    ensures Has(active, b.id)
  {
    assert active[0] in known && active[0].prev.None?;
    assert active[0] == b;
  }

  lemma ContextSansPool(setup: Setup, known: iset<Block>, active: seq<Block>, pool: map<Id, Tx>, b: Block)
    requires World(setup, known) && IsChain(setup, known, active)
    requires b in known && Shape(setup.rules, b) && Follows(active, b)
    ensures FitsHeight(|active| + 1) && NoSameBlockSpend(b)
    ensures ContextOk(setup.rules, active, Fold(|setup.base|, active), pool, b)
            <==> ContextOk(setup.rules, active, Fold(|setup.base|, active), map[], b)
  {
    ExtendChain(setup, known, active, b);
    var next := active + [b];
    assert Tame(setup, next);
    assert next[|active|] == b;
    hide Shape, IsChain, World, ContextOk, Fold, UniqueIds;
    PoolIsIrrelevant(setup.rules, active, Fold(|setup.base|, active), pool, b);
  }

  /** The verdict does not depend on the mempool, and it decides the result. */
  lemma ResultCases(setup: Setup, known: iset<Block>, active: seq<Block>, sides: seq<seq<Block>>,
                    pool: map<Id, Tx>, b: Block, now: int)
    requires World(setup, known) && IsChain(setup, known, active) && FitsHeight(|active|) && b in known
    ensures Located(active, sides, b.id) ==>
              ConnectResult(setup, active, sides, b, now) == -1 && !IsOrphan(setup.rules, active, sides, b, now)
    ensures var v := VerdictOn(setup.rules, active, sides, Fold(|setup.base|, active), pool, b, now);
            !Located(active, sides, b.id) ==>
              && ConnectResult(setup, active, sides, b, now) == (if v.Accepted? then v.chainIdx as int else -1)
              && (IsOrphan(setup.rules, active, sides, b, now) <==> v == Orphaned)
  {
    hide World, IsChain, Shape, ContextOk, Fold, TimeOk, Destination, PreOk, Joins, FitsHeight;
    if !Located(active, sides, b.id) {
      UnlocatedIsOff(active, sides, b.id);
      ZeroVerdict(setup, known, active, sides, pool, b, now);
      ZeroVerdict(setup, known, active, sides, map[], b, now);
    }
    OrphanIff(setup.rules, active, sides, Fold(|setup.base|, active), pool, b, now);
  }

  lemma ResultZero(setup: Setup, known: iset<Block>, active: seq<Block>, b: Block, now: int)
    requires World(setup, known) && IsChain(setup, known, active) && FitsHeight(|active|) && b in known
    ensures ConnectResult(setup, active, [], b, now) == 0 <==> Joins(setup, active, b, now)
  {
    hide World, IsChain, Shape, ContextOk, Fold, TimeOk, Destination, PreOk, Follows, ConnectsTo, FitsHeight;
    if !Has(active, b.id) {
      ZeroVerdict(setup, known, active, [], map[], b, now);
    }
  }

  lemma WithIs(active: seq<Block>, sides: seq<seq<Block>>, b: Block, k: nat, active': seq<Block>,
               sides': seq<seq<Block>>)
    requires k <= |sides| + 1
    requires if k == 0 then active' == active + [b] && sides' == sides
             else active' == active && sides' == if k <= |sides| then sides[k - 1 := sides[k - 1] + [b]] else sides + [[b]]
    ensures active' == ActiveWith(active, b, k) && sides' == SidesWith(sides, b, k)
  {
  }

  lemma WithNothing(active: seq<Block>, b: Block)
    ensures ActiveWith(active, b, -1) == active
  {
  }

  lemma UnlocatedIsOff(active: seq<Block>, sides: seq<seq<Block>>, id: Id)
    requires !Located(active, sides, id)
    ensures !Has(active, id)
  {
  }

  lemma LocatedNeedsChain(active: seq<Block>, sides: seq<seq<Block>>, id: Id)
    requires active == [] ==> sides == []
    requires Located(active, sides, id)
    ensures active != []
  {
  }

  lemma VerdictFacts(rules: Rules, active: seq<Block>, sides: seq<seq<Block>>, utxos: UtxoMap,
                     pool: map<Id, Tx>, b: Block, now: int)
    ensures var v := VerdictOn(rules, active, sides, utxos, pool, b, now);
            && (v.Accepted? ==> Shape(rules, b))
            && (v.Orphaned? ==> b.prev.Some? && !Located(active, sides, b.prev.value))
            && (v.Accepted? && v.chainIdx > 0 ==>
                  b.prev.Some? && Located(active, sides, b.prev.value) && v.chainIdx <= |sides| + 1)
            && (v.Accepted? && 0 < v.chainIdx <= |sides| ==> Has(sides[v.chainIdx - 1], b.prev.value))
  {
    hide Shape, ContextOk, TimeOk;
  }

  /** Validation reports exactly these as orphans. */
  lemma OrphanIff(rules: Rules, active: seq<Block>, sides: seq<seq<Block>>, utxos: UtxoMap, pool: map<Id, Tx>,
                  b: Block, now: int)
    ensures IsOrphan(rules, active, sides, b, now) <==>
              !Located(active, sides, b.id) && VerdictOn(rules, active, sides, utxos, pool, b, now) == Orphaned
  {
    hide PreOk, ContextOk, Follows, FirstSide, Has;
  }

  lemma IsOrphanWhen(rules: Rules, active: seq<Block>, sides: seq<seq<Block>>, b: Block, now: int)
    requires !Located(active, sides, b.id) && PreOk(rules, active, b, now)
    requires b.prev.Some? && !Located(active, sides, b.prev.value)
    ensures IsOrphan(rules, active, sides, b, now)
  {
    hide PreOk, Located;
  }

  lemma NoOrphan(rules: Rules, active: seq<Block>, sides: seq<seq<Block>>, b: Block, now: int)
    requires b.prev.Some? ==> Located(active, sides, b.prev.value)
    ensures !IsOrphan(rules, active, sides, b, now)
  {
    hide PreOk, Located;
  }

  ghost predicate FirstWith(sides: seq<seq<Block>>, k: int, id: Id) {
    0 <= k < |sides| && Has(sides[k], id) && forall j | 0 <= j < k :: !Has(sides[j], id)
  }

  /** Where a new block goes: behind the tip exactly if it joins there, else onto a new branch if its
      predecessor is on the active chain, and else onto the first branch that holds it. */
  ghost predicate GoesTo(setup: Setup, active: seq<Block>, sides: seq<seq<Block>>, b: Block, now: int, r: int) {
    && (r == 0 <==> !Located(active, sides, b.id) && Joins(setup, active, b, now))
    && (r > 0 <==> && !Located(active, sides, b.id) && PreOk(setup.rules, active, b, now) && b.prev.Some?
                   && Located(active, sides, b.prev.value) && !Follows(active, b))
    && (r > 0 && Has(active, b.prev.value) ==> r == |sides| + 1)
    && (r > 0 && !Has(active, b.prev.value) ==> FirstWith(sides, r - 1, b.prev.value))
  }

  lemma ResultIff(setup: Setup, known: iset<Block>, active: seq<Block>, sides: seq<seq<Block>>, b: Block, now: int)
    requires World(setup, known) && IsChain(setup, known, active) && FitsHeight(|active|) && b in known
    ensures GoesTo(setup, active, sides, b, now, ConnectResult(setup, active, sides, b, now))
  {
    hide World, IsChain, PreOk, Joins, Fold, FirstWith, Has, Located, ConnectResult, VerdictOn, ContextOk, Follows,
         FitsHeight;
    if !Located(active, sides, b.id) {
      UnlocatedIsOff(active, sides, b.id);
      ZeroVerdict(setup, known, active, sides, map[], b, now);
      VerdictIff(setup.rules, active, sides, Fold(|setup.base|, active), map[], b, now);
    }
    ResultIs(setup, active, sides, b, now);
  }

  lemma {:induction false} FirstSideIsFirst(sides: seq<seq<Block>>, id: Id)
    ensures FirstSide(sides, id) > 0 ==> FirstWith(sides, FirstSide(sides, id) - 1, id)
  {
    hide Has;
    if sides != [] {
      var n := |sides| - 1;
      FirstSideIsFirst(sides[..n], id);
      assert forall j | 0 <= j < n :: sides[..n][j] == sides[j];
    }
  }

  /** What validation decides, and when: whether the predecessor is anywhere, whether it is the tip, and
      only behind the tip what the chain says of the block. */
  ghost predicate Decides(rules: Rules, active: seq<Block>, sides: seq<seq<Block>>, utxos: UtxoMap,
                          pool: map<Id, Tx>, b: Block, now: int, v: Verdict)
  {
    && (v == Orphaned <==> PreOk(rules, active, b, now) && b.prev.Some? && !Located(active, sides, b.prev.value))
    && (v == Accepted(0) <==> && PreOk(rules, active, b, now) && (b.prev.None? || Follows(active, b))
                              && ContextOk(rules, active, utxos, pool, b))
    && (v.Accepted? && v.chainIdx > 0 <==> && PreOk(rules, active, b, now) && b.prev.Some?
                                           && Located(active, sides, b.prev.value) && !Follows(active, b))
    && (v.Accepted? && v.chainIdx > 0 && Has(active, b.prev.value) ==> v.chainIdx == |sides| + 1)
    && (v.Accepted? && v.chainIdx > 0 && !Has(active, b.prev.value) ==> FirstWith(sides, v.chainIdx - 1, b.prev.value))
  }

  lemma VerdictIff(rules: Rules, active: seq<Block>, sides: seq<seq<Block>>, utxos: UtxoMap, pool: map<Id, Tx>,
                   b: Block, now: int)
    ensures Decides(rules, active, sides, utxos, pool, b, now, VerdictOn(rules, active, sides, utxos, pool, b, now))
  {
    hide Shape, TimeOk, ContextOk, FirstWith;
    if b.prev.Some? {
      FirstSideIsFirst(sides, b.prev.value);
    }
    if PreOk(rules, active, b, now) {
      ShapeParts(rules, b);
    }
  }

  lemma ResultIs(setup: Setup, active: seq<Block>, sides: seq<seq<Block>>, b: Block, now: int)
    requires FitsHeight(|active|)
    ensures var v := VerdictOn(setup.rules, active, sides, Fold(|setup.base|, active), map[], b, now);
            ConnectResult(setup, active, sides, b, now) ==
            if !Located(active, sides, b.id) && v.Accepted? then v.chainIdx else -1
  {
    hide VerdictOn, Fold, Located;
  }

  lemma AcceptedNeedsChain(setup: Setup, known: iset<Block>, active: seq<Block>, sides: seq<seq<Block>>,
                           utxos: UtxoMap, pool: map<Id, Tx>, b: Block, now: int)
    requires active == [] ==> sides == []
    ensures var v := VerdictOn(setup.rules, active, sides, utxos, pool, b, now);
            v.Accepted? && v.chainIdx > 0 ==> active != []
  {
    VerdictFacts(setup.rules, active, sides, utxos, pool, b, now);
    hide VerdictOn;
  }

  lemma AppendGains(active: seq<Block>, sides: seq<seq<Block>>, b: Block, k: nat, active': seq<Block>,
                    sides': seq<seq<Block>>)
    requires k <= |sides| + 1
    requires if k == 0 then active' == active + [b] && sides' == sides
             else active' == active && sides' == if k <= |sides| then sides[k - 1 := sides[k - 1] + [b]] else sides + [[b]]
    ensures Work(active') >= Work(active) && (k == 0 ==> Work(active') > Work(active))
    ensures Located(active', sides', b.id)
    ensures forall id | Located(active, sides, id) :: Located(active', sides', id)
  {
    if k == 0 {
      OneMoreBlock(active, b);
      assert active'[|active|].id == b.id;
      assert forall i | 0 <= i < |active| :: active'[i] == active[i];
    } else {
      assert sides'[k - 1][|sides'[k - 1]| - 1].id == b.id;
      assert Has(sides'[k - 1], b.id);
    }
    forall id | Located(active, sides, id)
      ensures Located(active', sides', id)
    {
      AppendKeepsLocated(active, sides, b, k, active', sides', id);
    }
  }

  lemma AppendKeepsLocated(active: seq<Block>, sides: seq<seq<Block>>, b: Block, k: nat, active': seq<Block>,
                           sides': seq<seq<Block>>, id: Id)
    requires k <= |sides| + 1
    requires if k == 0 then active' == active + [b] && sides' == sides
             else active' == active && sides' == if k <= |sides| then sides[k - 1 := sides[k - 1] + [b]] else sides + [[b]]
    requires Located(active, sides, id)
    ensures Located(active', sides', id)
  {
    if Has(active, id) {
      var i :| 0 <= i < |active| && active[i].id == id;
      assert active'[i].id == id;
    } else {
      var j :| 0 <= j < |sides| && Has(sides[j], id);
      var i :| 0 <= i < |sides[j]| && sides[j][i].id == id;
      assert sides'[j][i].id == id;
      assert Has(sides'[j], id);
    }
  }

  lemma BranchOfSides(setup: Setup, known: iset<Block>, sides: seq<seq<Block>>, k: nat)
    requires SidesOk(setup, known, sides) && k < |sides|
    ensures BranchOk(setup, known, sides[k])
  {
  }

  lemma BranchBreaks(setup: Setup, prefix: seq<Block>, branch: seq<Block>, i: nat, now: int)
    requires i < |branch| && !Joins(setup, prefix + branch[..i], branch[i], now)
    ensures !BranchConnects(setup, prefix, branch, now)
  {
    hide Joins;
  }

  lemma BranchHolds(setup: Setup, prefix: seq<Block>, branch: seq<Block>, now: int)
    requires forall j | 0 <= j < |branch| :: Joins(setup, prefix + branch[..j], branch[j], now)
    ensures BranchConnects(setup, prefix, branch, now)
  {
    hide Joins;
  }

  lemma {:induction false} FirstSidePrefix(sides: seq<seq<Block>>, k: nat, id: Id)
    requires k <= |sides| && FirstSide(sides[..k], id) > 0
    ensures FirstSide(sides, id) == FirstSide(sides[..k], id)
    decreases |sides|
  {
    if k == |sides| {
      assert sides[..k] == sides;
    } else {
      assert sides[..|sides| - 1][..k] == sides[..k];
      FirstSidePrefix(sides[..|sides| - 1], k, id);
    }
  }

  lemma EmptyBranchOk(setup: Setup, known: iset<Block>)
    ensures BranchOk(setup, known, [])
  {
  }

  method RemoveEntries(pool: map<Id, Tx>, txs: seq<Tx>) returns (r: map<Id, Tx>)
    ensures r == pool - IdsOf(txs)
  {
    r := pool;
    for i := 0 to |txs|
      invariant r == pool - IdsOf(txs[..i])
    {
      IdsOfNext(txs, i);
      r := r - {txs[i].id};
    }
    assert txs[..|txs|] == txs;
  }

  lemma IdsOfNext(txs: seq<Tx>, i: nat)
    requires i < |txs|
    ensures IdsOf(txs[..i + 1]) == IdsOf(txs[..i]) + {txs[i].id}
  {
    var a, b := txs[..i + 1], txs[..i];
    forall id
      ensures id in IdsOf(a) <==> id in IdsOf(b) + {txs[i].id}
    {
      if id in IdsOf(b) {
        var k :| 0 <= k < |b| && b[k].id == id;
        assert a[k].id == id;
      }
      if id == txs[i].id {
        assert a[i].id == id;
      }
      if id in IdsOf(a) {
        var k :| 0 <= k < |a| && a[k].id == id;
        assert k < i ==> b[k].id == id;
      }
    }
  }

  lemma ValidatedIsChain(setup: Setup, known: iset<Block>, chain: seq<Block>)
    requires Validated(setup, known, chain)
    ensures IsChain(setup, known, chain)
  {
  }

  method ContainsBlock(chain: seq<Block>, id: Id) returns (found: bool)
    ensures found <==> Has(chain, id)
  {
    for i := 0 to |chain|
      invariant forall j | 0 <= j < i :: chain[j].id != id
    {
      if chain[i].id == id {
        return true;
      }
    }
    found := false;
  }

  lemma AppendToBranch(setup: Setup, known: iset<Block>, branch: seq<Block>, b: Block)
    requires BranchOk(setup, known, branch) && b in known && Shape(setup.rules, b) && b.prev.Some?
    requires branch == [] || Has(branch, b.prev.value)
    ensures BranchOk(setup, known, branch + [b])
  {
    hide Shape;
    var next := branch + [b];
    forall k | 1 <= k < |next|
      ensures next[k].prev.Some? && Has(next[..k], next[k].prev.value)
    {
      if k < |branch| {
        assert next[..k] == branch[..k];
        assert branch[k].prev.Some? && Has(branch[..k], branch[k].prev.value);
      } else {
        assert next[..k] == branch;
      }
    }
  }
}
