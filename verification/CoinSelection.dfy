/** Branch-and-bound coin selection and the transaction built from it. */
module CoinSelection {
  import opened Types
  import opened Arithmetic

  const MAX_TRIES: nat := 100_000

  // ----- Values of coin lists and of partial selections -----

  ghost function Value(coins: seq<Utxo>): nat {
    if coins == [] then 0 else Value(coins[..|coins| - 1]) + coins[|coins| - 1].out.value
  }

  /** The total of coins[i..]. */
  ghost function Suffix(coins: seq<Utxo>, i: nat): nat
    requires i <= |coins|
    decreases |coins| - i
  {
    if i == |coins| then 0 else coins[i].out.value + Suffix(coins, i + 1)
  }

  /** The coins a (partial) include/exclude vector picks. */
  ghost function Picked(coins: seq<Utxo>, sel: seq<bool>): seq<Utxo>
    requires |sel| <= |coins|
  {
    if sel == [] then []
    else
      var k := |sel| - 1;
      Picked(coins, sel[..k]) + if sel[k] then [coins[k]] else []
  }

  ghost function PickedValue(coins: seq<Utxo>, sel: seq<bool>): nat
    requires |sel| <= |coins|
  {
    if sel == [] then 0
    else
      var k := |sel| - 1;
      PickedValue(coins, sel[..k]) + if sel[k] then coins[k].out.value else 0
  }

  lemma {:induction false} ValueAppend(a: seq<Utxo>, b: seq<Utxo>)
    ensures Value(a + b) == Value(a) + Value(b)
  {
    if b == [] {
      assert a + b == a;
    } else {
      assert (a + b)[..|a + b| - 1] == a + b[..|b| - 1];
      ValueAppend(a, b[..|b| - 1]);
    }
  }

  lemma {:induction false} ValueIsSuffix(coins: seq<Utxo>, i: nat)
    requires i <= |coins|
    ensures Value(coins[..i]) + Suffix(coins, i) == Value(coins)
    decreases |coins| - i
  {
    if i == |coins| {
      assert coins[..i] == coins;
    } else {
      assert coins[..i + 1][..i] == coins[..i];
      ValueIsSuffix(coins, i + 1);
    }
  }

  lemma {:induction false} PickedHasItsValue(coins: seq<Utxo>, sel: seq<bool>)
    requires |sel| <= |coins|
    ensures Value(Picked(coins, sel)) == PickedValue(coins, sel)
  {
    if sel != [] {
      var k := |sel| - 1;
      PickedHasItsValue(coins, sel[..k]);
      if sel[k] {
        ValueAppend(Picked(coins, sel[..k]), [coins[k]]);
        assert Value([coins[k]]) == coins[k].out.value;
      } else {
        assert Picked(coins, sel) == Picked(coins, sel[..k]);
      }
    }
  }

  lemma {:induction false} PickedIsSubset(coins: seq<Utxo>, sel: seq<bool>)
    requires |sel| <= |coins|
    ensures multiset(Picked(coins, sel)) <= multiset(coins[..|sel|])
  {
    if sel != [] {
      var k := |sel| - 1;
      PickedIsSubset(coins, sel[..k]);
      assert coins[..k + 1] == coins[..k] + [coins[k]];
    }
  }

  /** Taking one occurrence of x out of a list: what stays, and what it is worth. */
  lemma RemoveOne(b: seq<Utxo>, i: nat) returns (rest: seq<Utxo>)
    requires i < |b|
    ensures multiset(b) == multiset(rest) + multiset{b[i]}
    ensures Value(b) == Value(rest) + b[i].out.value && |rest| == |b| - 1
  {
    rest := b[..i] + b[i + 1..];
    var x := b[i];
    assert b == b[..i] + ([x] + b[i + 1..]);
    ValueAppend(b[..i], [x] + b[i + 1..]);
    ValueAppend([x], b[i + 1..]);
    ValueAppend(b[..i], b[i + 1..]);
  }

  lemma {:induction false} EqualMultisetsEqualValues(a: seq<Utxo>, b: seq<Utxo>)
    requires multiset(a) == multiset(b)
    ensures Value(a) == Value(b)
    decreases |a|
  {
    if a == [] {
      assert |multiset(b)| == 0;
    } else {
      assert a[0] in multiset(b);
      var i :| 0 <= i < |b| && b[i] == a[0];
      var aRest := RemoveOne(a, 0);
      var bRest := RemoveOne(b, i);
      assert multiset(aRest) == multiset(a) - multiset{a[0]};
      assert multiset(bRest) == multiset(b) - multiset{a[0]};
      EqualMultisetsEqualValues(aRest, bRest);
    }
  }

  /** Restricting a sub-multiset of the coins to all coins but the last. */
  lemma WithoutLast(coins: seq<Utxo>, sub: seq<Utxo>) returns (rest: seq<Utxo>)
    requires coins != [] && multiset(sub) <= multiset(coins)
    ensures var c := coins[|coins| - 1];
            && multiset(rest) <= multiset(coins[..|coins| - 1])
            && Value(sub) == Value(rest) + (if c in sub then c.out.value else 0)
            && |sub| == |rest| + if c in sub then 1 else 0
  {
    var k := |coins| - 1;
    var c := coins[k];
    assert coins == coins[..k] + [c];
    assert multiset(coins) == multiset(coins[..k]) + multiset{c};
    if c in sub {
      var i :| 0 <= i < |sub| && sub[i] == c;
      rest := RemoveOne(sub, i);
    } else {
      assert c !in multiset(sub);
      rest := sub;
    }
    BoundWithoutLast(multiset(rest), multiset(coins[..k]), c, c in sub);
  }

  lemma BoundWithoutLast(a: multiset<Utxo>, b: multiset<Utxo>, c: Utxo, hadOne: bool)
    requires if hadOne then a + multiset{c} <= b + multiset{c} else c !in a && a <= b + multiset{c}
    ensures a <= b
  {
    forall x ensures a[x] <= b[x] {
      assert (a + multiset{c})[x] == a[x] + multiset{c}[x];
      assert (b + multiset{c})[x] == b[x] + multiset{c}[x];
    }
  }

  ghost function Count(sel: seq<bool>): (n: nat)
    ensures n <= |sel|
  {
    if sel == [] then 0 else Count(sel[..|sel| - 1]) + if sel[|sel| - 1] then 1 else 0
  }

  /** Every sub-multiset of the coins is picked by some include/exclude vector. */
  lemma {:induction false} SubsetIsPicked(coins: seq<Utxo>, sub: seq<Utxo>) returns (sel: seq<bool>)
    requires multiset(sub) <= multiset(coins)
    ensures |sel| == |coins| && PickedValue(coins, sel) == Value(sub) && Count(sel) == |sub|
  {
    if coins == [] {
      assert |multiset(sub)| == 0;
      sel := [];
    } else {
      var k := |coins| - 1;
      var rest := WithoutLast(coins, sub);
      var s := SubsetIsPicked(coins[..k], rest);
      PickedValuePrefix(coins, s);
      sel := s + [coins[k] in sub];
      assert sel[..k] == s;
    }
  }

  /** A partial selection does not look at the coins beyond its length. */
  lemma {:induction false} PickedValuePrefix(coins: seq<Utxo>, sel: seq<bool>)
    requires |sel| <= |coins|
    ensures forall k | |sel| <= k <= |coins| :: PickedValue(coins[..k], sel) == PickedValue(coins, sel)
  {
    if sel != [] {
      PickedValuePrefix(coins, sel[..|sel| - 1]);
    }
  }

  // ----- The search tree -----

  /** Full selection s lies in the subtree below the partial selection p. */
  ghost predicate Extends(s: seq<bool>, p: seq<bool>) {
    |p| <= |s| && s[..|p|] == p
  }

  /** The depth-first search (include before exclude) has left s behind when it stands at p. */
  ghost predicate Before(s: seq<bool>, p: seq<bool>) {
    exists k :: 0 <= k < |p| && k < |s| && s[..k] == p[..k] && s[k] && !p[k]
  }

  /** s does not beat the best waste found so far. */
  ghost predicate NotBetter(coins: seq<Utxo>, target: nat, best: nat, s: seq<bool>)
    requires |s| == |coins|
  {
    0 < target <= PickedValue(coins, s) ==> best <= PickedValue(coins, s) - target
  }

  ghost predicate LeftBehindOk(coins: seq<Utxo>, target: nat, best: nat, p: seq<bool>) {
    forall s: seq<bool> | |s| == |coins| && Before(s, p) :: NotBetter(coins, target, best, s)
  }

  ghost predicate SubtreeOk(coins: seq<Utxo>, target: nat, best: nat, p: seq<bool>) {
    forall s: seq<bool> | |s| == |coins| && Extends(s, p) :: NotBetter(coins, target, best, s)
  }

  /** The number of search nodes at or after p in depth-first order: the termination measure. */
  ghost function NodesLeft(p: seq<bool>, n: nat): int
    requires |p| <= n
  {
    LaterSiblings(p, n) + Pow2(n - |p|) - 1
  }

  ghost function LaterSiblings(p: seq<bool>, n: nat): nat
    requires |p| <= n
  {
    if p == [] then 0
    else
      var k := |p| - 1;
      LaterSiblings(p[..k], n) + if p[k] then Pow2(n - |p|) - 1 else 0
  }

  lemma {:induction false} ExtensionBounds(coins: seq<Utxo>, p: seq<bool>, s: seq<bool>)
    requires |p| <= |s| <= |coins| && Extends(s, p)
    ensures PickedValue(coins, p) <= PickedValue(coins, s)
    ensures PickedValue(coins, s) + Suffix(coins, |s|) <= PickedValue(coins, p) + Suffix(coins, |p|)
    decreases |s|
  {
    if |s| == |p| {
      assert s == p;
    } else {
      assert s[..|s| - 1][..|p|] == p;
      ExtensionBounds(coins, p, s[..|s| - 1]);
    }
  }

  /** A node that reaches the target and is recorded needs no further search below it. */
  lemma RecordedSubtree(coins: seq<Utxo>, target: nat, best: nat, p: seq<bool>)
    requires |p| <= |coins|
    requires target <= PickedValue(coins, p) && best <= PickedValue(coins, p) - target
    ensures SubtreeOk(coins, target, best, p)
  {
    forall s: seq<bool> | |s| == |coins| && Extends(s, p)
      ensures NotBetter(coins, target, best, s)
    {
      ExtensionBounds(coins, p, s);
    }
  }

  /** A node from which the remaining coins cannot reach the target needs no search below it. */
  lemma HopelessSubtree(coins: seq<Utxo>, target: nat, best: nat, p: seq<bool>)
    requires |p| <= |coins|
    requires PickedValue(coins, p) + Suffix(coins, |p|) < target
    ensures SubtreeOk(coins, target, best, p)
  {
    forall s: seq<bool> | |s| == |coins| && Extends(s, p)
      ensures NotBetter(coins, target, best, s)
    {
      ExtensionBounds(coins, p, s);
    }
  }

  lemma DescendInclude(coins: seq<Utxo>, target: nat, best: nat, p: seq<bool>)
    requires LeftBehindOk(coins, target, best, p)
    ensures LeftBehindOk(coins, target, best, p + [true])
  {
    forall s: seq<bool> | |s| == |coins| && Before(s, p + [true])
      ensures NotBetter(coins, target, best, s)
    {
      var k :| 0 <= k < |p| + 1 && k < |s| && s[..k] == (p + [true])[..k] && s[k] && !(p + [true])[k];
      assert k < |p| && (p + [true])[..k] == p[..k];
      assert Before(s, p);
    }
  }

  lemma DescendExclude(coins: seq<Utxo>, target: nat, best: nat, p: seq<bool>)
    requires |p| < |coins|
    requires LeftBehindOk(coins, target, best, p)
    requires SubtreeOk(coins, target, best, p + [true])
    ensures LeftBehindOk(coins, target, best, p + [false])
  {
    var q := p + [false];
    forall s: seq<bool> | |s| == |coins| && Before(s, q)
      ensures NotBetter(coins, target, best, s)
    {
      var k :| 0 <= k < |q| && k < |s| && s[..k] == q[..k] && s[k] && !q[k];
      assert q[..|p|] == p;
      if k < |p| {
        assert q[..k] == p[..k];
        assert Before(s, p);
      } else {
        assert s[..|p| + 1] == p + [true];
        assert Extends(s, p + [true]);
      }
    }
  }

  /** When the exclude branch of q is finished so is q: its include branch was left behind. */
  lemma AscendFromExclude(coins: seq<Utxo>, target: nat, best: nat, q: seq<bool>)
    requires |q| < |coins|
    requires LeftBehindOk(coins, target, best, q + [false])
    requires SubtreeOk(coins, target, best, q + [false])
    ensures LeftBehindOk(coins, target, best, q)
    ensures SubtreeOk(coins, target, best, q)
  {
    var p := q + [false];
    forall s: seq<bool> | |s| == |coins| && Before(s, q)
      ensures NotBetter(coins, target, best, s)
    {
      var k :| 0 <= k < |q| && k < |s| && s[..k] == q[..k] && s[k] && !q[k];
      assert p[..k] == q[..k] && !p[k];
      assert Before(s, p);
    }
    forall s: seq<bool> | |s| == |coins| && Extends(s, q)
      ensures NotBetter(coins, target, best, s)
    {
      var k := |q|;
      assert p[..k] == q;
      if s[k] {
        assert s[..k] == p[..k] && s[k] && !p[k];
        assert Before(s, p);
      } else {
        assert s[..k + 1] == p;
        assert Extends(s, p);
      }
    }
  }

  lemma AscendFromInclude(coins: seq<Utxo>, target: nat, best: nat, q: seq<bool>)
    requires LeftBehindOk(coins, target, best, q + [true])
    ensures LeftBehindOk(coins, target, best, q)
  {
    var p := q + [true];
    forall s: seq<bool> | |s| == |coins| && Before(s, q)
      ensures NotBetter(coins, target, best, s)
    {
      var k :| 0 <= k < |q| && k < |s| && s[..k] == q[..k] && s[k] && !q[k];
      assert p[..k] == q[..k] && !p[k];
      assert Before(s, p);
    }
  }

  /** Both branches of p are finished. */
  lemma JoinBranches(coins: seq<Utxo>, target: nat, best: nat, p: seq<bool>)
    requires |p| < |coins|
    requires SubtreeOk(coins, target, best, p + [true])
    requires SubtreeOk(coins, target, best, p + [false])
    ensures SubtreeOk(coins, target, best, p)
  {
    forall s: seq<bool> | |s| == |coins| && Extends(s, p)
      ensures NotBetter(coins, target, best, s)
    {
      if s[|p|] {
        assert s[..|p| + 1] == p + [true];
        assert Extends(s, p + [true]);
      } else {
        assert s[..|p| + 1] == p + [false];
        assert Extends(s, p + [false]);
      }
    }
  }

  /** Lowering the best waste keeps everything already settled. */
  lemma Improve(coins: seq<Utxo>, target: nat, best: nat, better: nat, p: seq<bool>)
    requires better <= best
    requires LeftBehindOk(coins, target, best, p)
    ensures LeftBehindOk(coins, target, better, p)
  {
    forall s: seq<bool> | |s| == |coins| && Before(s, p)
      ensures NotBetter(coins, target, better, s)
    {
      assert NotBetter(coins, target, best, s);
    }
  }

  lemma StepsOfMeasure(p: seq<bool>, n: nat)
    requires |p| < n
    ensures NodesLeft(p, n) > LaterSiblings(p, n)
    ensures LaterSiblings(p + [true], n) == NodesLeft(p + [false], n)
    ensures LaterSiblings(p + [false], n) == LaterSiblings(p, n)
    ensures NodesLeft(p + [true], n) == NodesLeft(p, n) - 1
    ensures NodesLeft(p + [false], n) == NodesLeft(p, n) - Pow2(n - |p| - 1)
  {
    assert (p + [true])[..|p|] == p;
    assert (p + [false])[..|p|] == p;
  }

  // ----- The search -----

  ghost predicate Descending(coins: seq<Utxo>) {
    forall i, j | 0 <= i < j < |coins| :: coins[i].out.value >= coins[j].out.value
  }

  method InsertDescending(coins: seq<Utxo>, c: Utxo) returns (r: seq<Utxo>)
    requires Descending(coins)
    ensures multiset(r) == multiset(coins) + multiset{c}
    ensures Descending(r)
  {
    var at := 0;
    while at < |coins| && coins[at].out.value >= c.out.value
      invariant 0 <= at <= |coins|
      invariant forall i | 0 <= i < at :: coins[i].out.value >= c.out.value
    {
      at := at + 1;
    }
    r := coins[..at] + [c] + coins[at..];
    InsertedContents(coins, at, c);
  }

  lemma InsertedContents(coins: seq<Utxo>, at: nat, c: Utxo)
    requires at <= |coins|
    ensures multiset(coins[..at] + [c] + coins[at..]) == multiset(coins) + multiset{c}
  {
    assert coins == coins[..at] + coins[at..];
  }

  /** The library sort: any permutation in descending order of value will do. */
  method SortDescending(coins: seq<Utxo>) returns (sorted: seq<Utxo>)
    ensures multiset(sorted) == multiset(coins)
    ensures Descending(sorted)
  {
    sorted := [];
    for k := 0 to |coins|
      invariant multiset(sorted) == multiset(coins[..k])
      invariant Descending(sorted)
    {
      sorted := InsertDescending(sorted, coins[k]);
      assert coins[..k + 1] == coins[..k] + [coins[k]];
    }
    assert coins[..|coins|] == coins;
  }

  method SuffixSums(coins: seq<Utxo>) returns (sums: seq<UInt64>)
    requires Value(coins) <= MAX_UINT64
    ensures |sums| == |coins| + 1
    ensures forall i | 0 <= i <= |coins| :: sums[i] == Suffix(coins, i)
  {
    sums := seq(|coins| + 1, _ => 0);
    var i := |coins|;
    while i > 0
      invariant 0 <= i <= |coins| && |sums| == |coins| + 1
      invariant forall j | i <= j <= |coins| :: sums[j] == Suffix(coins, j)
    {
      i := i - 1;
      ValueIsSuffix(coins, i);
      sums := sums[i := sums[i + 1] + coins[i].out.value];
    }
  }

  lemma PickedBound(coins: seq<Utxo>, p: seq<bool>)
    requires |p| <= |coins|
    ensures PickedValue(coins, p) + Suffix(coins, |p|) <= Value(coins)
  {
    ExtensionBounds(coins, [], p);
    ValueIsSuffix(coins, 0);
  }

  /** The search stands at depth with the coins before it decided and all later ones excluded. */
  ghost predicate Standing(coins: seq<Utxo>, inclusion: seq<bool>, depth: nat, current: nat) {
    && |inclusion| == |coins| && depth < |coins|
    && (forall k | depth <= k < |coins| :: !inclusion[k])
    && current == PickedValue(coins, inclusion[..depth])
  }

  /** Flipping the coin at depth on or off. */
  lemma Flip(coins: seq<Utxo>, inclusion: seq<bool>, depth: nat, current: nat)
    requires Standing(coins, inclusion, depth, current)
    ensures inclusion[depth := true][..depth + 1] == inclusion[..depth] + [true]
    ensures inclusion[..depth + 1] == inclusion[..depth] + [false]
    ensures PickedValue(coins, inclusion[..depth] + [true]) == current + coins[depth].out.value
    ensures PickedValue(coins, inclusion[..depth] + [false]) == current
  {
    assert (inclusion[..depth] + [true])[..depth] == inclusion[..depth];
    assert (inclusion[..depth] + [false])[..depth] == inclusion[..depth];
  }

  lemma ClearLast(inclusion: seq<bool>, depth: nat)
    requires 0 < depth <= |inclusion|
    ensures inclusion[..depth] == inclusion[..depth - 1] + [inclusion[depth - 1]]
    ensures inclusion[depth - 1 := false][..depth - 1] == inclusion[..depth - 1]
    ensures inclusion[depth - 1 := false][..depth] == inclusion[..depth - 1] + [false]
  {
  }

  /** Once the include branch of q is settled the search may enter its exclude branch; when
      the remaining coins cannot reach the target from there, q is settled as well. */
  lemma ExcludeNext(coins: seq<Utxo>, target: nat, best: nat, q: seq<bool>, current: nat)
    requires |q| < |coins| && current == PickedValue(coins, q)
    requires target > 0 ==> current < target
    requires LeftBehindOk(coins, target, best, q)
    requires SubtreeOk(coins, target, best, q + [true])
    ensures LeftBehindOk(coins, target, best, q + [false])
    ensures current + Suffix(coins, |q| + 1) <= MAX_UINT64 || Value(coins) > MAX_UINT64
    ensures |q| + 1 == |coins| || current + Suffix(coins, |q| + 1) < target ==> SubtreeOk(coins, target, best, q)
  {
    var p := q + [false];
    assert p[..|q|] == q;
    PickedBound(coins, p);
    DescendExclude(coins, target, best, q);
    if |q| + 1 == |coins| || current + Suffix(coins, |q| + 1) < target {
      if target > 0 {
        HopelessSubtree(coins, target, best, p);
      }
      JoinBranches(coins, target, best, q);
    }
  }

  /** Backtracking: climb to the nearest included coin whose exclusion can still reach the
      target. The subtree climbed out of is settled all the way. */
  method Climb(coins: seq<Utxo>, sums: seq<UInt64>, target: UInt64, ghost best: nat,
               inclusion0: seq<bool>, depth0: nat, current0: UInt64)
    returns (inclusion: seq<bool>, depth: nat, current: UInt64, backtrack: bool)
    requires Value(coins) <= MAX_UINT64
    requires |sums| == |coins| + 1 && forall i | 0 <= i <= |coins| :: sums[i] == Suffix(coins, i)
    requires Standing(coins, inclusion0, depth0, current0)
    requires LeftBehindOk(coins, target, best, inclusion0[..depth0])
    requires SubtreeOk(coins, target, best, inclusion0[..depth0])
    requires target > 0 ==> current0 < target
    ensures backtrack ==> SubtreeOk(coins, target, best, [])
    ensures !backtrack ==> |inclusion| == |coins| && depth < |coins|
    ensures !backtrack ==> current == PickedValue(coins, inclusion[..depth])
    ensures !backtrack ==> Standing(coins, inclusion, depth, current)
    ensures !backtrack ==> LeftBehindOk(coins, target, best, inclusion[..depth])
    ensures !backtrack ==> current <= current0
    ensures !backtrack ==> NodesLeft(inclusion[..depth], |coins|) < NodesLeft(inclusion0[..depth0], |coins|)
  {
    hide LeftBehindOk, SubtreeOk;
    inclusion, depth, current, backtrack := inclusion0, depth0, current0, true;
    while depth > 0
      invariant Standing(coins, inclusion, depth, current)
      invariant LeftBehindOk(coins, target, best, inclusion[..depth])
      invariant SubtreeOk(coins, target, best, inclusion[..depth])
      invariant current <= current0
      invariant LaterSiblings(inclusion[..depth], |coins|) <= LaterSiblings(inclusion0[..depth0], |coins|)
    {
      ClearLast(inclusion, depth);
      depth := depth - 1;
      ghost var q := inclusion[..depth];
      StepsOfMeasure(q, |coins|);
      assert (q + [inclusion[depth]])[..depth] == q;
      if inclusion[depth] {
        AscendFromInclude(coins, target, best, q);
        current := current - coins[depth].out.value;
        inclusion := inclusion[depth := false];
        ExcludeNext(coins, target, best, q, current);
        if depth + 1 < |coins| {
          var reach: UInt64 := current + sums[depth + 1];
          if reach >= target {
            depth := depth + 1;
            backtrack := false;
            StepsOfMeasure(inclusion0[..depth0], |coins|);
            return;
          }
        }
      } else {
        AscendFromExclude(coins, target, best, q);
      }
    }
    assert inclusion[..depth] == [];
  }

  // ----- The algorithm -----

  ghost predicate BestSoFar(coins: seq<Utxo>, target: nat, best: seq<bool>, waste: nat) {
    if best == [] then waste == MAX_UINT64
    else |best| == |coins| && PickedValue(coins, best) == target + waste
  }

  /** Recording the selection that includes the coin at depth, when it is better. */
  lemma IncludeIsSettled(coins: seq<Utxo>, target: nat, oldWaste: nat, newWaste: nat, p: seq<bool>)
    requires |p| < |coins| && newWaste <= oldWaste
    requires LeftBehindOk(coins, target, oldWaste, p)
    requires target <= PickedValue(coins, p + [true]) && newWaste <= PickedValue(coins, p + [true]) - target
    ensures LeftBehindOk(coins, target, newWaste, p)
    ensures SubtreeOk(coins, target, newWaste, p + [true])
  {
    Improve(coins, target, oldWaste, newWaste, p);
    RecordedSubtree(coins, target, newWaste, p + [true]);
  }

  lemma AtTheRoot(coins: seq<Utxo>, target: nat, best: nat, inclusion: seq<bool>)
    requires coins != [] && |inclusion| == |coins| && forall k | 0 <= k < |coins| :: !inclusion[k]
    ensures Standing(coins, inclusion, 0, 0)
    ensures LeftBehindOk(coins, target, best, inclusion[..0])
    ensures NodesLeft(inclusion[..0], |coins|) == Pow2(|coins|) - 1
    ensures BestSoFar(coins, target, [], MAX_UINT64)
  {
    assert inclusion[..0] == [];
  }

  lemma PerfectMatch(coins: seq<Utxo>, target: nat)
    ensures SubtreeOk(coins, target, 0, [])
  {
  }

  lemma StandDeeper(coins: seq<Utxo>, inclusion: seq<bool>, depth: nat, taken: bool)
    requires depth + 1 < |coins| && |inclusion| == |coins|
    requires Standing(coins, inclusion, depth, PickedValue(coins, inclusion[..depth]))
    ensures var next := inclusion[depth := taken];
            && next[..depth + 1] == inclusion[..depth] + [taken]
            && Standing(coins, next, depth + 1,
                        PickedValue(coins, inclusion[..depth]) + if taken then coins[depth].out.value else 0)
  {
    var next := inclusion[depth := taken];
    assert next[..depth + 1][..depth] == inclusion[..depth];
  }

  datatype Outcome = Exact | Deeper | Settled

  /** The include half of one visit: take the coin at depth, record the selection if it
      reaches the target with less waste, and decide where to go. */
  method Include(coins: seq<Utxo>, sums: seq<UInt64>, target: UInt64, inclusion0: seq<bool>, depth: nat,
                 current0: UInt64, best0: seq<bool>, bestWaste0: UInt64)
    returns (inclusion: seq<bool>, current: UInt64, best: seq<bool>, bestWaste: UInt64, outcome: Outcome)
    requires Value(coins) <= MAX_UINT64
    requires |sums| == |coins| + 1 && forall i | 0 <= i <= |coins| :: sums[i] == Suffix(coins, i)
    requires Standing(coins, inclusion0, depth, current0)
    requires LeftBehindOk(coins, target, bestWaste0, inclusion0[..depth])
    requires BestSoFar(coins, target, best0, bestWaste0)
    ensures inclusion == inclusion0[depth := true] && current == current0 + coins[depth].out.value
    ensures BestSoFar(coins, target, best, bestWaste)
    ensures LeftBehindOk(coins, target, bestWaste, inclusion0[..depth])
    ensures outcome == Exact ==> bestWaste == 0
    ensures outcome == Deeper ==> depth + 1 < |coins| && current < target
    ensures outcome == Settled ==> SubtreeOk(coins, target, bestWaste, inclusion0[..depth] + [true])
  {
    ghost var p := inclusion0[..depth];
    Flip(coins, inclusion0, depth, current0);
    PickedBound(coins, p + [true]);
    inclusion := inclusion0[depth := true];
    current := current0 + coins[depth].out.value;
    best, bestWaste, outcome := best0, bestWaste0, Settled;
    if current >= target {
      var waste: UInt64 := current - target;
      if waste < bestWaste {
        bestWaste, best := waste, inclusion;
        AllExcludedBeyond(coins, inclusion, depth + 1);
      }
      if waste == 0 {
        outcome := Exact;
      }
      IncludeIsSettled(coins, target, bestWaste0, bestWaste, p);
    } else {
      if depth + 1 < |coins| {
        var reach: UInt64 := current + sums[depth + 1];
        if reach >= target {
          outcome := Deeper;
          return;
        }
      }
      HopelessSubtree(coins, target, bestWaste, p + [true]);
    }
  }

  /** The depth-first search. `tried` counts its iterations; the search tree bounds them. */
  method Search(coins: seq<Utxo>, sums: seq<UInt64>, target: UInt64)
    returns (best: seq<bool>, bestWaste: UInt64, ghost tried: nat)
    requires coins != [] && Value(coins) <= MAX_UINT64
    requires |sums| == |coins| + 1 && forall i | 0 <= i <= |coins| :: sums[i] == Suffix(coins, i)
    ensures BestSoFar(coins, target, best, bestWaste)
    ensures tried <= MAX_TRIES && tried < Pow2(|coins|)
    ensures tried < MAX_TRIES ==> SubtreeOk(coins, target, bestWaste, [])
  {
    hide *;
    ghost var n := |coins|;
    var current: UInt64 := 0;
    var inclusion := seq(|coins|, _ => false);
    AtTheRoot(coins, target, MAX_UINT64, inclusion);
    best, bestWaste := [], MAX_UINT64;
    var tries := 0;
    tried := 0;
    var depth: nat := 0;
    while tries < MAX_TRIES
      invariant tried == tries <= MAX_TRIES
      invariant BestSoFar(coins, target, best, bestWaste)
      invariant |inclusion| == |coins| && depth < |coins| && current == PickedValue(coins, inclusion[..depth])
      invariant Standing(coins, inclusion, depth, current)
      invariant LeftBehindOk(coins, target, bestWaste, inclusion[..depth])
      invariant target > 0 ==> current < target
      invariant tries + NodesLeft(inclusion[..depth], n) < Pow2(n)
    {
      tries := tries + 1;
      tried := tries;
      ghost var was, p := inclusion, inclusion[..depth];
      StepsOfMeasure(p, n);
      Flip(coins, inclusion, depth, current);
      var outcome;
      inclusion, current, best, bestWaste, outcome :=
        Include(coins, sums, target, inclusion, depth, current, best, bestWaste);
      if outcome == Exact {
        PerfectMatch(coins, target);
        return;
      }
      if outcome == Deeper {
        DescendInclude(coins, target, bestWaste, p);
        StandDeeper(coins, was, depth, true);
        depth := depth + 1;
        continue;
      }
      current := current - coins[depth].out.value;
      inclusion := inclusion[depth := false];
      assert inclusion == was;
      ExcludeNext(coins, target, bestWaste, p, current);
      if depth + 1 < |coins| {
        var reach: UInt64 := current + sums[depth + 1];
        if reach >= target {
          StandDeeper(coins, was, depth, false);
          assert inclusion == was[depth := false];
          depth := depth + 1;
          continue;
        }
      }
      var backtrack;
      inclusion, depth, current, backtrack := Climb(coins, sums, target, bestWaste, inclusion, depth, current);
      if backtrack {
        return;
      }
    }
    StepsOfMeasure(inclusion[..depth], n);
  }

  lemma {:induction false} AllExcludedBeyond(coins: seq<Utxo>, inclusion: seq<bool>, from: nat)
    requires |inclusion| == |coins| && from <= |coins|
    requires forall k | from <= k < |coins| :: !inclusion[k]
    ensures PickedValue(coins, inclusion) == PickedValue(coins, inclusion[..from])
    decreases |coins| - from
  {
    if from == |coins| {
      assert inclusion[..from] == inclusion;
    } else {
      assert inclusion[..from + 1][..from] == inclusion[..from];
      AllExcludedBeyond(coins, inclusion, from + 1);
    }
  }

  /** A sub-multiset of the coins, as a list. */
  ghost predicate SubsetOf(sub: seq<Utxo>, coins: seq<Utxo>) {
    multiset(sub) <= multiset(coins)
  }

  /** No subset of the coins reaches the target with less waste than `best`. */
  ghost predicate LeastWaste(coins: seq<Utxo>, target: nat, best: nat) {
    forall sub: seq<Utxo> | SubsetOf(sub, coins) && target <= Value(sub) :: best <= Value(sub) - target
  }

  /** What the search settled over include/exclude vectors of the sorted list, said of all
      subsets of the coins as given. */
  lemma SettledIsLeast(coins: seq<Utxo>, sorted: seq<Utxo>, target: nat, best: nat)
    requires target > 0 && multiset(sorted) == multiset(coins)
    requires SubtreeOk(sorted, target, best, [])
    ensures LeastWaste(coins, target, best)
  {
    forall sub: seq<Utxo> | SubsetOf(sub, coins) && target <= Value(sub)
      ensures best <= Value(sub) - target
    {
      var sel := SubsetIsPicked(sorted, sub);
      assert Extends(sel, []);
      assert NotBetter(sorted, target, best, sel);
    }
  }

  /** The largest unsigned value is not a waste any subset can have. */
  lemma NothingReaches(coins: seq<Utxo>, target: nat, sub: seq<Utxo>)
    requires target > 0 && Value(coins) <= MAX_UINT64
    requires LeastWaste(coins, target, MAX_UINT64)
    requires SubsetOf(sub, coins)
    ensures Value(sub) < target
  {
    var sel := SubsetIsPicked(coins, sub);
    PickedBound(coins, sel);
  }

  ghost predicate InWindow(coins: seq<Utxo>, target: nat, costOfChange: nat) {
    target <= Value(coins) <= target + costOfChange
  }

  /** Sound always, optimal whenever the search stops before the try limit. An include/exclude
      tree over at most sixteen coins is always searched to the end. */
  method BranchAndBoundSelect(coins: seq<Utxo>, target: UInt64, costOfChange: UInt64)
    returns (result: seq<Utxo>, ghost tried: nat)
    requires coins != [] && Value(coins) <= MAX_UINT64
    ensures result != [] ==> SubsetOf(result, coins) && InWindow(result, target, costOfChange)
    ensures tried <= MAX_TRIES && tried < Pow2(|coins|)
    ensures 0 < target && tried < MAX_TRIES && result != [] ==> LeastWaste(coins, target, Value(result) - target)
    ensures 0 < target && tried < MAX_TRIES && result == [] ==>
              forall sub: seq<Utxo> | SubsetOf(sub, coins) :: !InWindow(sub, target, costOfChange)
    ensures |coins| <= 16 ==> tried < MAX_TRIES
  {
    hide SubtreeOk, LeastWaste;
    var sorted := SortDescending(coins);
    EqualMultisetsEqualValues(sorted, coins);
    assert sorted != [] by {
      assert coins[0] in multiset(sorted);
    }
    SameLength(sorted, coins);
    SmallTree(|coins|);
    var sums := SuffixSums(sorted);
    var best, bestWaste;
    best, bestWaste, tried := Search(sorted, sums, target);
    if 0 < target && tried < MAX_TRIES {
      SettledIsLeast(coins, sorted, target, bestWaste);
    }
    if best == [] {
      result := [];
      NoneInWindow(coins, target, bestWaste, costOfChange, 0 < target && tried < MAX_TRIES);
      return;
    }
    if bestWaste > costOfChange {
      result := [];
      NoneInWindow(coins, target, bestWaste, costOfChange, 0 < target && tried < MAX_TRIES);
      return;
    }
    result := TakePicked(sorted, best);
    PickedHasItsValue(sorted, best);
    PickedIsSubset(sorted, best);
    assert sorted[..|best|] == sorted;
  }

  lemma SameLength(a: seq<Utxo>, b: seq<Utxo>)
    requires multiset(a) == multiset(b)
    ensures |a| == |b|
  {
    assert |multiset(a)| == |a| && |multiset(b)| == |b|;
  }

  lemma SmallTree(n: nat)
    ensures n <= 16 ==> Pow2(n) <= MAX_TRIES
  {
    if n <= 16 {
      if n < 16 {
        Pow2Strict(n, 16);
      }
      assert Pow2(3) == 8;
      assert Pow2(6) == 64;
      assert Pow2(9) == 512;
      assert Pow2(12) == 4096;
      assert Pow2(14) == 16384;
      assert Pow2(16) == 65536;
    }
  }

  /** With the least waste outside the window, no subset is inside it. */
  lemma NoneInWindow(coins: seq<Utxo>, target: nat, best: nat, costOfChange: nat, settled: bool)
    requires Value(coins) <= MAX_UINT64
    requires settled ==> target > 0 && LeastWaste(coins, target, best)
    requires best == MAX_UINT64 || best > costOfChange
    ensures settled ==> forall sub: seq<Utxo> | SubsetOf(sub, coins) :: !InWindow(sub, target, costOfChange)
  {
    if settled {
      forall sub: seq<Utxo> | SubsetOf(sub, coins)
        ensures !InWindow(sub, target, costOfChange)
      {
        if best == MAX_UINT64 {
          NothingReaches(coins, target, sub);
        }
      }
    }
  }

  method TakePicked(coins: seq<Utxo>, sel: seq<bool>) returns (result: seq<Utxo>)
    requires |sel| == |coins|
    ensures result == Picked(coins, sel)
  {
    result := [];
    assert sel[..0] == [];
    for i := 0 to |coins|
      invariant result == Picked(coins, sel[..i])
    {
      assert sel[..i + 1][..i] == sel[..i];
      if sel[i] {
        result := result + [coins[i]];
      }
    }
    assert sel[..|coins|] == sel;
  }

  // ----- The transaction built from the selected coins -----

  /** No selection of so many coins is worth more than the first so many of the sorted ones. */
  lemma {:induction false} LargestAreWorthMost(sorted: seq<Utxo>, sel: seq<bool>)
    requires Descending(sorted) && |sel| <= |sorted|
    ensures PickedValue(sorted, sel) <= Value(sorted[..Count(sel)])
  {
    if sel != [] {
      var n := |sel| - 1;
      var c := Count(sel[..n]);
      LargestAreWorthMost(sorted, sel[..n]);
      if sel[n] {
        assert sorted[..c + 1][..c] == sorted[..c];
        assert sorted[n].out.value <= sorted[c].out.value;
      }
    }
  }

  lemma FewestCoins(sorted: seq<Utxo>, target: nat, k: nat, sub: seq<Utxo>)
    requires Descending(sorted) && k < |sorted| && Value(sorted[..k]) <= target
    requires SubsetOf(sub, sorted) && Value(sub) > target
    ensures |sub| > k
  {
    hide Value, PickedValue, Count;
    var sel := SubsetIsPicked(sorted, sub);
    LargestAreWorthMost(sorted, sel);
    if Count(sel) <= k {
      MoreIsWorthMore(sorted, Count(sel), k);
    }
  }

  lemma MoreIsWorthMore(coins: seq<Utxo>, j: nat, k: nat)
    requires j <= k <= |coins|
    ensures Value(coins[..j]) <= Value(coins[..k])
  {
    hide Value;
    assert coins[..k] == coins[..j] + coins[j..k];
    ValueAppend(coins[..j], coins[j..k]);
  }

  /** No list of fewer coins exceeds the target. */
  ghost predicate IsFewest(selected: seq<Utxo>, coins: seq<Utxo>, target: nat) {
    forall sub: seq<Utxo> | SubsetOf(sub, coins) && Value(sub) > target :: |sub| >= |selected|
  }

  lemma PrefixIsFewest(sorted: seq<Utxo>, coins: seq<Utxo>, target: nat, k: nat)
    requires multiset(sorted) == multiset(coins) && Descending(sorted)
    requires k < |sorted| && Value(sorted[..k]) <= target
    ensures IsFewest(sorted[..k + 1], coins, target)
  {
    forall sub: seq<Utxo> | SubsetOf(sub, coins) && Value(sub) > target
      ensures |sub| >= |sorted[..k + 1]|
    {
      assert SubsetOf(sub, sorted);
      FewestCoins(sorted, target, k, sub);
    }
  }

  /** The fallback: the largest coins, until their sum exceeds the target. No fewer coins do. */
  method LargestFirst(coins: seq<Utxo>, target: UInt64) returns (selected: seq<Utxo>, enough: bool)
    requires Value(coins) <= MAX_UINT64
    ensures SubsetOf(selected, coins)
    ensures enough <==> Value(coins) > target
    ensures enough ==> Value(selected) > target && IsFewest(selected, coins, target)
  {
    hide *;
    var sorted := SortDescending(coins);
    PrefixIsSubset(sorted, coins, 0);
    selected := [];
    var inSum: UInt64 := 0;
    var i := 0;
    while i < |sorted|
      invariant 0 <= i <= |sorted| && selected == sorted[..i]
      invariant SubsetOf(selected, coins)
      invariant inSum == Value(selected) <= target
    {
      PrefixIsSubset(sorted, coins, i + 1);
      PrefixIsFewest(sorted, coins, target, i);
      selected := selected + [sorted[i]];
      assert selected == sorted[..i + 1];
      inSum := inSum + sorted[i].out.value;
      i := i + 1;
      if inSum > target {
        return selected, true;
      }
    }
    assert sorted[..i] == sorted;
    EqualMultisetsEqualValues(sorted, coins);
    enough := false;
  }

  lemma PrefixIsSubset(sorted: seq<Utxo>, coins: seq<Utxo>, i: nat)
    requires multiset(sorted) == multiset(coins) && i <= |sorted|
    requires Value(coins) <= MAX_UINT64
    ensures SubsetOf(sorted[..i], coins)
    ensures Value(sorted[..i]) <= Value(coins) <= MAX_UINT64
    ensures Value(sorted[..i]) == if i == 0 then 0 else Value(sorted[..i - 1]) + sorted[i - 1].out.value
  {
    if i > 0 {
      assert sorted[..i][..i - 1] == sorted[..i - 1];
    }
    assert sorted == sorted[..i] + sorted[i..];
    ValueAppend(sorted[..i], sorted[i..]);
    EqualMultisetsEqualValues(sorted, coins);
  }

  method SumValues(coins: seq<Utxo>) returns (sum: UInt64)
    requires Value(coins) <= MAX_UINT64
    ensures sum == Value(coins)
  {
    sum := 0;
    assert coins[..0] == [];
    for i := 0 to |coins|
      invariant sum == Value(coins[..i])
    {
      assert coins[..i + 1][..i] == coins[..i];
      ValueIsSuffix(coins, i + 1);
      sum := sum + coins[i].out.value;
    }
    assert coins[..|coins|] == coins;
  }

  /** What signs an outpoint together with the outputs, and what hashes a transaction. */
  type Signer = (OutPoint, seq<TxOut>) -> seq<Byte>

  type Hasher = (seq<TxIn>, seq<TxOut>, Int64) -> Id

  /** Inputs of tx, in order, spend exactly `spent`, each signed over its outpoint and all outputs. */
  ghost predicate Spends(tx: Tx, spent: seq<Utxo>, sign: Signer, pubKey: seq<Byte>) {
    && |tx.ins| == |spent|
    && forall i | 0 <= i < |spent| ::
         && tx.ins[i].toSpend == Some(spent[i].point) && tx.ins[i].unlockSig == sign(spent[i].point, tx.outs)
         && tx.ins[i].unlockPubKey == pubKey && tx.ins[i].sequence == SEQUENCE_RBF
  }

  /** Conservation: what the coins are worth is what the outputs carry plus a fee between the
      estimate (300 bytes) and the estimate plus a change output (34 bytes). */
  method BuildTx(coins: seq<Utxo>, value: UInt64, fee: UInt64, address: seq<Byte>, changeAddress: seq<Byte>,
                 pubKey: seq<Byte>, lockTime: Int64,
                 sign: Signer, txId: Hasher)
    returns (r: Option<Tx>, ghost spent: seq<Utxo>)
    requires coins != [] && Value(coins) <= MAX_UINT64
    requires value + 334 * fee <= MAX_UINT64
    ensures r.Some? ==> spent != [] && SubsetOf(spent, coins) && Spends(r.value, spent, sign, pubKey)
    ensures r.Some? ==> r.value.lockTime == lockTime && r.value.id == txId(r.value.ins, r.value.outs, lockTime)
    ensures r.Some? ==> r.value.outs != [] && r.value.outs[0] == TxOut(value, address) && |r.value.outs| <= 2
    ensures r.Some? ==> OutSum(r.value.outs) + 300 * fee <= Value(spent) <= OutSum(r.value.outs) + 334 * fee
    ensures r.Some? && |r.value.outs| == 2 ==>
              && r.value.outs[1].toAddress == changeAddress && Value(spent) == OutSum(r.value.outs) + 300 * fee
              && IsFewest(spent, coins, value + 300 * fee)
    ensures r.None? ==> Value(coins) <= value + 300 * fee
    ensures Value(coins) < value + 300 * fee ==> r.None?
    ensures |coins| <= 16 && 0 < value + 300 * fee ==> (r.None? <==> Value(coins) < value + 300 * fee)
  {
    var target: UInt64 := value + 300 * fee;
    var costOfChange: UInt64 := 34 * fee;
    var selected, tried := BranchAndBoundSelect(coins, target, costOfChange);
    var exactMatch := selected != [];
    if !exactMatch {
      var enough;
      selected, enough := LargestFirst(coins, target);
      if !enough {
        assert SubsetOf(coins, coins);
        assert |coins| <= 16 && 0 < target ==> !InWindow(coins, target, costOfChange);
        return None, [];
      }
    }
    spent := selected;
    SubsetBound(selected, coins);
    var inSum := SumValues(selected);
    var outs := [TxOut(value, address)];
    assert OutSum(outs) == value;
    if !exactMatch {
      var change: UInt64 := inSum - value - 300 * fee;
      assert (outs + [TxOut(change, changeAddress)])[..1] == outs;
      outs := outs + [TxOut(change, changeAddress)];
    }
    var ins: seq<TxIn> := [];
    for i := 0 to |selected|
      invariant |ins| == i
      invariant forall j | 0 <= j < i ::
                  ins[j] == TxIn(Some(selected[j].point), sign(selected[j].point, outs), pubKey, SEQUENCE_RBF)
    {
      ins := ins + [TxIn(Some(selected[i].point), sign(selected[i].point, outs), pubKey, SEQUENCE_RBF)];
    }
    r := Some(Tx(txId(ins, outs, lockTime), ins, outs, lockTime));
  }

  lemma SubsetBound(sub: seq<Utxo>, coins: seq<Utxo>)
    requires SubsetOf(sub, coins)
    ensures Value(sub) <= Value(coins)
  {
    var sel := SubsetIsPicked(coins, sub);
    PickedBound(coins, sel);
  }
}