/** Median time past: why it never goes back while validated blocks extend a chain. */
module MedianTime {
  import opened Types

  const WINDOW: nat := 11

  // ----- Sorting and medians -----

  ghost function Insert(s: seq<int>, x: int): (r: seq<int>)
    ensures |r| == |s| + 1
  {
    if s == [] || s[|s| - 1] <= x then s + [x]
    else Insert(s[..|s| - 1], x) + [s[|s| - 1]]
  }

  ghost function Sort(s: seq<int>): (r: seq<int>)
    ensures |r| == |s|
  {
    if s == [] then [] else Insert(Sort(s[..|s| - 1]), s[|s| - 1])
  }

  ghost predicate Ascending(s: seq<int>) {
    forall i, j | 0 <= i < j < |s| :: s[i] <= s[j]
  }

  /** How many elements are at least v. */
  ghost function AtLeast(s: seq<int>, v: int): (c: nat)
    ensures c <= |s|
  {
    if s == [] then 0 else AtLeast(s[..|s| - 1], v) + if s[|s| - 1] >= v then 1 else 0
  }

  lemma {:induction false} InsertKeeps(s: seq<int>, x: int, v: int)
    ensures AtLeast(Insert(s, x), v) == AtLeast(s, v) + if x >= v then 1 else 0
    ensures multiset(Insert(s, x)) == multiset(s) + multiset{x}
  {
    if s == [] || s[|s| - 1] <= x {
      assert (s + [x])[..|s|] == s;
    } else {
      var k := |s| - 1;
      InsertKeeps(s[..k], x, v);
      var r := Insert(s[..k], x);
      assert (r + [s[k]])[..|r|] == r;
      assert s == s[..k] + [s[k]];
    }
  }

  lemma {:induction false} InsertBelow(s: seq<int>, x: int, bound: int)
    requires x <= bound && forall i | 0 <= i < |s| :: s[i] <= bound
    ensures forall i | 0 <= i < |s| + 1 :: Insert(s, x)[i] <= bound
  {
    if s != [] && s[|s| - 1] > x {
      InsertBelow(s[..|s| - 1], x, bound);
    }
  }

  lemma {:induction false} InsertAscends(s: seq<int>, x: int)
    requires Ascending(s)
    ensures Ascending(Insert(s, x))
  {
    if s != [] && s[|s| - 1] > x {
      InsertAscends(s[..|s| - 1], x);
      InsertBelow(s[..|s| - 1], x, s[|s| - 1]);
    }
  }

  lemma {:induction false} SortSorts(s: seq<int>)
    ensures Ascending(Sort(s))
    ensures multiset(Sort(s)) == multiset(s)
  {
    if s != [] {
      var k := |s| - 1;
      SortSorts(s[..k]);
      InsertAscends(Sort(s[..k]), s[k]);
      InsertKeeps(Sort(s[..k]), s[k], 0);
      assert s == s[..k] + [s[k]];
    }
  }

  lemma {:induction false} SortCounts(s: seq<int>, v: int)
    ensures AtLeast(Sort(s), v) == AtLeast(s, v)
  {
    if s != [] {
      var k := |s| - 1;
      SortCounts(s[..k], v);
      InsertKeeps(Sort(s[..k]), s[k], v);
    }
  }

  /** In a sorted list, how many elements are at least v says which positions are. */
  lemma {:induction false} PositionByCount(s: seq<int>, k: nat, v: int)
    requires Ascending(s) && k < |s|
    ensures s[k] >= v <==> AtLeast(s, v) >= |s| - k
  {
    var n := |s| - 1;
    if k == n {
      if s[n] < v {
        NoneAtLeast(s, v);
      }
    } else {
      PositionByCount(s[..n], k, v);
      if s[n] < v {
        NoneAtLeast(s, v);
      }
    }
  }

  lemma {:induction false} NoneAtLeast(s: seq<int>, v: int)
    requires Ascending(s) && (s != [] ==> s[|s| - 1] < v)
    ensures AtLeast(s, v) == 0
  {
    if s != [] {
      NoneAtLeast(s[..|s| - 1], v);
    }
  }

  ghost function Median(s: seq<int>): int
    requires s != []
  {
    Sort(s)[|s| / 2]
  }

  lemma MedianByCount(s: seq<int>, v: int)
    requires s != []
    ensures Median(s) >= v <==> AtLeast(s, v) >= |s| - |s| / 2
  {
    SortSorts(s);
    SortCounts(s, v);
    PositionByCount(Sort(s), |s| / 2, v);
  }

  lemma {:induction false} CountAppend(a: seq<int>, b: seq<int>, v: int)
    ensures AtLeast(a + b, v) == AtLeast(a, v) + AtLeast(b, v)
  {
    if b == [] {
      assert a + b == a;
    } else {
      assert (a + b)[..|a + b| - 1] == a + b[..|b| - 1];
      CountAppend(a, b[..|b| - 1], v);
    }
  }

  /** Dropping the oldest time of a window and adding one at or above the median keeps the
      median from falling. */
  lemma SlidingMedian(w: seq<int>, t: int)
    requires w != [] && t >= Median(w)
    ensures Median(w[1..] + [t]) >= Median(w)
  {
    var v := Median(w);
    MedianByCount(w, v);
    assert w == [w[0]] + w[1..];
    CountAppend([w[0]], w[1..], v);
    CountAppend(w[1..], [t], v);
    assert AtLeast([t], v) == 1;
    MedianByCount(w[1..] + [t], v);
  }

  // ----- Median time past of a chain, given its timestamps -----

  ghost function MedianTimePast(times: seq<int>): int {
    if WINDOW > |times| then 0 else Median(times[|times| - WINDOW..])
  }

  /** The same at an inner height, over however many blocks there are up to it. */
  ghost function MedianTimePastAt(times: seq<int>, height: nat): int {
    if height >= |times| then 0
    else
      var count := if WINDOW < height + 1 then WINDOW else height + 1;
      Median(times[height + 1 - count..height + 1])
  }

  /** Every time after the first `start` was above the median time past when its block arrived,
      and the first ones are positive. */
  ghost predicate TimesRise(times: seq<int>, start: nat) {
    && (forall i | 0 <= i < |times| && i < start :: times[i] > 0)
    && (forall i | start <= i < |times| :: times[i] > MedianTimePast(times[..i]))
  }

  lemma {:induction false} TimesArePositive(times: seq<int>, start: nat)
    requires TimesRise(times, start) && |times| <= WINDOW
    ensures forall i | 0 <= i < |times| :: times[i] > 0
  {
    forall i | 0 <= i < |times|
      ensures times[i] > 0
    {
      if i >= start {
        assert |times[..i]| < WINDOW;
      }
    }
  }

  lemma {:induction false} AllAtLeast(s: seq<int>, v: int)
    requires forall i | 0 <= i < |s| :: s[i] >= v
    ensures AtLeast(s, v) == |s|
  {
    if s != [] {
      AllAtLeast(s[..|s| - 1], v);
    }
  }

  lemma NextBlockRaises(times: seq<int>, t: int, start: nat)
    requires TimesRise(times + [t], start) && start <= |times|
    ensures MedianTimePast(times + [t]) >= MedianTimePast(times)
  {
    var next := times + [t];
    var n := |times|;
    assert next[..n] == times;
    if n + 1 == WINDOW {
      TimesArePositive(next, start);
      assert next[0..] == next;
      AllAtLeast(next, 0);
      MedianByCount(next, 0);
    } else if n >= WINDOW {
      var w := times[n - WINDOW..];
      assert t > MedianTimePast(times) by {
        assert next[n] > MedianTimePast(next[..n]);
      }
      SlidingMedian(w, t);
      assert next[n + 1 - WINDOW..] == w[1..] + [t];
    }
  }

  /** The median time past never decreases along a run of validated blocks, the jump from 0
      at the eleventh block included. */
  lemma {:induction false} NeverDecreases(times: seq<int>, later: seq<int>, start: nat)
    requires start <= |times| <= |later| && later[..|times|] == times
    requires TimesRise(later, start)
    ensures MedianTimePast(times) <= MedianTimePast(later)
    decreases |later|
  {
    if |later| == |times| {
      assert later == times;
    } else {
      var n := |later| - 1;
      assert later == later[..n] + [later[n]];
      RisePrefix(later, n, start);
      assert later[..n][..|times|] == times;
      NeverDecreases(times, later[..n], start);
      NextBlockRaises(later[..n], later[n], start);
    }
  }

  lemma RisePrefix(times: seq<int>, n: nat, start: nat)
    requires TimesRise(times, start) && n <= |times|
    ensures TimesRise(times[..n], start)
  {
    forall i | start <= i < n
      ensures times[..n][i] > MedianTimePast(times[..n][..i])
    {
      assert times[..n][..i] == times[..i];
      assert times[i] > MedianTimePast(times[..i]);
    }
  }

  lemma InnerMedianIsStable(times: seq<int>, later: seq<int>, height: nat)
    requires |times| <= |later| && later[..|times|] == times && height < |times|
    ensures MedianTimePastAt(later, height) == MedianTimePastAt(times, height)
  {
    var count := if WINDOW < height + 1 then WINDOW else height + 1;
    assert forall k | 0 <= k < |times| :: later[k] == later[..|times|][k];
    assert later[height + 1 - count..height + 1] == times[height + 1 - count..height + 1];
  }

  /** Six of the last eleven blocks have this time or a later one. */
  ghost predicate TimeReached(times: seq<int>, t: int) {
    |times| >= 11 && AtLeast(times[|times| - 11..], t) >= 6
  }

  lemma TimeReachedIff(times: seq<int>, t: int)
    ensures |times| >= WINDOW || t > 0 ==> (MedianTimePast(times) >= t <==> TimeReached(times, t))
  {
    hide Sort, AtLeast;
    if |times| >= WINDOW {
      MedianByCount(times[|times| - WINDOW..], t);
    }
  }

  /** The median of up to eleven times right before the block with this index. */
  ghost function MedianBefore(times: seq<int>, index: nat): int
    requires index <= |times|
  {
    if index == 0 then 0 else if index < 11 then Median(times[..index]) else Median(times[index - 11..index])
  }

  lemma MedianBeforeIs(times: seq<int>, index: nat)
    requires index <= |times|
    ensures MedianBefore(times, index) == if index > 0 then MedianTimePastAt(times, index - 1) else 0
  {
    hide Median;
    if 0 < index < 11 {
      assert times[0..index] == times[..index];
    }
  }

  // ----- The algorithms -----

  method InsertSorted(s: seq<int>, x: int) returns (r: seq<int>)
    ensures r == Insert(s, x)
  {
    var at := |s|;
    ghost var tail: seq<int> := [];
    assert s[..at] == s && s[at..] == [];
    while at > 0 && s[at - 1] > x
      invariant 0 <= at <= |s|
      invariant Insert(s[..at], x) + s[at..] == Insert(s, x)
    {
      assert s[..at][..at - 1] == s[..at - 1];
      assert s[at - 1..] == [s[at - 1]] + s[at..];
      at := at - 1;
    }
    r := s[..at] + [x] + s[at..];
  }

  /** get_median_time_past: collect the last times, sort them, take the middle one. */
  method GetMedianTimePast(blocks: seq<Block>, count: nat) returns (mtp: int)
    requires count > 0
    ensures mtp == if count > |blocks| then 0 else Median(Times(blocks)[|blocks| - count..])
  {
    if count > |blocks| {
      return 0;
    }
    var firstIdx := |blocks| - count;
    mtp := MedianOfRange(blocks, firstIdx, |blocks|);
    assert Times(blocks)[firstIdx..|blocks|] == Times(blocks)[firstIdx..];
  }

  method GetMedianTimePastAtHeight(blocks: seq<Block>, height: nat) returns (mtp: int)
    ensures mtp == MedianTimePastAt(Times(blocks), height)
  {
    if height >= |blocks| {
      return 0;
    }
    var count := if WINDOW < height + 1 then WINDOW else height + 1;
    mtp := MedianOfRange(blocks, height + 1 - count, height + 1);
  }

  method MedianOfRange(blocks: seq<Block>, from: nat, to: nat) returns (m: int)
    requires from < to <= |blocks|
    ensures m == Median(Times(blocks)[from..to])
  {
    ghost var times := Times(blocks)[from..to];
    var sorted: seq<int> := [];
    assert times[..0] == [];
    for i := from to to
      invariant sorted == Sort(times[..i - from])
    {
      ghost var next := times[..i + 1 - from];
      assert Times(blocks)[i] == blocks[i].timestamp && times[i - from] == Times(blocks)[i];
      assert next[..i - from] == times[..i - from] && next[i - from] == blocks[i].timestamp;
      assert Sort(next) == Insert(Sort(next[..|next| - 1]), next[|next| - 1]);
      sorted := InsertSorted(sorted, blocks[i].timestamp);
    }
    assert times[..to - from] == times;
    m := sorted[(to - from) / 2];
  }

  ghost function Times(blocks: seq<Block>): (times: seq<int>)
    ensures |times| == |blocks|
  {
    seq(|blocks|, i requires 0 <= i < |blocks| => blocks[i].timestamp)
  }
}
