/** The Merkle root of a block's transaction ids, and what it commits to. */
module Merkle {
  import opened Types
  import opened Arithmetic

  /** The hash of two concatenated child hashes. */
  type NodeHash = (Id, Id) -> Id

  // ----- Specification -----

  /** The level above a list of nodes; an odd last node is paired with itself. */
  ghost function Level(h: NodeHash, nodes: seq<Id>): (up: seq<Id>)
    ensures |up| == (|nodes| + 1) / 2
  {
    seq((|nodes| + 1) / 2, i requires 0 <= i < (|nodes| + 1) / 2 =>
      h(nodes[2 * i], if 2 * i + 1 < |nodes| then nodes[2 * i + 1] else nodes[2 * i]))
  }

  ghost function Root(h: NodeHash, nodes: seq<Id>): Id
    requires nodes != []
    decreases |nodes|
  {
    if |nodes| == 1 then nodes[0] else Root(h, Level(h, nodes))
  }

  /** The roots of up to five leaves, written out. */
  lemma SmallRoots(h: NodeHash, a: Id, b: Id, c: Id, d: Id, e: Id)
    ensures Root(h, [a]) == a && Root(h, [a, b]) == h(a, b)
    ensures Root(h, [a, b, c]) == h(h(a, b), h(c, c))
    ensures Root(h, [a, b, c, d]) == h(h(a, b), h(c, d))
    ensures Root(h, [a, b, c, d, e]) == h(h(h(a, b), h(c, d)), h(h(e, e), h(e, e)))
  {
    assert Level(h, [a, b]) == [h(a, b)];
    assert Level(h, [a, b, c]) == [h(a, b), h(c, c)];
    assert Level(h, [a, b, c, d]) == [h(a, b), h(c, d)];
    assert Level(h, [a, b, c, d, e]) == [h(a, b), h(c, d), h(e, e)];
    hide Level;
    TwoNodes(h, h(a, b), h(c, c));
    TwoNodes(h, h(a, b), h(c, d));
    ThreeNodes(h, h(a, b), h(c, d), h(e, e));
  }

  lemma TwoNodes(h: NodeHash, a: Id, b: Id)
    ensures Root(h, [a, b]) == h(a, b)
  {
    assert Level(h, [a, b]) == [h(a, b)];
  }

  lemma ThreeNodes(h: NodeHash, a: Id, b: Id, c: Id)
    ensures Root(h, [a, b, c]) == h(h(a, b), h(c, c))
  {
    assert Level(h, [a, b, c]) == [h(a, b), h(c, c)];
    hide Level;
    TwoNodes(h, h(a, b), h(c, c));
  }

  ghost predicate Injective(h: NodeHash) {
    forall a, b, c, d :: h(a, b) == h(c, d) ==> a == c && b == d
  }

  /** A transaction id, as opposed to a hash of two nodes. */
  ghost predicate IsLeaf(h: NodeHash, id: Id) {
    forall a, b :: h(a, b) != id
  }

  ghost predicate AllLeaves(h: NodeHash, ids: seq<Id>) {
    forall i | 0 <= i < |ids| :: IsLeaf(h, ids[i])
  }

  ghost predicate Distinct(ids: seq<Id>) {
    forall i, j | 0 <= i < j < |ids| :: ids[i] != ids[j]
  }

  // ----- Every node knows how far it is above the leaves -----

  ghost predicate AtHeight(h: NodeHash, id: Id, k: nat) {
    if k == 0 then IsLeaf(h, id)
    else exists a, b :: h(a, b) == id && AtHeight(h, a, k - 1)
  }

  ghost predicate AllAtHeight(h: NodeHash, ids: seq<Id>, k: nat) {
    forall i | 0 <= i < |ids| :: AtHeight(h, ids[i], k)
  }

  lemma {:induction false} HeightIsUnique(h: NodeHash, id: Id, j: nat, k: nat)
    requires Injective(h)
    requires AtHeight(h, id, j) && AtHeight(h, id, k)
    ensures j == k
  {
    if j > 0 && k > 0 {
      var a, b :| h(a, b) == id && AtHeight(h, a, j - 1);
      var c, d :| h(c, d) == id && AtHeight(h, c, k - 1);
      assert a == c;
      HeightIsUnique(h, a, j - 1, k - 1);
    }
  }

  lemma LevelHeight(h: NodeHash, nodes: seq<Id>, k: nat)
    requires AllAtHeight(h, nodes, k)
    ensures AllAtHeight(h, Level(h, nodes), k + 1)
  {
    var up := Level(h, nodes);
    forall i | 0 <= i < |up|
      ensures AtHeight(h, up[i], k + 1)
    {
      assert AtHeight(h, nodes[2 * i], k);
    }
  }

  lemma LeavesAtZero(h: NodeHash, ids: seq<Id>)
    requires AllLeaves(h, ids)
    ensures AllAtHeight(h, ids, 0)
  {
    hide IsLeaf;
  }

  /** How often a list is halved, rounding up, before one node is left. */
  ghost function Halvings(n: nat): nat
    requires n > 0
  {
    if n == 1 then 0 else 1 + Halvings((n + 1) / 2)
  }

  lemma {:induction false} RootHeight(h: NodeHash, nodes: seq<Id>, k: nat)
    requires nodes != [] && AllAtHeight(h, nodes, k)
    ensures AtHeight(h, Root(h, nodes), k + Halvings(|nodes|))
    decreases |nodes|
  {
    if |nodes| > 1 {
      LevelHeight(h, nodes, k);
      RootHeight(h, Level(h, nodes), k + 1);
    }
  }

  // ----- Binding -----

  /** ys starts with xs, and if it goes on, it goes on with an element of xs. */
  ghost predicate Repeats(xs: seq<Id>, ys: seq<Id>) {
    && |xs| <= |ys| && ys[..|xs|] == xs
    && (|xs| < |ys| ==> ys[|xs|] in xs)
  }

  /** One level down, for levels of equal length. */
  lemma EqualLevels(h: NodeHash, xs: seq<Id>, ys: seq<Id>)
    requires Injective(h) && |xs| <= |ys|
    requires Level(h, xs) == Level(h, ys)
    ensures Repeats(xs, ys)
  {
    var up := Level(h, xs);
    forall i | 0 <= i < |xs|
      ensures ys[i] == xs[i]
    {
      assert up[i / 2] == Level(h, ys)[i / 2];
    }
    if |xs| < |ys| {
      var n := |xs|;
      assert |up| == |Level(h, ys)| && |ys| == n + 1;
      assert up[n / 2] == Level(h, ys)[n / 2];
      assert ys[n] == xs[n - 1];
    }
  }

  /** One level down, for levels the second of which goes on with a repetition. */
  lemma LongerLevel(h: NodeHash, xs: seq<Id>, ys: seq<Id>)
    requires Injective(h) && xs != []
    requires |Level(h, xs)| < |Level(h, ys)| && Repeats(Level(h, xs), Level(h, ys))
    ensures Repeats(xs, ys)
  {
    var up, yp := Level(h, xs), Level(h, ys);
    var n := |xs|;
    forall i | 0 <= i < n
      ensures ys[i] == xs[i]
    {
      assert up[i / 2] == yp[..|up|][i / 2] == yp[i / 2];
    }
    if n % 2 == 0 {
      var j :| 0 <= j < |up| && up[j] == yp[|up|];
      assert ys[n] == xs[2 * j];
    } else {
      var last := |up| - 1;
      assert up[last] == yp[..|up|][last] == yp[last];
      assert ys[n] == xs[n - 1];
    }
  }

  lemma {:induction false} SameRootRepeats(h: NodeHash, xs: seq<Id>, ys: seq<Id>)
    requires Injective(h) && xs != [] && |xs| <= |ys|
    requires Halvings(|xs|) == Halvings(|ys|)
    requires Root(h, xs) == Root(h, ys)
    ensures Repeats(xs, ys)
    decreases |ys|
  {
    if |ys| == 1 {
      assert xs == ys;
    } else {
      var up, yp := Level(h, xs), Level(h, ys);
      assert |xs| > 1;
      SameRootRepeats(h, up, yp);
      if |up| == |yp| {
        assert up == yp;
        EqualLevels(h, xs, ys);
      } else {
        LongerLevel(h, xs, ys);
      }
    }
  }

  /** What every collision looks like: two lists of transaction ids have the same root only if the
      longer one starts with the shorter one and then repeats one of its ids. */
  lemma CollisionsRepeat(h: NodeHash, xs: seq<Id>, ys: seq<Id>)
    requires Injective(h) && xs != [] && |xs| <= |ys|
    requires AllLeaves(h, xs) && AllLeaves(h, ys)
    requires Root(h, xs) == Root(h, ys)
    ensures Repeats(xs, ys)
  {
    hide *;
    LeavesAtZero(h, xs);
    LeavesAtZero(h, ys);
    RootHeight(h, xs, 0);
    RootHeight(h, ys, 0);
    HeightIsUnique(h, Root(h, xs), Halvings(|xs|), Halvings(|ys|));
    SameRootRepeats(h, xs, ys);
  }

  // ----- Exactly which lists collide -----

  /** The level above, for lists of leaves in place of hashes. */
  ghost function Joined(blocks: seq<seq<Id>>): (up: seq<seq<Id>>)
    ensures |up| == (|blocks| + 1) / 2
  {
    seq((|blocks| + 1) / 2, i requires 0 <= i < (|blocks| + 1) / 2 =>
      blocks[2 * i] + if 2 * i + 1 < |blocks| then blocks[2 * i + 1] else blocks[2 * i])
  }

  ghost function Full(blocks: seq<seq<Id>>): seq<Id>
    requires blocks != []
    decreases |blocks|
  {
    if |blocks| == 1 then blocks[0] else Full(Joined(blocks))
  }

  /** The leaves of the whole tree over a list, every repetition written out. */
  ghost function Padded(ids: seq<Id>): seq<Id>
    requires ids != []
  {
    Full(seq(|ids|, i requires 0 <= i < |ids| => [ids[i]]))
  }

  /** The hash of a tree without padding, from its leaves. */
  ghost function TreeHash(h: NodeHash, leaves: seq<Id>, k: nat): Id
    requires |leaves| == Pow2(k)
  {
    if k == 0 then leaves[0]
    else h(TreeHash(h, leaves[..Pow2(k - 1)], k - 1), TreeHash(h, leaves[Pow2(k - 1)..], k - 1))
  }

  ghost predicate AllOfSize(blocks: seq<seq<Id>>, k: nat) {
    forall i | 0 <= i < |blocks| :: |blocks[i]| == Pow2(k)
  }

  ghost function TreeHashes(h: NodeHash, blocks: seq<seq<Id>>, k: nat): (ids: seq<Id>)
    requires AllOfSize(blocks, k)
    ensures |ids| == |blocks|
  {
    seq(|blocks|, i requires 0 <= i < |blocks| => TreeHash(h, blocks[i], k))
  }

  lemma JoinedHashes(h: NodeHash, blocks: seq<seq<Id>>, k: nat)
    requires AllOfSize(blocks, k)
    ensures AllOfSize(Joined(blocks), k + 1)
    ensures TreeHashes(h, Joined(blocks), k + 1) == Level(h, TreeHashes(h, blocks, k))
  {
    var up := Joined(blocks);
    forall i | 0 <= i < |up|
      ensures |up[i]| == Pow2(k + 1)
      ensures TreeHash(h, up[i], k + 1) == Level(h, TreeHashes(h, blocks, k))[i]
    {
      var left := blocks[2 * i];
      var right := if 2 * i + 1 < |blocks| then blocks[2 * i + 1] else blocks[2 * i];
      assert up[i] == left + right;
      assert up[i][..Pow2(k)] == left && up[i][Pow2(k)..] == right;
    }
  }

  lemma {:induction false} RootIsTreeHash(h: NodeHash, blocks: seq<seq<Id>>, k: nat)
    requires blocks != [] && AllOfSize(blocks, k)
    ensures |Full(blocks)| == Pow2(k + Halvings(|blocks|))
    ensures Root(h, TreeHashes(h, blocks, k)) == TreeHash(h, Full(blocks), k + Halvings(|blocks|))
    decreases |blocks|
  {
    hide *;
    if |blocks| > 1 {
      OneLevelUp(h, blocks, TreeHashes(h, blocks, k));
      JoinedHashes(h, blocks, k);
      RootIsTreeHash(h, Joined(blocks), k + 1);
      assert k + 1 + Halvings(|Joined(blocks)|) == k + Halvings(|blocks|);
    } else {
      OneTree(h, blocks, k);
    }
  }

  lemma OneLevelUp(h: NodeHash, blocks: seq<seq<Id>>, ids: seq<Id>)
    requires |blocks| > 1 && |ids| == |blocks|
    ensures Full(blocks) == Full(Joined(blocks)) && Root(h, ids) == Root(h, Level(h, ids))
    ensures Halvings(|blocks|) == 1 + Halvings(|Joined(blocks)|)
  {
  }

  lemma OneTree(h: NodeHash, blocks: seq<seq<Id>>, k: nat)
    requires |blocks| == 1 && AllOfSize(blocks, k)
    ensures Halvings(|blocks|) == 0 && Full(blocks) == blocks[0] && |blocks[0]| == Pow2(k)
    ensures Root(h, TreeHashes(h, blocks, k)) == TreeHash(h, blocks[0], k)
  {
    hide TreeHash, Pow2;
  }

  lemma PaddedRoot(h: NodeHash, ids: seq<Id>)
    requires ids != []
    ensures |Padded(ids)| == Pow2(Halvings(|ids|))
    ensures Root(h, ids) == TreeHash(h, Padded(ids), Halvings(|ids|))
  {
    hide Full, Root, Halvings;
    var blocks := seq(|ids|, i requires 0 <= i < |ids| => [ids[i]]);
    assert Pow2(0) == 1;
    assert TreeHashes(h, blocks, 0) == ids;
    hide TreeHash, TreeHashes, Pow2;
    RootIsTreeHash(h, blocks, 0);
  }

  lemma {:induction false} TreeHashBinds(h: NodeHash, a: seq<Id>, b: seq<Id>, k: nat)
    requires Injective(h) && |a| == |b| == Pow2(k) && TreeHash(h, a, k) == TreeHash(h, b, k)
    ensures a == b
  {
    if k > 0 {
      var n := Pow2(k - 1);
      TreeHashBinds(h, a[..n], b[..n], k - 1);
      TreeHashBinds(h, a[n..], b[n..], k - 1);
      assert a == a[..n] + a[n..] && b == b[..n] + b[n..];
    }
  }

  lemma SameHeight(j: nat, k: nat)
    requires Pow2(j) == Pow2(k)
    ensures j == k
  {
    hide Pow2;
    if j < k {
      Pow2Strict(j, k);
    } else if k < j {
      Pow2Strict(k, j);
    }
  }

  /** Exactly which lists of transaction ids share a root: those with the same leaves once every
      repetition is written out. */
  lemma SameRootIff(h: NodeHash, xs: seq<Id>, ys: seq<Id>)
    requires Injective(h) && xs != [] && ys != []
    requires AllLeaves(h, xs) && AllLeaves(h, ys)
    ensures Root(h, xs) == Root(h, ys) <==> Padded(xs) == Padded(ys)
  {
    hide *;
    PaddedRoot(h, xs);
    PaddedRoot(h, ys);
    if Root(h, xs) == Root(h, ys) {
      LeavesAtZero(h, xs);
      LeavesAtZero(h, ys);
      RootHeight(h, xs, 0);
      RootHeight(h, ys, 0);
      HeightIsUnique(h, Root(h, xs), Halvings(|xs|), Halvings(|ys|));
      TreeHashBinds(h, Padded(xs), Padded(ys), Halvings(|xs|));
    }
    if Padded(xs) == Padded(ys) {
      SameHeight(Halvings(|xs|), Halvings(|ys|));
    }
  }

  /** Binding: without duplicate ids the root determines the list, length included. */
  lemma RootBinds(h: NodeHash, xs: seq<Id>, ys: seq<Id>)
    requires Injective(h) && xs != [] && ys != []
    requires AllLeaves(h, xs) && AllLeaves(h, ys)
    requires Distinct(xs) && Distinct(ys)
    ensures Root(h, xs) == Root(h, ys) <==> xs == ys
  {
    if Root(h, xs) == Root(h, ys) {
      if |xs| <= |ys| {
        CollisionsRepeat(h, xs, ys);
      } else {
        CollisionsRepeat(h, ys, xs);
      }
    }
  }

  /** Without the duplicate-id check the root does not bind: repeating the last of three ids
      changes the list and keeps the root, whatever the hash. */
  lemma DuplicateLastCollides(h: NodeHash, a: Id, b: Id, c: Id)
    ensures Root(h, [a, b, c]) == Root(h, [a, b, c, c])
    ensures [a, b, c] != [a, b, c, c]
  {
    assert Level(h, [a, b, c]) == [h(a, b), h(c, c)];
    assert Level(h, [a, b, c, c]) == [h(a, b), h(c, c)];
    assert |[a, b, c]| != |[a, b, c, c]|;
  }

  // ----- The algorithm -----

  datatype Node = Node(value: Id, children: seq<Node>)

  ghost function Values(nodes: seq<Node>): (vs: seq<Id>)
    ensures |vs| == |nodes|
  {
    seq(|nodes|, i requires 0 <= i < |nodes| => nodes[i].value)
  }

  /** The list repeated at its last element up to a length. */
  ghost function PadTo(nodes: seq<Node>, size: nat): (r: seq<Node>)
    requires 0 < |nodes| <= size
    ensures |r| == size
    decreases size - |nodes|
  {
    if |nodes| == size then nodes else PadTo(nodes + [nodes[|nodes| - 1]], size)
  }

  ghost function Chunks(nodes: seq<Node>, size: nat): (r: seq<seq<Node>>)
    requires size > 0
    ensures forall i | 0 <= i < |r| :: |r[i]| == size
    decreases |nodes|
  {
    if nodes == [] then []
    else if |nodes| <= size then [PadTo(nodes, size)]
    else [nodes[..size]] + Chunks(nodes[size..], size)
  }

  lemma FirstChunk(chunk: seq<Node>, rest: seq<Node>, size: nat)
    requires 0 < size == |chunk|
    ensures Chunks(chunk + rest, size) == [chunk] + Chunks(rest, size)
  {
    if rest == [] {
      assert chunk + rest == chunk;
    } else {
      assert (chunk + rest)[..size] == chunk && (chunk + rest)[size..] == rest;
    }
  }

  /** Groups of `size` consecutive nodes; a last incomplete group repeats its last node. */
  method Chunk(nodes: seq<Node>, size: nat) returns (chunks: seq<seq<Node>>)
    requires size > 0
    ensures chunks == Chunks(nodes, size)
  {
    chunks := [];
    var chunk: seq<Node> := [];
    assert chunk + nodes[0..] == nodes;
    for k := 0 to |nodes|
      invariant |chunk| < size
      invariant chunks + Chunks(chunk + nodes[k..], size) == Chunks(nodes, size)
    {
      assert chunk + nodes[k..] == (chunk + [nodes[k]]) + nodes[k + 1..];
      chunk := chunk + [nodes[k]];
      if |chunk| == size {
        FirstChunk(chunk, nodes[k + 1..], size);
        chunks := chunks + [chunk];
        chunk := [];
        assert chunk + nodes[k + 1..] == nodes[k + 1..];
      }
    }
    assert chunk + nodes[|nodes|..] == chunk;
    if chunk != [] {
      ghost var was := chunk;
      while |chunk| != size
        invariant 0 < |chunk| <= size
        invariant PadTo(chunk, size) == PadTo(was, size)
      {
        chunk := chunk + [chunk[|chunk| - 1]];
      }
      chunks := chunks + [chunk];
    }
  }

  lemma {:induction false} ChunksArePairs(nodes: seq<Node>)
    ensures |Chunks(nodes, 2)| == (|nodes| + 1) / 2
    ensures forall i | 0 <= i < |Chunks(nodes, 2)| ::
              Chunks(nodes, 2)[i] == [nodes[2 * i], if 2 * i + 1 < |nodes| then nodes[2 * i + 1] else nodes[2 * i]]
    decreases |nodes|
  {
    if |nodes| == 1 {
      assert PadTo(nodes, 2) == PadTo(nodes + [nodes[0]], 2) == nodes + [nodes[0]];
    } else if |nodes| > 2 {
      ChunksArePairs(nodes[2..]);
      var rest := Chunks(nodes[2..], 2);
      forall i | 0 <= i < |Chunks(nodes, 2)|
        ensures Chunks(nodes, 2)[i] == [nodes[2 * i], if 2 * i + 1 < |nodes| then nodes[2 * i + 1] else nodes[2 * i]]
      {
        if i > 0 {
          assert Chunks(nodes, 2)[i] == rest[i - 1];
        }
      }
    }
  }

  /** Each level has half as many nodes as the one below, rounding up, so the recursion ends. */
  method FindRoot(h: NodeHash, nodes: seq<Node>) returns (root: Option<Node>)
    ensures root.None? <==> nodes == []
    ensures root.Some? ==> root.value.value == Root(h, Values(nodes))
    decreases |nodes|
  {
    if nodes == [] {
      return None;
    }
    if |nodes| == 1 {
      return Some(nodes[0]);
    }
    var chunks: seq<seq<Node>> := Chunk(nodes, 2);
    ChunksArePairs(nodes);
    var newLevel: seq<Node> := [];
    for i := 0 to |chunks|
      invariant |newLevel| == i
      invariant forall j | 0 <= j < i :: newLevel[j].value == h(chunks[j][0].value, chunks[j][1].value)
    {
      newLevel := newLevel + [Node(h(chunks[i][0].value, chunks[i][1].value), chunks[i])];
    }
    assert Values(newLevel) == Level(h, Values(nodes));
    if |newLevel| > 1 {
      root := FindRoot(h, newLevel);
    } else {
      root := Some(newLevel[0]);
    }
  }

  ghost function TxIds(txs: seq<Tx>): (ids: seq<Id>)
    ensures |ids| == |txs|
  {
    seq(|txs|, i requires 0 <= i < |txs| => txs[i].id)
  }

  method GetRootOfTxs(h: NodeHash, txs: seq<Tx>) returns (root: Option<Node>)
    ensures root.None? <==> txs == []
    ensures root.Some? ==> root.value.value == Root(h, TxIds(txs))
  {
    var nodes: seq<Node> := [];
    for i := 0 to |txs|
      invariant |nodes| == i
      invariant forall j | 0 <= j < i :: nodes[j].value == txs[j].id
    {
      nodes := nodes + [Node(txs[i].id, [])];
    }
    assert Values(nodes) == TxIds(txs);
    root := FindRoot(h, nodes);
  }
}
