/** Loading the chain file: what was saved comes back. */
module Persistence {
  import opened Types
  import opened Bytes
  import opened Wire
  import opened TxRules
  import opened Ledger
  import opened ChainSpec
  import opened Branches
  import opened Chain
  import Serialization

  function BlockEncoder(codec: Codec): Block -> seq<Byte> {
    (b: Block) => EncodeBlock(codec, b)
  }

  function BlockReader(codec: Codec): (seq<Byte>, nat) -> Parsed<Block> {
    (buf: seq<Byte>, pos: nat) => ReadBlock(codec, buf, pos)
  }

  /** The block count, then as many blocks. */
  function ReadFile(codec: Codec, file: seq<Byte>): Parsed<seq<Block>> {
    ReadList(BlockReader(codec), file, 0)
  }

  lemma BlocksInvert(codec: Codec, blocks: seq<Block>)
    requires CodecOk(codec) && forall i | 0 <= i < |blocks| :: BlockFits(codec, blocks[i])
    ensures forall i | 0 <= i < |blocks| :: Inverse(BlockEncoder(codec), BlockReader(codec), blocks[i])
  {
    hide CodecOk, At, EncodeBlock, ReadBlock, BlockFits;
    forall i, buf: seq<Byte>, pos: nat | 0 <= i < |blocks| && At(buf, pos, BlockEncoder(codec)(blocks[i]))
      ensures BlockReader(codec)(buf, pos) == Parsed(Some(blocks[i]), pos + |BlockEncoder(codec)(blocks[i])|)
    {
      BlockRoundTrip(codec, buf, pos, blocks[i]);
    }
  }

  lemma {:induction false} BlocksAreEncoded(codec: Codec, rules: Rules, blocks: seq<Block>)
    requires forall b :: rules.blockBytes(b) == EncodeBlock(codec, b)
    ensures Blocks(rules, blocks) == EncodeAll(BlockEncoder(codec), blocks)
  {
    if blocks != [] {
      var n := |blocks| - 1;
      BlocksAreEncoded(codec, rules, blocks[..n]);
      hide EncodeBlock;
      Serialization.EncodeAllNext(BlockEncoder(codec), blocks, n);
      assert blocks[..n + 1] == blocks;
    }
  }

  lemma SmallCount(n: nat)
    requires n <= MAX_UINT32
    ensures LittleEndian(n, 4) == EncodeInt(n, 4)
  {
    hide LittleEndian;
    assert Power(4) == 0x1_0000_0000;
  }

  lemma ValidatedStart(setup: Setup, known: iset<Block>, chain: seq<Block>)
    requires Validated(setup, known, chain)
    ensures |setup.base| <= |chain| && chain[..|setup.base|] == setup.base
  {
  }

  /** The bytes of a saved chain parse to its blocks, and a freshly started node can connect them
      one after the other: loading restores the chain. */
  lemma SavedChainReloads(codec: Codec, setup: Setup, known: iset<Block>, chain: seq<Block>, now: int)
    requires CodecOk(codec) && forall b :: setup.rules.blockBytes(b) == EncodeBlock(codec, b)
    requires Validated(setup, known, chain) && |setup.base| == 1 && |chain| <= MAX_UINT32
    requires TimesWithin(chain, |setup.base|, now) && DistinctBlocks(chain)
    requires chain != [] ==> |FullFile(setup.rules, chain)| <= MAX_UINT32
    requires forall i | 0 <= i < |chain| :: BlockFits(codec, chain[i])
    ensures chain != []
    ensures ReadFile(codec, FullFile(setup.rules, chain)) == Parsed(Some(chain[1..]), |FullFile(setup.rules, chain)|)
    ensures BranchConnects(setup, setup.base, chain[1..], now) && setup.base + chain[1..] == chain
  {
    hide *;
    ValidatedStart(setup, known, chain);
    FileParses(codec, setup.rules, chain);
    var tail := chain[1..];
    assert chain == chain[..1] + tail;
    forall i | 0 <= i < |tail|
      ensures Joins(setup, setup.base + tail[..i], tail[i], now)
    {
      Rejoins(setup, known, chain, now, i + 1);
      assert setup.base + tail[..i] == chain[..i + 1] && tail[i] == chain[i + 1];
    }
    BranchHolds(setup, setup.base, tail, now);
  }

  lemma FileParses(codec: Codec, rules: Rules, chain: seq<Block>)
    requires CodecOk(codec) && forall b :: rules.blockBytes(b) == EncodeBlock(codec, b)
    requires 1 <= |chain| <= MAX_UINT32 && |FullFile(rules, chain)| <= MAX_UINT32
    requires forall i | 0 <= i < |chain| :: BlockFits(codec, chain[i])
    ensures ReadFile(codec, FullFile(rules, chain)) == Parsed(Some(chain[1..]), |FullFile(rules, chain)|)
  {
    hide *;
    var tail, file := chain[1..], FullFile(rules, chain);
    FirstSave(rules, chain);
    BlocksAreEncoded(codec, rules, tail);
    SmallCount(|tail|);
    BlocksInvert(codec, tail);
    ListIs(BlockEncoder(codec), tail, file);
    ListRoundTrip(BlockEncoder(codec), BlockReader(codec), tail, file, 0);
    FileIsList(codec, file);
  }

  lemma ListIs<T>(encode: T -> seq<Byte>, xs: seq<T>, file: seq<Byte>)
    requires |file| <= MAX_UINT32 && file == EncodeInt(|xs|, 4) + EncodeAll(encode, xs)
    ensures file == EncodeList(encode, xs) && At(file, 0, EncodeList(encode, xs))
  {
    hide EncodeInt, EncodeAll;
    assert file[0..|file|] == file;
  }

  lemma FileIsList(codec: Codec, file: seq<Byte>)
    ensures ReadFile(codec, file) == ReadList(BlockReader(codec), file, 0)
  {
  }

  /** load_from_disk, on a node that has just started. It fails if the file cannot be read, does not
      parse, or holds a block that does not join the active chain. */
  method LoadFromDisk(node: Node, codec: Codec, canRead: bool) returns (ok: bool)
    requires node.Valid() && node.activeChain == node.setup.base && node.activeChain != []
    requires node.sideBranches == [] && node.orphanBlocks == [] && node.lastSavedHeight == 0
    requires var blocks := ReadFile(codec, node.file).value;
             blocks.Some? ==> forall i | 0 <= i < |blocks.value| :: blocks.value[i] in node.known
    modifies node
    ensures node.file == old(node.file) && node.clock == old(node.clock)
    ensures ok <==>
              var blocks := ReadFile(codec, node.file).value;
              canRead && blocks.Some? && BranchConnects(node.setup, node.setup.base, blocks.value, node.clock)
    ensures ok ==> node.activeChain == node.setup.base + ReadFile(codec, node.file).value.value
    ensures ok ==> node.lastSavedHeight == |node.activeChain| - 1
    ensures !ok ==> node.activeChain == node.setup.base && node.sideBranches == [] && node.lastSavedHeight == 0
    ensures !ok || node.file == FullFile(node.setup.rules, node.activeChain) ==> node.Valid()
  {
    hide World, Validated, SidesOk, OrphansOk, TimesWithin, Fold, IndexOf, DistinctBlocks, ReadFile, BranchConnects,
         FullFile;
    if !canRead {
      return false;
    }
    var blocks := ReadFile(codec, node.file).value;
    if blocks.None? {
      return false;
    }
    ok := node.ConnectLoaded(blocks.value);
    if ok {
      assert node.activeChain[..|node.activeChain|] == node.activeChain;
      node.lastSavedHeight := |node.activeChain| - 1;
    }
  }
}
