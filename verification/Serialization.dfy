/** The serialize and deserialize members of the core types, over a BinaryBuffer. */
module Serialization {
  import opened Types
  import opened Bytes
  import opened Wire

  // ----- Lists -----

  lemma {:induction false} EncodeAllNext<T>(encode: T -> seq<Byte>, xs: seq<T>, i: nat)
    requires i < |xs|
    ensures EncodeAll(encode, xs[..i + 1]) == EncodeAll(encode, xs[..i]) + encode(xs[i])
  {
    if i == 0 {
      assert xs[..1] == [xs[0]] && xs[..0] == [] && [xs[0]][1..] == [];
    } else {
      var tail := xs[1..];
      assert xs[..i + 1][1..] == tail[..i] && xs[..i][1..] == tail[..i - 1];
      EncodeAllNext(encode, tail, i - 1);
    }
  }

  lemma {:induction false} EncodeAllGrows<T>(encode: T -> seq<Byte>, xs: seq<T>, i: nat)
    requires i <= |xs|
    ensures |EncodeAll(encode, xs[..i])| <= |EncodeAll(encode, xs)|
    ensures i < |xs| ==> |EncodeAll(encode, xs[..i])| + |encode(xs[i])| <= |EncodeAll(encode, xs)|
    decreases |xs| - i
  {
    if i == |xs| {
      assert xs[..i] == xs;
    } else {
      EncodeAllNext(encode, xs, i);
      EncodeAllGrows(encode, xs, i + 1);
    }
  }

  ghost function Continue<T>(done: seq<T>, rest: Parsed<seq<T>>): Parsed<seq<T>> {
    if rest.value.None? then rest else Parsed(Some(done + rest.value.value), rest.pos)
  }

  lemma ContinueNothing<T>(rest: Parsed<seq<T>>)
    ensures Continue([], rest) == rest
  {
    if rest.value.Some? {
      assert [] + rest.value.value == rest.value.value;
    }
  }

  // ----- Outpoints, inputs, outputs -----

  method SerializeOutPoint(codec: Codec, p: OutPoint) returns (b: BinaryBuffer)
    requires |EncodeOutPoint(codec, p)| <= MAX_UINT32
    ensures fresh(b) && b.Valid() && b.buffer == EncodeOutPoint(codec, p) && b.writeOffset == |b.buffer|
  {
    b := new BinaryBuffer([]);
    b.WriteString(codec.text(p.txId));
    b.WriteInt(p.idx, 8);
  }

  method DeserializeOutPoint(codec: Codec, b: BinaryBuffer) returns (r: Option<OutPoint>)
    modifies b`readOffset
    ensures Parsed(r, b.readOffset) == ReadOutPoint(codec, b.buffer, old(b.readOffset))
  {
    var txId := b.ReadText();
    if txId.None? {
      return None;
    }
    var idx := b.ReadSigned(8);
    if idx.None? {
      return None;
    }
    r := Some(OutPoint(codec.idOf(txId.value), idx.value));
  }

  method SerializeTxIn(codec: Codec, txIn: TxIn) returns (b: BinaryBuffer)
    requires |EncodeTxIn(codec, txIn)| <= MAX_UINT32
    ensures fresh(b) && b.Valid() && b.buffer == EncodeTxIn(codec, txIn) && b.writeOffset == |b.buffer|
  {
    hide EncodeOutPoint, EncodeInt;
    TxInPieces(codec, txIn);
    b := new BinaryBuffer([]);
    if txIn.toSpend.None? {
      b.Write([0]);
    } else {
      b.Write([1]);
      var p := SerializeOutPoint(codec, txIn.toSpend.value);
      b.Write(p.buffer);
    }
    b.WriteString(txIn.unlockSig);
    b.WriteString(txIn.unlockPubKey);
    b.WriteInt(txIn.sequence, 4);
  }

  /** The pieces of an input in the order they are written. */
  lemma TxInPieces(codec: Codec, txIn: TxIn)
    ensures EncodeTxIn(codec, txIn) ==
            (((if txIn.toSpend.None? then [] + [0] else [] + [1] + EncodeOutPoint(codec, txIn.toSpend.value)) +
              EncodeString(txIn.unlockSig)) + EncodeString(txIn.unlockPubKey)) + EncodeInt(txIn.sequence, 4)
    ensures |EncodeInt(txIn.sequence, 4)| == 4 && |EncodeString(txIn.unlockSig)| == 4 + |txIn.unlockSig|
    ensures |EncodeString(txIn.unlockPubKey)| == 4 + |txIn.unlockPubKey|
  {
    hide EncodeOutPoint;
  }

  method DeserializeTxIn(codec: Codec, b: BinaryBuffer) returns (r: Option<TxIn>)
    modifies b`readOffset
    ensures Parsed(r, b.readOffset) == ReadTxIn(codec, b.buffer, old(b.readOffset))
  {
    hide ReadOutPoint, ReadUInt, ReadInt, ReadString, Power;
    var flag := b.ReadUnsigned(1);
    if flag.None? {
      return None;
    }
    var toSpend: Option<OutPoint> := None;
    if flag.value != 0 {
      toSpend := DeserializeOutPoint(codec, b);
      if toSpend.None? {
        return None;
      }
    }
    var sig := b.ReadText();
    if sig.None? {
      return None;
    }
    var pubKey := b.ReadText();
    if pubKey.None? {
      return None;
    }
    IntFits(b.buffer, b.readOffset, 4);
    var sequence := b.ReadSigned(4);
    if sequence.None? {
      return None;
    }
    r := Some(TxIn(toSpend, sig.value, pubKey.value, sequence.value));
  }

  method SerializeTxOut(txOut: TxOut) returns (b: BinaryBuffer)
    requires |EncodeTxOut(txOut)| <= MAX_UINT32
    ensures fresh(b) && b.Valid() && b.buffer == EncodeTxOut(txOut) && b.writeOffset == |b.buffer|
  {
    b := new BinaryBuffer([]);
    b.WriteInt(txOut.value, 8);
    b.WriteString(txOut.toAddress);
  }

  method DeserializeTxOut(b: BinaryBuffer) returns (r: Option<TxOut>)
    modifies b`readOffset
    ensures Parsed(r, b.readOffset) == ReadTxOut(b.buffer, old(b.readOffset))
  {
    hide ReadUInt, ReadString, Power;
    UIntFits(b.buffer, b.readOffset, 8);
    var value := b.ReadUnsigned(8);
    if value.None? {
      return None;
    }
    var address := b.ReadText();
    if address.None? {
      return None;
    }
    r := Some(TxOut(value.value, address.value));
  }

  // ----- Transactions -----

  method WriteTxIns(codec: Codec, b: BinaryBuffer, ins: seq<TxIn>)
    requires b.Valid() && b.writeOffset == |b.buffer|
    requires |b.buffer| + |EncodeList(TxInEncoder(codec), ins)| <= MAX_UINT32
    modifies b
    ensures b.Valid() && b.writeOffset == |b.buffer|
    ensures b.buffer == old(b.buffer) + EncodeList(TxInEncoder(codec), ins)
  {
    hide EncodeTxIn, EncodeInt;
    var encode := TxInEncoder(codec);
    IntLength(|ins|, 4);
    b.WriteInt(|ins|, 4);
    ghost var start := b.buffer;
    assert ins[..0] == [];
    for i := 0 to |ins|
      invariant b.Valid() && b.writeOffset == |b.buffer|
      invariant b.buffer == start + EncodeAll(encode, ins[..i])
    {
      EncodeAllGrows(encode, ins, i);
      EncodeAllNext(encode, ins, i);
      assert encode(ins[i]) == EncodeTxIn(codec, ins[i]);
      var txIn := SerializeTxIn(codec, ins[i]);
      b.Write(txIn.buffer);
    }
    assert ins[..|ins|] == ins;
  }

  method WriteTxOuts(b: BinaryBuffer, outs: seq<TxOut>)
    requires b.Valid() && b.writeOffset == |b.buffer|
    requires |b.buffer| + |EncodeList(TxOutEncoder(), outs)| <= MAX_UINT32
    modifies b
    ensures b.Valid() && b.writeOffset == |b.buffer|
    ensures b.buffer == old(b.buffer) + EncodeList(TxOutEncoder(), outs)
  {
    hide EncodeTxOut, EncodeInt;
    var encode := TxOutEncoder();
    IntLength(|outs|, 4);
    b.WriteInt(|outs|, 4);
    ghost var start := b.buffer;
    assert outs[..0] == [];
    for i := 0 to |outs|
      invariant b.Valid() && b.writeOffset == |b.buffer|
      invariant b.buffer == start + EncodeAll(encode, outs[..i])
    {
      EncodeAllGrows(encode, outs, i);
      EncodeAllNext(encode, outs, i);
      assert encode(outs[i]) == EncodeTxOut(outs[i]);
      var txOut := SerializeTxOut(outs[i]);
      b.Write(txOut.buffer);
    }
    assert outs[..|outs|] == outs;
  }

  method SerializeTx(codec: Codec, tx: Tx) returns (b: BinaryBuffer)
    requires |EncodeTx(codec, tx)| <= MAX_UINT32
    ensures fresh(b) && b.Valid() && b.buffer == EncodeTx(codec, tx) && b.writeOffset == |b.buffer|
  {
    hide EncodeList, EncodeInt;
    IntLength(tx.lockTime, 8);
    b := new BinaryBuffer([]);
    WriteTxIns(codec, b, tx.ins);
    WriteTxOuts(b, tx.outs);
    b.WriteInt(tx.lockTime, 8);
  }

  method DeserializeTxIns(codec: Codec, b: BinaryBuffer) returns (r: Option<seq<TxIn>>)
    modifies b`readOffset
    ensures Parsed(r, b.readOffset) == ReadList(TxInReader(codec), b.buffer, old(b.readOffset))
  {
    hide ReadUInt, ReadTxIn;
    var read := TxInReader(codec);
    var size := b.ReadUnsigned(4);
    if size.None? {
      return None;
    }
    ghost var whole := ReadAll(read, b.buffer, b.readOffset, size.value);
    var ins: seq<TxIn> := [];
    ContinueNothing(whole);
    for i := 0 to size.value
      invariant Continue(ins, ReadAll(read, b.buffer, b.readOffset, size.value - i)) == whole
    {
      assert read(b.buffer, b.readOffset) == ReadTxIn(codec, b.buffer, b.readOffset);
      var txIn := DeserializeTxIn(codec, b);
      if txIn.None? {
        return None;
      }
      ghost var rest := ReadAll(read, b.buffer, b.readOffset, size.value - i - 1);
      if rest.value.Some? {
        assert ins + ([txIn.value] + rest.value.value) == (ins + [txIn.value]) + rest.value.value;
      }
      ins := ins + [txIn.value];
    }
    assert ins + [] == ins;
    r := Some(ins);
  }

  method DeserializeTxOuts(b: BinaryBuffer) returns (r: Option<seq<TxOut>>)
    modifies b`readOffset
    ensures Parsed(r, b.readOffset) == ReadList(TxOutReader(), b.buffer, old(b.readOffset))
  {
    hide ReadUInt, ReadTxOut;
    var read := TxOutReader();
    var size := b.ReadUnsigned(4);
    if size.None? {
      return None;
    }
    ghost var whole := ReadAll(read, b.buffer, b.readOffset, size.value);
    var outs: seq<TxOut> := [];
    ContinueNothing(whole);
    for i := 0 to size.value
      invariant Continue(outs, ReadAll(read, b.buffer, b.readOffset, size.value - i)) == whole
    {
      assert read(b.buffer, b.readOffset) == ReadTxOut(b.buffer, b.readOffset);
      var txOut := DeserializeTxOut(b);
      if txOut.None? {
        return None;
      }
      ghost var rest := ReadAll(read, b.buffer, b.readOffset, size.value - i - 1);
      if rest.value.Some? {
        assert outs + ([txOut.value] + rest.value.value) == (outs + [txOut.value]) + rest.value.value;
      }
      outs := outs + [txOut.value];
    }
    assert outs + [] == outs;
    r := Some(outs);
  }

  method DeserializeTx(codec: Codec, b: BinaryBuffer) returns (r: Option<Tx>)
    modifies b`readOffset
    ensures Parsed(r, b.readOffset) == ReadTx(codec, b.buffer, old(b.readOffset))
  {
    hide ReadList, ReadInt, Power, EncodeTx, TxInReader, TxOutReader;
    var ins := DeserializeTxIns(codec, b);
    if ins.None? {
      return None;
    }
    var outs := DeserializeTxOuts(b);
    if outs.None? {
      return None;
    }
    IntFits(b.buffer, b.readOffset, 8);
    var lockTime := b.ReadSigned(8);
    if lockTime.None? {
      return None;
    }
    r := Some(WithId(codec, Tx(codec.hash([]), ins.value, outs.value, lockTime.value)));
  }

  // ----- Blocks -----

  method SerializeHeader(codec: Codec, block: Block) returns (b: BinaryBuffer)
    requires |Header(codec, block)| <= MAX_UINT32
    ensures fresh(b) && b.Valid() && b.buffer == Header(codec, block) && b.writeOffset == |b.buffer|
  {
    HeaderPieces(codec, block);
    hide EncodeInt, Header, HeaderPrefix;
    b := new BinaryBuffer([]);
    b.WriteInt(block.version, 8);
    b.WriteString(if block.prev.None? then [] else codec.text(block.prev.value));
    b.WriteString(if block.merkle.None? then [] else codec.text(block.merkle.value));
    b.WriteInt(block.timestamp, 8);
    b.WriteInt(block.bits, 1);
    b.WriteInt(block.nonce, 8);
  }

  lemma HeaderPieces(codec: Codec, b: Block)
    ensures Header(codec, b) ==
            [] + EncodeInt(b.version, 8) + EncodeHash(codec, b.prev) + EncodeHash(codec, b.merkle) +
            EncodeInt(b.timestamp, 8) + EncodeInt(b.bits, 1) + EncodeInt(b.nonce, 8)
    ensures |EncodeInt(b.version, 8)| == |EncodeInt(b.timestamp, 8)| == |EncodeInt(b.nonce, 8)| == 8
    ensures |EncodeInt(b.bits, 1)| == 1
    ensures |EncodeHash(codec, b.prev)| == 4 + if b.prev.None? then 0 else |codec.text(b.prev.value)|
    ensures |EncodeHash(codec, b.merkle)| == 4 + if b.merkle.None? then 0 else |codec.text(b.merkle.value)|
  {
  }

  method SerializeBlock(codec: Codec, block: Block) returns (b: BinaryBuffer)
    requires |EncodeBlock(codec, block)| <= MAX_UINT32
    ensures fresh(b) && b.Valid() && b.buffer == EncodeBlock(codec, block) && b.writeOffset == |b.buffer|
  {
    hide EncodeTx, EncodeInt, Header;
    var encode := TxEncoder(codec);
    IntLength(|block.txs|, 4);
    b := SerializeHeader(codec, block);
    b.WriteInt(|block.txs|, 4);
    ghost var start := b.buffer;
    assert block.txs[..0] == [];
    for i := 0 to |block.txs|
      invariant fresh(b) && b.Valid() && b.writeOffset == |b.buffer|
      invariant b.buffer == start + EncodeAll(encode, block.txs[..i])
    {
      EncodeAllGrows(encode, block.txs, i);
      EncodeAllNext(encode, block.txs, i);
      assert encode(block.txs[i]) == EncodeTx(codec, block.txs[i]);
      var tx := SerializeTx(codec, block.txs[i]);
      b.Write(tx.buffer);
    }
    assert block.txs[..|block.txs|] == block.txs;
  }

  method DeserializeHeader(codec: Codec, b: BinaryBuffer) returns (r: Option<HeaderFields>)
    modifies b`readOffset
    ensures Parsed(r, b.readOffset) == ReadHeader(codec, b.buffer, old(b.readOffset))
  {
    hide ReadUInt, ReadInt, ReadString, Power;
    UIntFits(b.buffer, b.readOffset, 8);
    var version := b.ReadUnsigned(8);
    if version.None? {
      return None;
    }
    var prev := DeserializeHash(codec, b);
    if prev.None? {
      return None;
    }
    var merkle := DeserializeHash(codec, b);
    if merkle.None? {
      return None;
    }
    IntFits(b.buffer, b.readOffset, 8);
    var timestamp := b.ReadSigned(8);
    if timestamp.None? {
      return None;
    }
    UIntFits(b.buffer, b.readOffset, 1);
    var bits := b.ReadUnsigned(1);
    if bits.None? {
      return None;
    }
    UIntFits(b.buffer, b.readOffset, 8);
    var nonce := b.ReadUnsigned(8);
    if nonce.None? {
      return None;
    }
    r := Some(HeaderFields(version.value, prev.value, merkle.value, timestamp.value, bits.value, nonce.value));
  }

  method DeserializeHash(codec: Codec, b: BinaryBuffer) returns (r: Option<Option<Id>>)
    modifies b`readOffset
    ensures Parsed(r, b.readOffset) == ReadHash(codec, b.buffer, old(b.readOffset))
  {
    hide ReadString;
    var s := b.ReadText();
    if s.None? {
      return None;
    }
    r := Some(if s.value == [] then None else Some(codec.idOf(s.value)));
  }

  /** Every read is checked, so any byte string is parsed or refused, never read past its end. */
  method DeserializeBlock(codec: Codec, b: BinaryBuffer) returns (r: Option<Block>)
    modifies b`readOffset
    ensures Parsed(r, b.readOffset) == ReadBlock(codec, b.buffer, old(b.readOffset))
  {
    hide ReadHeader, ReadUInt, ReadTx, BlockOf;
    var header := DeserializeHeader(codec, b);
    if header.None? {
      return None;
    }
    var read := TxReader(codec);
    var size := b.ReadUnsigned(4);
    if size.None? {
      return None;
    }
    ghost var whole := ReadAll(read, b.buffer, b.readOffset, size.value);
    var txs: seq<Tx> := [];
    ContinueNothing(whole);
    for i := 0 to size.value
      invariant Continue(txs, ReadAll(read, b.buffer, b.readOffset, size.value - i)) == whole
    {
      assert read(b.buffer, b.readOffset) == ReadTx(codec, b.buffer, b.readOffset);
      var tx := DeserializeTx(codec, b);
      if tx.None? {
        return None;
      }
      ghost var rest := ReadAll(read, b.buffer, b.readOffset, size.value - i - 1);
      if rest.value.Some? {
        assert txs + ([tx.value] + rest.value.value) == (txs + [tx.value]) + rest.value.value;
      }
      txs := txs + [tx.value];
    }
    assert txs + [] == txs;
    r := Some(BlockOf(codec, header.value, txs));
  }
}
