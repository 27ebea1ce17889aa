/** The wire format: a growing byte buffer, the serializers, and parsers that undo them. */
module Wire {
  import opened Types
  import opened Bytes

  const MAX_UINT32: nat := 0xFFFF_FFFF

  /** Ids as the strings the node keeps, and the double hash that makes them. */
  datatype Codec = Codec(text: Id -> seq<Byte>, idOf: seq<Byte> -> Id, hash: seq<Byte> -> Id)

  ghost predicate CodecOk(codec: Codec) {
    && (forall id :: codec.idOf(codec.text(id)) == id)
    && (forall s :: codec.text(codec.idOf(s)) == s)
  }

  // ----- Encoders -----

  function EncodeInt(x: int, width: nat): seq<Byte> {
    LittleEndian(x % Power(width), width)
  }

  function EncodeString(s: seq<Byte>): seq<Byte> {
    EncodeInt(|s|, 4) + s
  }

  function EncodeHash(codec: Codec, id: Option<Id>): seq<Byte> {
    EncodeString(if id.None? then [] else codec.text(id.value))
  }

  function EncodeOutPoint(codec: Codec, p: OutPoint): seq<Byte> {
    EncodeString(codec.text(p.txId)) + EncodeInt(p.idx, 8)
  }

  function EncodeTxIn(codec: Codec, txIn: TxIn): seq<Byte> {
    (if txIn.toSpend.None? then [0] else [1] + EncodeOutPoint(codec, txIn.toSpend.value)) +
    (EncodeString(txIn.unlockSig) + (EncodeString(txIn.unlockPubKey) + EncodeInt(txIn.sequence, 4)))
  }

  function EncodeTxOut(txOut: TxOut): seq<Byte> {
    EncodeInt(txOut.value, 8) + EncodeString(txOut.toAddress)
  }

  function EncodeAll<T>(encode: T -> seq<Byte>, xs: seq<T>): seq<Byte> {
    if xs == [] then [] else encode(xs[0]) + EncodeAll(encode, xs[1..])
  }

  function EncodeList<T>(encode: T -> seq<Byte>, xs: seq<T>): seq<Byte> {
    EncodeInt(|xs|, 4) + EncodeAll(encode, xs)
  }

  function TxInEncoder(codec: Codec): TxIn -> seq<Byte> {
    (txIn: TxIn) => EncodeTxIn(codec, txIn)
  }

  function TxOutEncoder(): TxOut -> seq<Byte> {
    (txOut: TxOut) => EncodeTxOut(txOut)
  }

  function TxEncoder(codec: Codec): Tx -> seq<Byte> {
    (tx: Tx) => EncodeTx(codec, tx)
  }

  /** The id is not part of the encoding; it is the hash of it. */
  function EncodeTx(codec: Codec, tx: Tx): seq<Byte> {
    EncodeList(TxInEncoder(codec), tx.ins) + (EncodeList(TxOutEncoder(), tx.outs) + EncodeInt(tx.lockTime, 8))
  }

  function HeaderPrefix(codec: Codec, b: Block): seq<Byte> {
    EncodeInt(b.version, 8) + (EncodeHash(codec, b.prev) + (EncodeHash(codec, b.merkle) +
    (EncodeInt(b.timestamp, 8) + EncodeInt(b.bits, 1))))
  }

  function Header(codec: Codec, b: Block): seq<Byte> {
    HeaderPrefix(codec, b) + EncodeInt(b.nonce, 8)
  }

  function EncodeBlock(codec: Codec, b: Block): seq<Byte> {
    Header(codec, b) + EncodeList(TxEncoder(codec), b.txs)
  }

  // ----- Where the fields of fixed width stand -----

  lemma IntIs(x: int, width: nat)
    ensures |EncodeInt(x, width)| == width && EncodeInt(x, width) == LittleEndian(x % Power(width), width)
    ensures Power(1) == 0x100 && Power(4) == 0x1_0000_0000 && Power(8) == TWO_64
  {
    Power8();
    assert Power(2) == 0x1_0000 && Power(4) == 256 * Power(3) && Power(3) == 256 * Power(2);
  }

  lemma NatIs(x: UInt64)
    ensures EncodeInt(x, 8) == LittleEndian(x, 8) && |EncodeInt(x, 8)| == 8
  {
    hide Power, LittleEndian;
    Power8();
    assert x % TWO_64 == x;
  }

  lemma ByteIs(x: Byte)
    ensures EncodeInt(x, 1) == [x]
  {
  }

  /** The first byte of an input says whether an outpoint follows, and the sequence number comes last. */
  lemma TxInLayout(codec: Codec, txIn: TxIn)
    ensures var e := EncodeTxIn(codec, txIn);
            && |e| > 4 && e[0] == (if txIn.toSpend.Some? then 1 else 0)
            && e[|e| - 4..] == LittleEndian(txIn.sequence % 0x1_0000_0000, 4)
  {
    hide EncodeInt, EncodeString, EncodeOutPoint, LittleEndian, Power;
    IntIs(txIn.sequence, 4);
  }

  /** An output begins with its value; an outpoint ends with its index, a transaction with its lock time. */
  lemma TxLayout(codec: Codec, txOut: TxOut, p: OutPoint, tx: Tx)
    ensures |EncodeTxOut(txOut)| >= 8 && EncodeTxOut(txOut)[..8] == LittleEndian(txOut.value, 8)
    ensures var e := EncodeOutPoint(codec, p);
            |e| >= 8 && e[|e| - 8..] == LittleEndian(p.idx % TWO_64, 8)
    ensures var e := EncodeTx(codec, tx);
            |e| >= 8 && e[|e| - 8..] == LittleEndian(tx.lockTime % TWO_64, 8)
  {
    hide EncodeInt, EncodeString, EncodeList, LittleEndian, Power;
    NatIs(txOut.value);
    IntIs(p.idx, 8);
    IntIs(tx.lockTime, 8);
  }

  /** A header begins with its version and ends with time, bits and nonce. */
  lemma HeaderLayout(codec: Codec, b: Block)
    ensures var h := Header(codec, b);
            && |h| >= 25 && h[..8] == LittleEndian(b.version, 8)
            && h[|h| - 17..|h| - 9] == LittleEndian(b.timestamp % TWO_64, 8)
            && h[|h| - 9] == b.bits && h[|h| - 8..] == LittleEndian(b.nonce, 8)
  {
    hide EncodeInt, EncodeHash, LittleEndian, Power;
    NatIs(b.version);
    IntIs(b.timestamp, 8);
    ByteIs(b.bits);
    NatIs(b.nonce);
    Slices(EncodeInt(b.version, 8), EncodeHash(codec, b.prev), EncodeHash(codec, b.merkle),
           EncodeInt(b.timestamp, 8), EncodeInt(b.bits, 1), EncodeInt(b.nonce, 8));
  }

  lemma Slices(version: seq<Byte>, prev: seq<Byte>, merkle: seq<Byte>, time: seq<Byte>, bits: seq<Byte>,
               nonce: seq<Byte>)
    requires |version| == |time| == |nonce| == 8 && |bits| == 1
    ensures var h := (version + (prev + (merkle + (time + bits)))) + nonce;
            && |h| >= 25 && h[..8] == version && h[|h| - 17..|h| - 9] == time
            && h[|h| - 9] == bits[0] && h[|h| - 8..] == nonce
  {
    var front := version + prev + merkle;
    var h := (version + (prev + (merkle + (time + bits)))) + nonce;
    assert h == front + (time + bits + nonce);
    assert h[|front|..] == time + bits + nonce;
  }

  // ----- Parsers -----

  /** A parse result: the value, if any, and the read offset afterwards. */
  datatype Parsed<T> = Parsed(value: Option<T>, pos: nat)

  function ReadBytes(buf: seq<Byte>, pos: nat, length: nat): Parsed<seq<Byte>> {
    if pos + length > MAX_UINT32 || |buf| < pos + length then Parsed(None, pos)
    else Parsed(Some(buf[pos..pos + length]), pos + length)
  }

  function ReadUInt(buf: seq<Byte>, pos: nat, width: nat): Parsed<nat> {
    var bytes := ReadBytes(buf, pos, width);
    if bytes.value.None? then Parsed(None, bytes.pos)
    else Parsed(Some(FromLittleEndian(bytes.value.value)), bytes.pos)
  }

  /** Two's complement. */
  function Signed(x: nat, width: nat): int {
    if 2 * x >= Power(width) then x - Power(width) else x
  }

  function ReadInt(buf: seq<Byte>, pos: nat, width: nat): Parsed<int> {
    var x := ReadUInt(buf, pos, width);
    if x.value.None? then Parsed(None, x.pos) else Parsed(Some(Signed(x.value.value, width)), x.pos)
  }

  function ReadString(buf: seq<Byte>, pos: nat): Parsed<seq<Byte>> {
    var size := ReadUInt(buf, pos, 4);
    if size.value.None? then Parsed(None, size.pos) else ReadBytes(buf, size.pos, size.value.value)
  }

  function ReadHash(codec: Codec, buf: seq<Byte>, pos: nat): Parsed<Option<Id>> {
    var s := ReadString(buf, pos);
    if s.value.None? then Parsed(None, s.pos)
    else Parsed(Some(if s.value.value == [] then None else Some(codec.idOf(s.value.value))), s.pos)
  }

  function ReadOutPoint(codec: Codec, buf: seq<Byte>, pos: nat): Parsed<OutPoint> {
    var txId := ReadString(buf, pos);
    if txId.value.None? then Parsed(None, txId.pos)
    else
      var idx := ReadInt(buf, txId.pos, 8);
      if idx.value.None? then Parsed(None, idx.pos)
      else Parsed(Some(OutPoint(codec.idOf(txId.value.value), idx.value.value)), idx.pos)
  }

  /** A flag byte other than zero counts as set. */
  function ReadOptionalOutPoint(codec: Codec, buf: seq<Byte>, pos: nat): Parsed<Option<OutPoint>> {
    var flag := ReadUInt(buf, pos, 1);
    if flag.value.None? then Parsed(None, flag.pos)
    else if flag.value.value == 0 then Parsed(Some(None), flag.pos)
    else
      var p := ReadOutPoint(codec, buf, flag.pos);
      if p.value.None? then Parsed(None, p.pos) else Parsed(Some(Some(p.value.value)), p.pos)
  }

  function ReadTxIn(codec: Codec, buf: seq<Byte>, pos: nat): Parsed<TxIn> {
    var toSpend := ReadOptionalOutPoint(codec, buf, pos);
    if toSpend.value.None? then Parsed(None, toSpend.pos)
    else
      var sig := ReadString(buf, toSpend.pos);
      if sig.value.None? then Parsed(None, sig.pos)
      else
        var pubKey := ReadString(buf, sig.pos);
        if pubKey.value.None? then Parsed(None, pubKey.pos)
        else
          var sequence := ReadInt(buf, pubKey.pos, 4);
          if sequence.value.None? then Parsed(None, sequence.pos)
          else
            IntFits(buf, pubKey.pos, 4);
            Parsed(Some(TxIn(toSpend.value.value, sig.value.value, pubKey.value.value, sequence.value.value)), sequence.pos)
  }

  function ReadTxOut(buf: seq<Byte>, pos: nat): Parsed<TxOut> {
    var value := ReadUInt(buf, pos, 8);
    if value.value.None? then Parsed(None, value.pos)
    else
      var address := ReadString(buf, value.pos);
      if address.value.None? then Parsed(None, address.pos)
      else
        UIntFits(buf, pos, 8);
        Parsed(Some(TxOut(value.value.value, address.value.value)), address.pos)
  }

  function ReadAll<T>(read: (seq<Byte>, nat) -> Parsed<T>, buf: seq<Byte>, pos: nat, n: nat): Parsed<seq<T>>
    decreases n
  {
    if n == 0 then Parsed(Some([]), pos)
    else
      var first := read(buf, pos);
      if first.value.None? then Parsed(None, first.pos)
      else
        var rest := ReadAll(read, buf, first.pos, n - 1);
        if rest.value.None? then rest else Parsed(Some([first.value.value] + rest.value.value), rest.pos)
  }

  function ReadList<T>(read: (seq<Byte>, nat) -> Parsed<T>, buf: seq<Byte>, pos: nat): Parsed<seq<T>> {
    var size := ReadUInt(buf, pos, 4);
    if size.value.None? then Parsed(None, size.pos) else ReadAll(read, buf, size.pos, size.value.value)
  }

  function TxInReader(codec: Codec): (seq<Byte>, nat) -> Parsed<TxIn> {
    (buf: seq<Byte>, pos: nat) => ReadTxIn(codec, buf, pos)
  }

  function TxOutReader(): (seq<Byte>, nat) -> Parsed<TxOut> {
    (buf: seq<Byte>, pos: nat) => ReadTxOut(buf, pos)
  }

  function TxReader(codec: Codec): (seq<Byte>, nat) -> Parsed<Tx> {
    (buf: seq<Byte>, pos: nat) => ReadTx(codec, buf, pos)
  }

  function WithId(codec: Codec, tx: Tx): Tx {
    tx.(id := codec.hash(EncodeTx(codec, tx)))
  }

  function ReadTx(codec: Codec, buf: seq<Byte>, pos: nat): Parsed<Tx> {
    var ins := ReadList(TxInReader(codec), buf, pos);
    if ins.value.None? then Parsed(None, ins.pos)
    else
      var outs := ReadList(TxOutReader(), buf, ins.pos);
      if outs.value.None? then Parsed(None, outs.pos)
      else
        var lockTime := ReadInt(buf, outs.pos, 8);
        if lockTime.value.None? then Parsed(None, lockTime.pos)
        else
          IntFits(buf, outs.pos, 8);
          Parsed(Some(WithId(codec, Tx(codec.hash([]), ins.value.value, outs.value.value, lockTime.value.value))), lockTime.pos)
  }

  lemma UIntFits(buf: seq<Byte>, pos: nat, width: nat)
    ensures ReadUInt(buf, pos, width).value.Some? ==> ReadUInt(buf, pos, width).value.value < Power(width)
    ensures Power(1) == 0x100 && Power(4) == 0x1_0000_0000 && Power(8) == TWO_64
  {
    assert Power(2) == 0x1_0000;
    assert Power(4) == 256 * Power(3) && Power(3) == 256 * Power(2);
    assert Power(6) == 256 * Power(5) && Power(5) == 256 * Power(4);
    assert Power(8) == 256 * Power(7) && Power(7) == 256 * Power(6);
    if ReadUInt(buf, pos, width).value.Some? {
      FromLittleEndianFits(buf[pos..pos + width]);
    }
  }

  lemma IntFits(buf: seq<Byte>, pos: nat, width: nat)
    ensures var x := ReadInt(buf, pos, width);
            x.value.Some? ==> 0 - Power(width) <= 2 * x.value.value < Power(width)
    ensures Power(4) == 0x1_0000_0000 && Power(8) == TWO_64
  {
    UIntFits(buf, pos, width);
  }

  datatype HeaderFields = HeaderFields(version: UInt64, prev: Option<Id>, merkle: Option<Id>,
                                       timestamp: Int64, bits: Byte, nonce: UInt64)

  function ReadHeader(codec: Codec, buf: seq<Byte>, pos: nat): Parsed<HeaderFields> {
    var version := ReadUInt(buf, pos, 8);
    if version.value.None? then Parsed(None, version.pos)
    else
      var prev := ReadHash(codec, buf, version.pos);
      if prev.value.None? then Parsed(None, prev.pos)
      else
        var merkle := ReadHash(codec, buf, prev.pos);
        if merkle.value.None? then Parsed(None, merkle.pos)
        else
          var timestamp := ReadInt(buf, merkle.pos, 8);
          if timestamp.value.None? then Parsed(None, timestamp.pos)
          else
            var bits := ReadUInt(buf, timestamp.pos, 1);
            if bits.value.None? then Parsed(None, bits.pos)
            else
              var nonce := ReadUInt(buf, bits.pos, 8);
              if nonce.value.None? then Parsed(None, nonce.pos)
              else
                UIntFits(buf, pos, 8);
                IntFits(buf, merkle.pos, 8);
                UIntFits(buf, timestamp.pos, 1);
                UIntFits(buf, bits.pos, 8);
                Parsed(Some(HeaderFields(version.value.value, prev.value.value, merkle.value.value,
                                         timestamp.value.value, bits.value.value, nonce.value.value)), nonce.pos)
  }

  function BlockOf(codec: Codec, h: HeaderFields, txs: seq<Tx>): Block {
    var b := Block(codec.hash([]), h.version, h.prev, h.merkle, h.timestamp, h.bits, h.nonce, txs);
    b.(id := codec.hash(Header(codec, b)))
  }

  function ReadBlock(codec: Codec, buf: seq<Byte>, pos: nat): Parsed<Block> {
    var header := ReadHeader(codec, buf, pos);
    if header.value.None? then Parsed(None, header.pos)
    else
      var txs := ReadList(TxReader(codec), buf, header.pos);
      if txs.value.None? then Parsed(None, txs.pos)
      else Parsed(Some(BlockOf(codec, header.value.value, txs.value.value)), txs.pos)
  }

  // ----- Round trips -----

  /** The buffer holds `data` at a position, and offsets into it fit in 32 bits. */
  ghost predicate At(buf: seq<Byte>, pos: nat, data: seq<Byte>) {
    pos + |data| <= MAX_UINT32 && pos + |data| <= |buf| && buf[pos..pos + |data|] == data
  }

  lemma AtParts(buf: seq<Byte>, pos: nat, a: seq<Byte>, b: seq<Byte>)
    requires At(buf, pos, a + b)
    ensures At(buf, pos, a) && At(buf, pos + |a|, b)
  {
    var whole := buf[pos..pos + |a + b|];
    assert whole[..|a|] == a && whole[|a|..] == b;
    assert buf[pos..pos + |a|] == whole[..|a|];
    assert buf[pos + |a|..pos + |a| + |b|] == whole[|a|..];
  }

  lemma UIntRoundTrip(buf: seq<Byte>, pos: nat, x: nat, width: nat)
    requires At(buf, pos, EncodeInt(x, width)) && x < Power(width)
    ensures ReadUInt(buf, pos, width) == Parsed(Some(x), pos + width)
  {
    Remainder(x, Power(width));
    LittleEndianReadsBack(x, width);
  }

  lemma Remainder(x: int, w: nat)
    requires 0 - w <= x < w
    ensures w > 0 && x % w == if x < 0 then x + w else x
  {
    if x < 0 {
      assert (x + w) % w == x + w;
      assert x == w * (-1) + (x + w);
      ShiftedRemainder(x + w, w);
    }
  }

  lemma ShiftedRemainder(y: nat, w: nat)
    requires y < w
    ensures (y - w) % w == y
  {
    var q, r := (y - w) / w, (y - w) % w;
    assert y - w == w * q + r;
    ProductSign(w, q);
  }

  lemma ProductSign(w: nat, q: int)
    ensures q >= 0 ==> w * q >= 0
    ensures q <= -2 ==> w * q <= w * (-2)
  {
  }

  lemma IntRoundTrip(buf: seq<Byte>, pos: nat, x: int, width: nat)
    requires At(buf, pos, EncodeInt(x, width)) && 0 - Power(width) <= 2 * x < Power(width)
    ensures ReadInt(buf, pos, width) == Parsed(Some(x), pos + width)
  {
    var w := Power(width);
    Remainder(x, w);
    hide Power;
    LittleEndianReadsBack(x % w, width);
  }

  lemma StringRoundTrip(buf: seq<Byte>, pos: nat, s: seq<Byte>)
    requires At(buf, pos, EncodeString(s))
    ensures ReadString(buf, pos) == Parsed(Some(s), pos + |EncodeString(s)|)
  {
    AtParts(buf, pos, EncodeInt(|s|, 4), s);
    UIntFits(buf, pos, 4);
    UIntRoundTrip(buf, pos, |s|, 4);
  }

  lemma HashRoundTrip(codec: Codec, buf: seq<Byte>, pos: nat, id: Option<Id>)
    requires CodecOk(codec) && At(buf, pos, EncodeHash(codec, id))
    requires id.Some? ==> codec.text(id.value) != []
    ensures ReadHash(codec, buf, pos) == Parsed(Some(id), pos + |EncodeHash(codec, id)|)
  {
    StringRoundTrip(buf, pos, if id.None? then [] else codec.text(id.value));
  }

  ghost predicate OutPointFits(p: OutPoint) {
    -0x8000_0000_0000_0000 <= p.idx < 0x8000_0000_0000_0000
  }

  lemma OutPointRoundTrip(codec: Codec, buf: seq<Byte>, pos: nat, p: OutPoint)
    requires CodecOk(codec) && At(buf, pos, EncodeOutPoint(codec, p)) && OutPointFits(p)
    ensures ReadOutPoint(codec, buf, pos) == Parsed(Some(p), pos + |EncodeOutPoint(codec, p)|)
  {
    var s := EncodeString(codec.text(p.txId));
    AtParts(buf, pos, s, EncodeInt(p.idx, 8));
    StringRoundTrip(buf, pos, codec.text(p.txId));
    IntFits(buf, pos, 8);
    IntRoundTrip(buf, pos + |s|, p.idx, 8);
  }

  ghost predicate TxInFits(txIn: TxIn) {
    txIn.toSpend.Some? ==> OutPointFits(txIn.toSpend.value)
  }

  lemma FlagRoundTrip(codec: Codec, buf: seq<Byte>, pos: nat, toSpend: Option<OutPoint>)
    requires CodecOk(codec) && (toSpend.Some? ==> OutPointFits(toSpend.value))
    requires At(buf, pos, if toSpend.None? then [0] else [1] + EncodeOutPoint(codec, toSpend.value))
    ensures ReadOptionalOutPoint(codec, buf, pos)
            == Parsed(Some(toSpend), pos + |if toSpend.None? then [0] else [1] + EncodeOutPoint(codec, toSpend.value)|)
  {
    UIntFits(buf, pos, 1);
    assert EncodeInt(0, 1) == [0] && EncodeInt(1, 1) == [1];
    if toSpend.None? {
      UIntRoundTrip(buf, pos, 0, 1);
    } else {
      AtParts(buf, pos, [1], EncodeOutPoint(codec, toSpend.value));
      UIntRoundTrip(buf, pos, 1, 1);
      OutPointRoundTrip(codec, buf, pos + 1, toSpend.value);
    }
  }

  lemma TxInRoundTrip(codec: Codec, buf: seq<Byte>, pos: nat, txIn: TxIn)
    requires CodecOk(codec) && TxInFits(txIn) && At(buf, pos, EncodeTxIn(codec, txIn))
    ensures ReadTxIn(codec, buf, pos) == Parsed(Some(txIn), pos + |EncodeTxIn(codec, txIn)|)
  {
    hide EncodeOutPoint, EncodeString, EncodeInt, ReadOptionalOutPoint, ReadString, ReadInt, CodecOk, At;
    var flagged := if txIn.toSpend.None? then [0] else [1] + EncodeOutPoint(codec, txIn.toSpend.value);
    var sig, pubKey, sequence := EncodeString(txIn.unlockSig), EncodeString(txIn.unlockPubKey), EncodeInt(txIn.sequence, 4);
    AtParts(buf, pos, flagged, sig + (pubKey + sequence));
    AtParts(buf, pos + |flagged|, sig, pubKey + sequence);
    AtParts(buf, pos + |flagged| + |sig|, pubKey, sequence);
    FlagRoundTrip(codec, buf, pos, txIn.toSpend);
    StringRoundTrip(buf, pos + |flagged|, txIn.unlockSig);
    StringRoundTrip(buf, pos + |flagged| + |sig|, txIn.unlockPubKey);
    IntFits(buf, pos, 4);
    IntRoundTrip(buf, pos + |flagged| + |sig| + |pubKey|, txIn.sequence, 4);
    IntLength(txIn.sequence, 4);
  }

  lemma IntLength(x: int, width: nat)
    ensures |EncodeInt(x, width)| == width
  {
  }

  lemma TxOutRoundTrip(buf: seq<Byte>, pos: nat, txOut: TxOut)
    requires At(buf, pos, EncodeTxOut(txOut))
    ensures ReadTxOut(buf, pos) == Parsed(Some(txOut), pos + |EncodeTxOut(txOut)|)
  {
    AtParts(buf, pos, EncodeInt(txOut.value, 8), EncodeString(txOut.toAddress));
    UIntFits(buf, pos, 8);
    UIntRoundTrip(buf, pos, txOut.value, 8);
    StringRoundTrip(buf, pos + 8, txOut.toAddress);
  }

  /** Reading undoes encoding for one kind of value, wherever it stands. */
  ghost predicate Inverse<T(!new)>(encode: T -> seq<Byte>, read: (seq<Byte>, nat) -> Parsed<T>, x: T) {
    forall buf: seq<Byte>, pos: nat | At(buf, pos, encode(x)) :: read(buf, pos) == Parsed(Some(x), pos + |encode(x)|)
  }

  lemma InverseAt<T(!new)>(encode: T -> seq<Byte>, read: (seq<Byte>, nat) -> Parsed<T>, x: T, buf: seq<Byte>, pos: nat)
    requires Inverse(encode, read, x) && At(buf, pos, encode(x))
    ensures read(buf, pos) == Parsed(Some(x), pos + |encode(x)|)
  {
    hide At;
  }

  lemma {:induction false} AllRoundTrip<T(!new)>(encode: T -> seq<Byte>, read: (seq<Byte>, nat) -> Parsed<T>,
                                                 xs: seq<T>, buf: seq<Byte>, pos: nat)
    requires forall i | 0 <= i < |xs| :: Inverse(encode, read, xs[i])
    requires At(buf, pos, EncodeAll(encode, xs))
    ensures ReadAll(read, buf, pos, |xs|) == Parsed(Some(xs), pos + |EncodeAll(encode, xs)|)
  {
    hide At, Inverse;
    if xs != [] {
      AtParts(buf, pos, encode(xs[0]), EncodeAll(encode, xs[1..]));
      InverseAt(encode, read, xs[0], buf, pos);
      AllRoundTrip(encode, read, xs[1..], buf, pos + |encode(xs[0])|);
      assert xs == [xs[0]] + xs[1..];
    }
  }

  lemma ListRoundTrip<T(!new)>(encode: T -> seq<Byte>, read: (seq<Byte>, nat) -> Parsed<T>,
                               xs: seq<T>, buf: seq<Byte>, pos: nat)
    requires forall i | 0 <= i < |xs| :: Inverse(encode, read, xs[i])
    requires |xs| <= MAX_UINT32 && At(buf, pos, EncodeList(encode, xs))
    ensures ReadList(read, buf, pos) == Parsed(Some(xs), pos + |EncodeList(encode, xs)|)
  {
    AtParts(buf, pos, EncodeInt(|xs|, 4), EncodeAll(encode, xs));
    UIntFits(buf, pos, 4);
    UIntRoundTrip(buf, pos, |xs|, 4);
    AllRoundTrip(encode, read, xs, buf, pos + 4);
  }

  ghost predicate TxFits(codec: Codec, tx: Tx) {
    && |tx.ins| <= MAX_UINT32 && |tx.outs| <= MAX_UINT32
    && (forall i | 0 <= i < |tx.ins| :: TxInFits(tx.ins[i]))
    && tx.id == codec.hash(EncodeTx(codec, tx))
  }

  lemma TxParts(codec: Codec, tx: Tx)
    ensures EncodeTx(codec, tx) ==
            EncodeList(TxInEncoder(codec), tx.ins) + (EncodeList(TxOutEncoder(), tx.outs) + EncodeInt(tx.lockTime, 8))
    ensures TxFits(codec, tx) ==>
              && |tx.ins| <= MAX_UINT32 && |tx.outs| <= MAX_UINT32
              && (forall i | 0 <= i < |tx.ins| :: TxInFits(tx.ins[i]))
              && tx.id == codec.hash(EncodeTx(codec, tx))
  {
    hide EncodeList, EncodeInt, TxInEncoder, TxOutEncoder, TxInFits;
  }

  lemma TxSteps(codec: Codec, buf: seq<Byte>, pos: nat, tx: Tx, p1: nat, p2: nat, p3: nat)
    requires ReadList(TxInReader(codec), buf, pos) == Parsed(Some(tx.ins), p1)
    requires ReadList(TxOutReader(), buf, p1) == Parsed(Some(tx.outs), p2)
    requires ReadInt(buf, p2, 8) == Parsed(Some(tx.lockTime), p3)
    requires tx.id == codec.hash(EncodeTx(codec, tx))
    ensures ReadTx(codec, buf, pos) == Parsed(Some(tx), p3)
  {
    BodyOnly(codec, tx);
    hide EncodeTx, ReadList, ReadInt, WithId, TxInReader, TxOutReader;
  }

  lemma TxRoundTrip(codec: Codec, buf: seq<Byte>, pos: nat, tx: Tx)
    requires CodecOk(codec) && TxFits(codec, tx) && At(buf, pos, EncodeTx(codec, tx))
    ensures ReadTx(codec, buf, pos) == Parsed(Some(tx), pos + |EncodeTx(codec, tx)|)
  {
    hide *;
    TxParts(codec, tx);
    var ins, outs, lock := EncodeList(TxInEncoder(codec), tx.ins), EncodeList(TxOutEncoder(), tx.outs), EncodeInt(tx.lockTime, 8);
    TxInsInvert(codec, tx.ins);
    TxOutsInvert(tx.outs);
    IntLength(tx.lockTime, 8);
    IntRange(tx.lockTime);
    AtParts(buf, pos, ins, outs + lock);
    AtParts(buf, pos + |ins|, outs, lock);
    ListRoundTrip(TxInEncoder(codec), TxInReader(codec), tx.ins, buf, pos);
    ListRoundTrip(TxOutEncoder(), TxOutReader(), tx.outs, buf, pos + |ins|);
    IntRoundTrip(buf, pos + |ins| + |outs|, tx.lockTime, 8);
    TxSteps(codec, buf, pos, tx, pos + |ins|, pos + |ins| + |outs|, pos + |ins| + |outs| + 8);
  }

  lemma IntRange(x: Int64)
    ensures 0 - Power(8) <= 2 * x < Power(8)
  {
    UIntFits([], 0, 8);
  }

  /** The encoding does not look at the cached id. */
  lemma BodyOnly(codec: Codec, tx: Tx)
    requires tx.id == codec.hash(EncodeTx(codec, tx))
    ensures forall id :: WithId(codec, Tx(id, tx.ins, tx.outs, tx.lockTime)) == tx
  {
  }

  lemma TxInsInvert(codec: Codec, ins: seq<TxIn>)
    requires CodecOk(codec) && forall i | 0 <= i < |ins| :: TxInFits(ins[i])
    ensures forall i | 0 <= i < |ins| :: Inverse(TxInEncoder(codec), TxInReader(codec), ins[i])
  {
    hide CodecOk, At, EncodeTxIn, ReadTxIn;
    forall i, buf: seq<Byte>, pos: nat | 0 <= i < |ins| && At(buf, pos, TxInEncoder(codec)(ins[i]))
      ensures TxInReader(codec)(buf, pos) == Parsed(Some(ins[i]), pos + |TxInEncoder(codec)(ins[i])|)
    {
      TxInRoundTrip(codec, buf, pos, ins[i]);
    }
  }

  lemma TxOutsInvert(outs: seq<TxOut>)
    ensures forall i | 0 <= i < |outs| :: Inverse(TxOutEncoder(), TxOutReader(), outs[i])
  {
    hide At, EncodeTxOut, ReadTxOut;
    forall i, buf: seq<Byte>, pos: nat | 0 <= i < |outs| && At(buf, pos, TxOutEncoder()(outs[i]))
      ensures TxOutReader()(buf, pos) == Parsed(Some(outs[i]), pos + |TxOutEncoder()(outs[i])|)
    {
      TxOutRoundTrip(buf, pos, outs[i]);
    }
  }

  lemma TxsInvert(codec: Codec, txs: seq<Tx>)
    requires CodecOk(codec) && forall i | 0 <= i < |txs| :: TxFits(codec, txs[i])
    ensures forall i | 0 <= i < |txs| :: Inverse(TxEncoder(codec), TxReader(codec), txs[i])
  {
    hide CodecOk, At, EncodeTx, ReadTx, TxFits;
    forall i, buf: seq<Byte>, pos: nat | 0 <= i < |txs| && At(buf, pos, TxEncoder(codec)(txs[i]))
      ensures TxReader(codec)(buf, pos) == Parsed(Some(txs[i]), pos + |TxEncoder(codec)(txs[i])|)
    {
      TxRoundTrip(codec, buf, pos, txs[i]);
    }
  }

  /** A hash string is empty exactly when there is no hash. */
  ghost predicate HashFits(codec: Codec, id: Option<Id>) {
    id.Some? ==> codec.text(id.value) != []
  }

  ghost predicate BlockFits(codec: Codec, b: Block) {
    && HashFits(codec, b.prev) && HashFits(codec, b.merkle)
    && |b.txs| <= MAX_UINT32
    && (forall i | 0 <= i < |b.txs| :: TxFits(codec, b.txs[i]))
    && b.id == codec.hash(Header(codec, b))
  }

  function FieldsOf(b: Block): HeaderFields {
    HeaderFields(b.version, b.prev, b.merkle, b.timestamp, b.bits, b.nonce)
  }

  lemma HeaderParts(codec: Codec, b: Block)
    ensures Header(codec, b) ==
            (EncodeInt(b.version, 8) + (EncodeHash(codec, b.prev) + (EncodeHash(codec, b.merkle) +
            (EncodeInt(b.timestamp, 8) + EncodeInt(b.bits, 1))))) + EncodeInt(b.nonce, 8)
  {
    hide EncodeInt, EncodeHash;
  }

  lemma HeaderSteps(codec: Codec, buf: seq<Byte>, pos: nat, f: HeaderFields, p1: nat, p2: nat, p3: nat, p4: nat,
                    p5: nat, p6: nat)
    requires ReadUInt(buf, pos, 8) == Parsed(Some(f.version), p1)
    requires ReadHash(codec, buf, p1) == Parsed(Some(f.prev), p2)
    requires ReadHash(codec, buf, p2) == Parsed(Some(f.merkle), p3)
    requires ReadInt(buf, p3, 8) == Parsed(Some(f.timestamp), p4)
    requires ReadUInt(buf, p4, 1) == Parsed(Some(f.bits), p5)
    requires ReadUInt(buf, p5, 8) == Parsed(Some(f.nonce), p6)
    ensures ReadHeader(codec, buf, pos) == Parsed(Some(f), p6)
  {
    hide ReadUInt, ReadInt, ReadHash;
  }

  lemma HeaderRoundTrip(codec: Codec, buf: seq<Byte>, pos: nat, b: Block)
    requires CodecOk(codec) && HashFits(codec, b.prev) && HashFits(codec, b.merkle)
    requires At(buf, pos, Header(codec, b))
    ensures ReadHeader(codec, buf, pos) == Parsed(Some(FieldsOf(b)), pos + |Header(codec, b)|)
  {
    hide HashFits, CodecOk, At, ReadHeader, Header, HeaderPrefix, EncodeInt, EncodeHash, ReadUInt, ReadInt, ReadHash,
         Power;
    HeaderParts(codec, b);
    var version, prev, merkle := EncodeInt(b.version, 8), EncodeHash(codec, b.prev), EncodeHash(codec, b.merkle);
    var timestamp, bits, nonce := EncodeInt(b.timestamp, 8), EncodeInt(b.bits, 1), EncodeInt(b.nonce, 8);
    var p1 := pos + |version|;
    var p2 := p1 + |prev|;
    var p3 := p2 + |merkle|;
    var p4 := p3 + |timestamp|;
    var p5 := p4 + |bits|;
    IntLength(b.version, 8);
    IntLength(b.timestamp, 8);
    IntLength(b.bits, 1);
    IntLength(b.nonce, 8);
    UIntFits([], 0, 8);
    AtParts(buf, pos, version + (prev + (merkle + (timestamp + bits))), nonce);
    AtParts(buf, pos, version, prev + (merkle + (timestamp + bits)));
    AtParts(buf, p1, prev, merkle + (timestamp + bits));
    AtParts(buf, p2, merkle, timestamp + bits);
    AtParts(buf, p3, timestamp, bits);
    UIntRoundTrip(buf, pos, b.version, 8);
    HashTrip(codec, buf, p1, b.prev);
    HashTrip(codec, buf, p2, b.merkle);
    IntRange(b.timestamp);
    IntRoundTrip(buf, p3, b.timestamp, 8);
    UIntRoundTrip(buf, p4, b.bits, 1);
    UIntRoundTrip(buf, p5, b.nonce, 8);
    HeaderSteps(codec, buf, pos, FieldsOf(b), p1, p2, p3, p4, p5, p5 + 8);
  }

  lemma HashTrip(codec: Codec, buf: seq<Byte>, pos: nat, id: Option<Id>)
    requires CodecOk(codec) && At(buf, pos, EncodeHash(codec, id)) && HashFits(codec, id)
    ensures ReadHash(codec, buf, pos) == Parsed(Some(id), pos + |EncodeHash(codec, id)|)
  {
    hide CodecOk, At, EncodeHash, ReadHash;
    HashRoundTrip(codec, buf, pos, id);
  }

  lemma BlockSteps(codec: Codec, buf: seq<Byte>, pos: nat, b: Block, p1: nat, p2: nat)
    requires ReadHeader(codec, buf, pos) == Parsed(Some(FieldsOf(b)), p1)
    requires ReadList(TxReader(codec), buf, p1) == Parsed(Some(b.txs), p2)
    requires b.id == codec.hash(Header(codec, b))
    ensures ReadBlock(codec, buf, pos) == Parsed(Some(b), p2)
  {
    SameBlock(codec, b);
    hide ReadHeader, ReadList, Header, TxReader, BlockOf, FieldsOf;
  }

  lemma BlockParts(codec: Codec, b: Block)
    ensures EncodeBlock(codec, b) == Header(codec, b) + EncodeList(TxEncoder(codec), b.txs)
    ensures BlockFits(codec, b) ==>
              && HashFits(codec, b.prev) && HashFits(codec, b.merkle) && |b.txs| <= MAX_UINT32
              && (forall i | 0 <= i < |b.txs| :: TxFits(codec, b.txs[i]))
              && b.id == codec.hash(Header(codec, b))
  {
    hide Header, EncodeList, TxEncoder, TxFits, HashFits;
  }

  lemma BlockRoundTrip(codec: Codec, buf: seq<Byte>, pos: nat, b: Block)
    requires CodecOk(codec) && BlockFits(codec, b) && At(buf, pos, EncodeBlock(codec, b))
    ensures ReadBlock(codec, buf, pos) == Parsed(Some(b), pos + |EncodeBlock(codec, b)|)
  {
    hide *;
    BlockParts(codec, b);
    var header, txs := Header(codec, b), EncodeList(TxEncoder(codec), b.txs);
    TxsInvert(codec, b.txs);
    AtParts(buf, pos, header, txs);
    HeaderRoundTrip(codec, buf, pos, b);
    ListRoundTrip(TxEncoder(codec), TxReader(codec), b.txs, buf, pos + |header|);
    BlockSteps(codec, buf, pos, b, pos + |header|, pos + |header| + |txs|);
  }

  lemma SameBlock(codec: Codec, b: Block)
    requires b.id == codec.hash(Header(codec, b))
    ensures BlockOf(codec, FieldsOf(b), b.txs) == b
  {
  }

  /** Self-delimiting: between any prefix and any suffix, parsing returns the block and stops
      exactly at the suffix. */
  lemma BlocksAreSelfDelimiting(codec: Codec, prefix: seq<Byte>, b: Block, suffix: seq<Byte>)
    requires CodecOk(codec) && BlockFits(codec, b)
    requires |prefix| + |EncodeBlock(codec, b)| <= MAX_UINT32
    ensures ReadBlock(codec, prefix + EncodeBlock(codec, b) + suffix, |prefix|)
            == Parsed(Some(b), |prefix| + |EncodeBlock(codec, b)|)
  {
    BlockRoundTrip(codec, prefix + EncodeBlock(codec, b) + suffix, |prefix|, b);
  }

  /** No encoding is a proper prefix of another, so the encoding is injective. */
  lemma BlocksArePrefixFree(codec: Codec, a: Block, b: Block, s: seq<Byte>, t: seq<Byte>)
    requires CodecOk(codec) && BlockFits(codec, a) && BlockFits(codec, b)
    requires |EncodeBlock(codec, a)| <= MAX_UINT32 && |EncodeBlock(codec, b)| <= MAX_UINT32
    requires EncodeBlock(codec, a) + s == EncodeBlock(codec, b) + t
    ensures a == b && s == t
  {
    hide EncodeBlock, ReadBlock, CodecOk, BlockFits;
    var ea, eb := EncodeBlock(codec, a), EncodeBlock(codec, b);
    assert [] + ea + s == ea + s && [] + eb + t == eb + t;
    BlocksAreSelfDelimiting(codec, [], a, s);
    BlocksAreSelfDelimiting(codec, [], b, t);
    assert a == b;
    assert s == (ea + s)[|ea|..] && t == (ea + t)[|ea|..];
  }

  lemma TxsArePrefixFree(codec: Codec, a: Tx, b: Tx, s: seq<Byte>, t: seq<Byte>)
    requires CodecOk(codec) && TxFits(codec, a) && TxFits(codec, b)
    requires |EncodeTx(codec, a)| <= MAX_UINT32 && |EncodeTx(codec, b)| <= MAX_UINT32
    requires EncodeTx(codec, a) + s == EncodeTx(codec, b) + t
    ensures a == b && s == t
  {
    var ea, eb := EncodeTx(codec, a), EncodeTx(codec, b);
    assert At(ea + s, 0, ea) && At(eb + t, 0, eb);
    hide EncodeTx, ReadTx, CodecOk, TxFits;
    TxRoundTrip(codec, ea + s, 0, a);
    TxRoundTrip(codec, eb + t, 0, b);
    assert s == (ea + s)[|ea|..] && t == (eb + t)[|eb|..];
  }

  // ----- The buffer -----

  /** A vector of bytes with a write and a read offset. */
  class BinaryBuffer {
    var buffer: seq<Byte>
    var writeOffset: nat
    var readOffset: nat

    ghost predicate Valid()
      reads this
    {
      writeOffset <= |buffer| <= MAX_UINT32
    }

    constructor (data: seq<Byte>)
      requires |data| <= MAX_UINT32
      ensures Valid() && buffer == data && writeOffset == |data| && readOffset == 0
    {
      buffer, writeOffset, readOffset := data, |data|, 0;
    }

    /** Grow if needed, then copy over what is there. Offsets past 32 bits are the caller's fault. */
    method Write(data: seq<Byte>)
      requires Valid() && writeOffset + |data| <= MAX_UINT32
      modifies this`buffer, this`writeOffset
      ensures Valid() && writeOffset == old(writeOffset) + |data|
      ensures buffer[..writeOffset] == old(buffer)[..old(writeOffset)] + data
      ensures |buffer| == if old(|buffer|) < writeOffset then writeOffset else old(|buffer|)
      ensures buffer[writeOffset..] == old(buffer)[if writeOffset < old(|buffer|) then writeOffset else old(|buffer|)..]
      ensures old(writeOffset) == old(|buffer|) ==> buffer == old(buffer) + data
    {
      var finalLength := writeOffset + |data|;
      var tail := buffer[if finalLength < |buffer| then finalLength else |buffer|..];
      buffer := buffer[..writeOffset] + data + tail;
      writeOffset := finalLength;
    }

    method WriteInt(x: int, width: nat)
      requires Valid() && writeOffset == |buffer| && writeOffset + width <= MAX_UINT32
      modifies this`buffer, this`writeOffset
      ensures Valid() && buffer == old(buffer) + EncodeInt(x, width) && writeOffset == |buffer|
    {
      Write(EncodeInt(x, width));
    }

    method WriteString(s: seq<Byte>)
      requires Valid() && writeOffset == |buffer| && writeOffset + 4 + |s| <= MAX_UINT32
      modifies this`buffer, this`writeOffset
      ensures Valid() && buffer == old(buffer) + EncodeString(s) && writeOffset == |buffer|
    {
      WriteInt(|s|, 4);
      Write(s);
    }

    method Read(length: nat) returns (r: Option<seq<Byte>>)
      modifies this`readOffset
      ensures Parsed(r, readOffset) == ReadBytes(buffer, old(readOffset), length)
    {
      if length > MAX_UINT32 - readOffset {
        return None;
      }
      var finalOffset := readOffset + length;
      if |buffer| < finalOffset {
        return None;
      }
      r := Some(buffer[readOffset..finalOffset]);
      readOffset := finalOffset;
    }

    method ReadUnsigned(width: nat) returns (r: Option<nat>)
      modifies this`readOffset
      ensures Parsed(r, readOffset) == ReadUInt(buffer, old(readOffset), width)
    {
      var bytes := Read(width);
      r := if bytes.None? then None else Some(FromLittleEndian(bytes.value));
    }

    method ReadSigned(width: nat) returns (r: Option<int>)
      modifies this`readOffset
      ensures Parsed(r, readOffset) == ReadInt(buffer, old(readOffset), width)
    {
      var x := ReadUnsigned(width);
      r := if x.None? then None else Some(Signed(x.value, width));
    }

    method ReadText() returns (r: Option<seq<Byte>>)
      modifies this`readOffset
      ensures Parsed(r, readOffset) == ReadString(buffer, old(readOffset))
    {
      var size := ReadUnsigned(4);
      if size.None? {
        return None;
      }
      r := Read(size.value);
    }
  }
}
