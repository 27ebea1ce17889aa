/** Streaming SHA-256 as the GPU kernel computes it, against the padding and iteration of
    FIPS 180-4. The compression function stays abstract. */
module Sha256 {
  import opened Types
  import opened Arithmetic
  import opened Bytes

  /** The eight words of the hash value. */
  type State = h: seq<UInt32> | |h| == 8 witness [0, 0, 0, 0, 0, 0, 0, 0]

  type Compress = (State, seq<UInt32>) -> State

  // ----- FIPS 180-4 on bits -----

  /** The low `width` bits of x, most significant first. */
  ghost function ToBits(x: nat, width: nat): (bits: seq<bool>)
    ensures |bits| == width
  {
    if width == 0 then [] else ToBits(x / 2, width - 1) + [x % 2 == 1]
  }

  ghost function Bits(bytes: seq<Byte>): (bits: seq<bool>)
    ensures |bits| == 8 * |bytes|
  {
    if bytes == [] then [] else ToBits(bytes[0], 8) + Bits(bytes[1..])
  }

  ghost function Zeros(n: nat): (z: seq<bool>)
    ensures |z| == n && forall i | 0 <= i < n :: !z[i]
  {
    seq(n, _ => false)
  }

  /** The smallest number of zero bits that makes the length l + 1 + k congruent to 448 modulo 512. */
  ghost predicate IsZeroCount(l: nat, k: nat) {
    Fills(l, k) && forall j: nat | j < k :: !Fills(l, j)
  }

  ghost predicate Fills(l: nat, k: nat) {
    (l + 1 + k) % 512 == 448
  }

  ghost function FromBits(bits: seq<bool>): nat {
    if bits == [] then 0 else 2 * FromBits(bits[..|bits| - 1]) + if bits[|bits| - 1] then 1 else 0
  }

  /** Section 5.1.1: the message, a one, zeros, and its length as a 64-bit number. */
  ghost predicate IsPadded(message: seq<bool>, padded: seq<bool>) {
    exists k: nat, length: seq<bool> ::
      && IsZeroCount(|message|, k)
      && |length| == 64 && FromBits(length) == |message|
      && padded == message + [true] + Zeros(k) + length
  }

  // ----- The same on bytes -----

  ghost function ZeroBytes(n: nat): (k: nat)
    ensures (n + 1 + k) % 64 == 56 && k < 64
  {
    (119 - n % 64) % 64
  }

  ghost function Pad(message: seq<Byte>): (padded: seq<Byte>)
    ensures |padded| == |message| + 9 + ZeroBytes(|message|)
  {
    message + [0x80] + seq(ZeroBytes(|message|), _ => 0) + BigEndian(8 * |message|, 8)
  }

  lemma {:induction false} BitsAppend(a: seq<Byte>, b: seq<Byte>)
    ensures Bits(a + b) == Bits(a) + Bits(b)
  {
    if a == [] {
      assert a + b == b;
    } else {
      assert (a + b)[1..] == a[1..] + b;
      BitsAppend(a[1..], b);
    }
  }

  lemma {:induction false} BitsOfZeros(n: nat)
    ensures Bits(seq(n, _ => 0)) == Zeros(8 * n)
  {
    var zeros: seq<Byte> := seq(n, _ => 0);
    if n > 0 {
      assert zeros[1..] == seq(n - 1, _ => 0);
      BitsOfZeros(n - 1);
    }
  }

  lemma {:induction false} FromBitsAppend(a: seq<bool>, b: seq<bool>)
    ensures FromBits(a + b) == FromBits(a) * Pow2(|b|) + FromBits(b)
  {
    if b == [] {
      assert a + b == a;
    } else {
      var n := |b| - 1;
      assert (a + b)[..|a + b| - 1] == a + b[..n];
      FromBitsAppend(a, b[..n]);
      DoubleProduct(FromBits(a), Pow2(n), FromBits(b[..n]));
    }
  }

  lemma DoubleProduct(x: nat, y: nat, z: nat)
    ensures 2 * (x * y + z) == x * (2 * y) + 2 * z
  {
  }

  lemma {:induction false} ToBitsReadsBack(x: nat, width: nat)
    requires x < Pow2(width)
    ensures FromBits(ToBits(x, width)) == x
  {
    if width > 0 {
      ToBitsReadsBack(x / 2, width - 1);
    }
  }

  lemma Pow2Of8()
    ensures Pow2(8) == 256
  {
    assert Pow2(2) == 4;
    assert Pow2(4) == 16;
    assert Pow2(6) == 64;
  }

  lemma OneByte(b: Byte)
    ensures Bits([b]) == ToBits(b, 8)
  {
    assert [b][1..] == [];
  }

  lemma {:induction false} NumberOfBits(bytes: seq<Byte>)
    ensures FromBits(Bits(bytes)) == FromBigEndian(bytes)
  {
    if bytes != [] {
      var n := |bytes| - 1;
      NumberOfBits(bytes[..n]);
      assert bytes == bytes[..n] + [bytes[n]];
      BitsAppend(bytes[..n], [bytes[n]]);
      OneByte(bytes[n]);
      Pow2Of8();
      FromBitsAppend(Bits(bytes[..n]), ToBits(bytes[n], 8));
      ToBitsReadsBack(bytes[n], 8);
    }
  }

  lemma FirstPaddingByte()
    ensures Bits([0x80]) == [true] + Zeros(7)
  {
    OneByte(0x80);
    assert ToBits(1, 1) == [true] by {
      assert ToBits(0, 0) == [];
    }
    assert ToBits(2, 2) == [true, false];
    assert ToBits(4, 3) == [true, false, false];
    assert ToBits(8, 4) == [true, false, false, false];
    assert ToBits(16, 5) == [true, false, false, false, false];
    assert ToBits(32, 6) == [true, false, false, false, false, false];
    assert ToBits(64, 7) == [true, false, false, false, false, false, false];
    assert ToBits(128, 8) == [true, false, false, false, false, false, false, false];
  }

  lemma ZeroCountOfBytes(n: nat)
    ensures IsZeroCount(8 * n, 7 + 8 * ZeroBytes(n))
  {
    var k, r := ZeroBytes(n), n % 64;
    assert 8 * n == 512 * (n / 64) + 8 * r;
    forall j: nat | j < 7 + 8 * k
      ensures !Fills(8 * n, j)
    {
      FillsModulo(n / 64, 8 * r, j);
    }
    FillsModulo(n / 64, 8 * r, 7 + 8 * k);
  }

  lemma FillsModulo(q: nat, r: nat, j: nat)
    ensures Fills(512 * q + r, j) <==> Fills(r, j)
  {
  }

  /** The byte-wise padding is the padding of section 5.1.1, for any message whose bit length
      fits in 64 bits. */
  lemma PadIsPadding(message: seq<Byte>)
    requires 8 * |message| < TWO_64
    ensures IsPadded(Bits(message), Bits(Pad(message)))
  {
    hide *;
    var k := ZeroBytes(|message|);
    var zeros: seq<Byte> := seq(k, _ => 0);
    var length := BigEndian(8 * |message|, 8);
    BitsOfPad(message, zeros, length);
    BitsOfZeros(k);
    FirstPaddingByte();
    ZerosAdd(7, 8 * k);
    NumberOfBits(length);
    Power8();
    BigEndianReadsBack(8 * |message|, 8);
    ZeroCountOfBytes(|message|);
    Rearrange(Bits(message), Zeros(7), Zeros(8 * k), Bits(length));
    PaddedFrom(Bits(message), 7 + 8 * k, Bits(length), Bits(Pad(message)));
  }

  lemma BitsOfPad(message: seq<Byte>, zeros: seq<Byte>, length: seq<Byte>)
    requires zeros == seq(ZeroBytes(|message|), _ => 0) && length == BigEndian(8 * |message|, 8)
    ensures Bits(Pad(message)) == Bits(message) + Bits([0x80]) + Bits(zeros) + Bits(length)
  {
    assert Pad(message) == message + [0x80] + zeros + length;
    hide *;
    BitsAppend(message + [0x80] + zeros, length);
    BitsAppend(message + [0x80], zeros);
    BitsAppend(message, [0x80]);
  }

  lemma Rearrange(m: seq<bool>, a: seq<bool>, b: seq<bool>, length: seq<bool>)
    ensures m + ([true] + a) + b + length == m + [true] + (a + b) + length
  {
  }

  lemma PaddedFrom(message: seq<bool>, k: nat, length: seq<bool>, padded: seq<bool>)
    requires IsZeroCount(|message|, k) && |length| == 64 && FromBits(length) == |message|
    requires padded == message + [true] + Zeros(k) + length
    ensures IsPadded(message, padded)
  {
    hide IsZeroCount, FromBits, Zeros;
  }

  lemma ZerosAdd(a: nat, b: nat)
    ensures Zeros(a) + Zeros(b) == Zeros(a + b)
  {
  }

  // ----- Section 5.2.1 and 6.2.2: sixteen words a block, one compression a block -----

  ghost function WordAt(bytes: seq<Byte>, i: nat): (w: UInt32)
    requires i + 4 <= |bytes|
  {
    var b0: int, b1: int, b2: int, b3: int := bytes[i], bytes[i + 1], bytes[i + 2], bytes[i + 3];
    b0 * 0x100_0000 + b1 * 0x1_0000 + b2 * 0x100 + b3
  }

  ghost function Words(block: seq<Byte>): (ws: seq<UInt32>)
    requires |block| == 64
    ensures |ws| == 16
  {
    seq(16, i requires 0 <= i < 16 => WordAt(block, 4 * i))
  }

  ghost function Iterate(compress: Compress, h: State, padded: seq<Byte>): State
    decreases |padded|
  {
    if |padded| < 64 then h else Iterate(compress, compress(h, Words(padded[..64])), padded[64..])
  }

  /** The first n words of the hash value, each as four bytes. */
  ghost function Digest(h: State, n: nat): (bytes: seq<Byte>)
    requires n <= 8
    ensures |bytes| == 4 * n
  {
    if n == 0 then [] else Digest(h, n - 1) + BigEndian(h[n - 1], 4)
  }

  ghost function Hash(compress: Compress, init: State, message: seq<Byte>): (bytes: seq<Byte>)
    ensures |bytes| == 32
  {
    Digest(Iterate(compress, init, Pad(message)), 8)
  }

  // ----- The message digest on bits -----

  /** Section 6.2.2: the words of the hash value one after the other. */
  ghost function DigestBits(h: State, n: nat): seq<bool>
    requires n <= 8
  {
    if n == 0 then [] else DigestBits(h, n - 1) + ToBits(h[n - 1], 32)
  }

  lemma {:induction false} ToBitsSplit(q: nat, r: nat, m: nat, n: nat)
    requires r < Pow2(n)
    ensures ToBits(q * Pow2(n) + r, m + n) == ToBits(q, m) + ToBits(r, n)
  {
    if n > 0 {
      var p, x := q * Pow2(n - 1), q * Pow2(n) + r;
      DoubleProduct(q, Pow2(n - 1), 0);
      HalfOf(p, r);
      ToBitsSplit(q, r / 2, m, n - 1);
      assert ToBits(x, m + n) == ToBits(x / 2, m + n - 1) + [x % 2 == 1];
    }
  }

  lemma HalfOf(p: nat, r: nat)
    ensures (2 * p + r) / 2 == p + r / 2 && (2 * p + r) % 2 == r % 2
  {
  }

  lemma {:induction false} BytesAreBits(x: nat, width: nat)
    ensures Bits(BigEndian(x, width)) == ToBits(x, 8 * width)
  {
    if width > 0 {
      BytesAreBits(x / 256, width - 1);
      BitsAppend(BigEndian(x / 256, width - 1), [x % 256]);
      OneByte(x % 256);
      Pow2Of8();
      ToBitsSplit(x / 256, x % 256, 8 * (width - 1), 8);
    }
  }

  /** The bytes of the digest are the message digest of section 6.2.2. */
  lemma {:induction false} DigestIsDigest(h: State, n: nat)
    requires n <= 8
    ensures Bits(Digest(h, n)) == DigestBits(h, n)
  {
    if n > 0 {
      DigestIsDigest(h, n - 1);
      BitsAppend(Digest(h, n - 1), BigEndian(h[n - 1], 4));
      BytesAreBits(h[n - 1], 4);
    }
  }

  // ----- The kernel -----

  method WordsOfBlock(bytes: seq<Byte>, from: nat) returns (block: seq<UInt32>)
    requires from + 64 <= |bytes|
    ensures block == Words(bytes[from..from + 64])
  {
    block := [];
    for i := 0 to 16
      invariant |block| == i
      invariant forall j | 0 <= j < i :: block[j] == WordAt(bytes[from..from + 64], 4 * j)
    {
      var offset := from + i * 4;
      var b0: int, b1: int, b2: int, b3: int := bytes[offset], bytes[offset + 1], bytes[offset + 2], bytes[offset + 3];
      assert bytes[from..from + 64][4 * i] == b0 && bytes[from..from + 64][4 * i + 1] == b1;
      assert bytes[from..from + 64][4 * i + 2] == b2 && bytes[from..from + 64][4 * i + 3] == b3;
      block := block + [b0 * 0x100_0000 + b1 * 0x1_0000 + b2 * 0x100 + b3];
    }
  }

  /** One block of the padded message. */
  lemma NextBlock(compress: Compress, h: State, padded: seq<Byte>, from: nat)
    requires from + 64 <= |padded|
    ensures Iterate(compress, h, padded[from..])
            == Iterate(compress, compress(h, Words(padded[from..from + 64])), padded[from + 64..])
  {
    assert padded[from..][..64] == padded[from..from + 64] && padded[from..][64..] == padded[from + 64..];
  }

  /** The last, partial block, filled in place in a 128-byte array: one or two padding blocks. */
  method FillLastBlocks(msg: seq<Byte>) returns (last: array<Byte>, blocks: nat)
    requires |msg| <= 0xFFFF_FFFF
    ensures fresh(last) && last.Length == 128 && 1 <= blocks <= 2
    ensures 64 * (|msg| / 64) + 64 * blocks == |Pad(msg)|
    ensures last[..64 * blocks] == Pad(msg)[64 * (|msg| / 64)..]
  {
    var fullBlocks := |msg| / 64;
    var remainder := |msg| % 64;
    last := new Byte[128];
    for i := 0 to remainder
      invariant forall j | 0 <= j < i :: last[j] == msg[fullBlocks * 64 + j]
    {
      last[i] := msg[fullBlocks * 64 + i];
    }
    last[remainder] := 0x80;
    for i := remainder + 1 to 128
      invariant forall j | 0 <= j < remainder :: last[j] == msg[fullBlocks * 64 + j]
      invariant last[remainder] == 0x80
      invariant forall j | remainder < j < i :: last[j] == 0
    {
      last[i] := 0;
    }
    var bitLen := 8 * |msg|;
    blocks := if remainder < 56 then 1 else 2;
    WriteLength(last, 64 * blocks - 8, bitLen);
    LastPart(msg, last[..64 * blocks]);
  }

  method WriteLength(last: array<Byte>, at: nat, bitLen: UInt64)
    requires at + 8 <= last.Length
    modifies last
    ensures last[at..at + 8] == BigEndian(bitLen, 8)
    ensures forall j | 0 <= j < last.Length && !(at <= j < at + 8) :: last[j] == old(last[j])
  {
    last[at] := bitLen / 0x100_0000_0000_0000 % 256;
    last[at + 1] := bitLen / 0x1_0000_0000_0000 % 256;
    last[at + 2] := bitLen / 0x100_0000_0000 % 256;
    last[at + 3] := bitLen / 0x1_0000_0000 % 256;
    last[at + 4] := bitLen / 0x100_0000 % 256;
    last[at + 5] := bitLen / 0x1_0000 % 256;
    last[at + 6] := bitLen / 0x100 % 256;
    last[at + 7] := bitLen % 256;
    LengthBytes(bitLen);
    assert last[at..at + 8] == [last[at], last[at + 1], last[at + 2], last[at + 3], last[at + 4], last[at + 5], last[at + 6], last[at + 7]];
  }

  lemma {:induction false} BigEndianDigit(x: nat, width: nat, k: nat, d: nat)
    requires k < width && d == Power(width - 1 - k)
    ensures BigEndian(x, width)[k] == x / d % 256
  {
    if k + 1 < width {
      BigEndianDigit(x / 256, width - 1, k, d / 256);
      DivDiv(x, d / 256);
    }
  }

  lemma DivDiv(x: nat, d: nat)
    requires d > 0
    ensures x / 256 / d == x / (256 * d)
  {
    var q := x / 256 / d;
    var y := x / 256;
    assert d * q <= y < d * q + d;
    assert 256 * (d * q) <= x < 256 * (d * q + d);
    assert (256 * d) * q == 256 * (d * q);
    QuotientIs(x, 256 * d, q);
  }

  lemma LengthBytes(x: UInt64)
    ensures BigEndian(x, 8) ==
            [x / 0x100_0000_0000_0000 % 256, x / 0x1_0000_0000_0000 % 256, x / 0x100_0000_0000 % 256, x / 0x1_0000_0000 % 256,
             x / 0x100_0000 % 256, x / 0x1_0000 % 256, x / 0x100 % 256, x % 256]
  {
    assert Power(1) == 0x100 && Power(2) == 0x1_0000;
    assert Power(3) == 0x100_0000 && Power(4) == 0x1_0000_0000;
    assert Power(5) == 0x100_0000_0000 && Power(6) == 0x1_0000_0000_0000;
    assert Power(7) == 0x100_0000_0000_0000 && Power(0) == 1;
    hide *;
    BigEndianDigit(x, 8, 0, 0x100_0000_0000_0000);
    BigEndianDigit(x, 8, 1, 0x1_0000_0000_0000);
    BigEndianDigit(x, 8, 2, 0x100_0000_0000);
    BigEndianDigit(x, 8, 3, 0x1_0000_0000);
    BigEndianDigit(x, 8, 4, 0x100_0000);
    BigEndianDigit(x, 8, 5, 0x1_0000);
    BigEndianDigit(x, 8, 6, 0x100);
    BigEndianDigit(x, 8, 7, 1);
  }

  /** The bytes after the last full block of the padded message. */
  lemma LastPart(msg: seq<Byte>, last: seq<Byte>)
    requires |last| == (if |msg| % 64 < 56 then 64 else 128)
    requires var r := |msg| % 64;
             && (forall j | 0 <= j < r :: last[j] == msg[64 * (|msg| / 64) + j])
             && last[r] == 0x80
             && (forall j | r < j < |last| - 8 :: last[j] == 0)
             && last[|last| - 8..] == BigEndian(8 * |msg|, 8)
    ensures 64 * (|msg| / 64) + |last| == |Pad(msg)|
    ensures last == Pad(msg)[64 * (|msg| / 64)..]
  {
    hide Pad, BigEndian;
    var n, r := |msg|, |msg| % 64;
    var start := 64 * (n / 64);
    PadLength(msg);
    assert start + |last| == |Pad(msg)|;
    forall j | 0 <= j < |last|
      ensures last[j] == Pad(msg)[start + j]
    {
      PadAt(msg, start + j);
      assert j >= |last| - 8 ==> last[j] == last[|last| - 8..][j - (|last| - 8)];
    }
  }

  lemma PadLength(msg: seq<Byte>)
    ensures |Pad(msg)| == 64 * (|msg| / 64) + if |msg| % 64 < 56 then 64 else 128
  {
    hide BigEndian;
  }

  lemma PadAt(msg: seq<Byte>, i: nat)
    requires i < |Pad(msg)|
    ensures Pad(msg)[i] == if i < |msg| then msg[i] else if i == |msg| then 0x80
                           else if i < |Pad(msg)| - 8 then 0 else BigEndian(8 * |msg|, 8)[i - (|Pad(msg)| - 8)]
  {
    hide BigEndian, ZeroBytes;
  }

  /** The last loop of sha256_hash. */
  method Unpack(state: State, outHash: array<Byte>)
    requires outHash.Length == 32
    modifies outHash
    ensures outHash[..] == Digest(state, 8)
  {
    for i := 0 to 8
      invariant outHash[..4 * i] == Digest(state, i)
    {
      outHash[i * 4] := state[i] / 0x100_0000 % 256;
      outHash[i * 4 + 1] := state[i] / 0x1_0000 % 256;
      outHash[i * 4 + 2] := state[i] / 0x100 % 256;
      outHash[i * 4 + 3] := state[i] % 256;
      WordBytes(state[i]);
      assert outHash[..4 * (i + 1)] == outHash[..4 * i] + [outHash[4 * i], outHash[4 * i + 1], outHash[4 * i + 2], outHash[4 * i + 3]];
    }
    assert outHash[..32] == outHash[..];
  }

  lemma WordBytes(w: UInt32)
    ensures BigEndian(w, 4) == [w / 0x100_0000 % 256, w / 0x1_0000 % 256, w / 0x100 % 256, w % 256]
  {
    assert Power(0) == 1 && Power(1) == 0x100 && Power(2) == 0x1_0000 && Power(3) == 0x100_0000;
    hide *;
    BigEndianDigit(w, 4, 0, 0x100_0000);
    BigEndianDigit(w, 4, 1, 0x1_0000);
    BigEndianDigit(w, 4, 2, 0x100);
    BigEndianDigit(w, 4, 3, 1);
  }

  /** sha256_hash: for every message whose length is a 32-bit number, the bytes it writes are the
      digest of FIPS 180-4. */
  method Sha256Hash(compress: Compress, init: State, msg: seq<Byte>, outHash: array<Byte>)
    requires |msg| <= 0xFFFF_FFFF && outHash.Length == 32
    modifies outHash
    ensures outHash[..] == Hash(compress, init, msg)
  {
    hide Words, WordAt, BigEndian, Digest;
    ghost var padded := Pad(msg);
    ghost var final := Iterate(compress, init, padded);
    var state := init;
    var fullBlocks := |msg| / 64;
    assert padded[0..] == padded;
    for b := 0 to fullBlocks
      invariant Iterate(compress, state, padded[64 * b..]) == final
    {
      NextBlock(compress, state, padded, 64 * b);
      assert padded[64 * b..64 * b + 64] == msg[64 * b..64 * b + 64];
      var block := WordsOfBlock(msg, b * 64);
      state := compress(state, block);
    }
    var last, totalPadBlocks := FillLastBlocks(msg);
    ghost var rest := padded[64 * fullBlocks..];
    assert rest[0..] == rest;
    for pb := 0 to totalPadBlocks
      invariant last[..64 * totalPadBlocks] == rest
      invariant Iterate(compress, state, rest[64 * pb..]) == final
    {
      NextBlock(compress, state, rest, 64 * pb);
      assert last[..][64 * pb..64 * pb + 64] == rest[64 * pb..64 * pb + 64];
      var block := WordsOfBlock(last[..], pb * 64);
      state := compress(state, block);
    }
    assert rest[64 * totalPadBlocks..] == [];
    Unpack(state, outHash);
  }

  /** double_sha256. */
  method DoubleSha256(compress: Compress, init: State, msg: seq<Byte>, outHash: array<Byte>)
    requires |msg| <= 0xFFFF_FFFF && outHash.Length == 32
    modifies outHash
    ensures outHash[..] == Hash(compress, init, Hash(compress, init, msg))
  {
    var firstHash := new Byte[32];
    Sha256Hash(compress, init, msg, firstHash);
    Sha256Hash(compress, init, firstHash[..], outHash);
  }
}
