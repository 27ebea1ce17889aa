/** Fixed-width integers as byte strings. */
module Bytes {
  import opened Types
  import opened Arithmetic

  /** 256^n */
  function Power(n: nat): (p: nat)
    ensures p > 0
  {
    if n == 0 then 1 else 256 * Power(n - 1)
  }

  /** The low `width` bytes of x, least significant first. */
  function LittleEndian(x: nat, width: nat): (bytes: seq<Byte>)
    ensures |bytes| == width
  {
    if width == 0 then [] else [x % 256] + LittleEndian(x / 256, width - 1)
  }

  function FromLittleEndian(bytes: seq<Byte>): nat {
    if bytes == [] then 0 else bytes[0] + 256 * FromLittleEndian(bytes[1..])
  }

  lemma {:induction false} LittleEndianReadsBack(x: nat, width: nat)
    requires x < Power(width)
    ensures FromLittleEndian(LittleEndian(x, width)) == x
  {
    if width > 0 {
      var bytes := LittleEndian(x, width);
      assert bytes[1..] == LittleEndian(x / 256, width - 1);
      LittleEndianReadsBack(x / 256, width - 1);
    }
  }

  /** Byte i is digit i in base 256, counted from the least significant one. */
  lemma {:induction false} LittleEndianAt(x: nat, width: nat, i: nat)
    requires i < width
    ensures LittleEndian(x, width)[i] == x / Power(i) % 256
  {
    if i > 0 {
      LittleEndianAt(x / 256, width - 1, i - 1);
      DivideTwice(x, Power(i - 1));
    }
  }

  lemma DivideTwice(x: nat, p: nat)
    requires p > 0
    ensures x / 256 / p == x / (256 * p)
  {
    var q := x / 256 / p;
    assert p * q <= x / 256 < p * q + p;
    assert 256 * (x / 256) <= x < 256 * (x / 256) + 256;
    QuotientIs(x, 256 * p, q);
  }

  lemma {:induction false} FromLittleEndianFits(bytes: seq<Byte>)
    ensures FromLittleEndian(bytes) < Power(|bytes|)
    ensures LittleEndian(FromLittleEndian(bytes), |bytes|) == bytes
  {
    if bytes != [] {
      FromLittleEndianFits(bytes[1..]);
      var x := FromLittleEndian(bytes);
      assert x % 256 == bytes[0] && x / 256 == FromLittleEndian(bytes[1..]);
      assert bytes == [bytes[0]] + bytes[1..];
    }
  }

  /** The number whose digits in base 256 are the bytes, most significant first. */
  ghost function FromBigEndian(bytes: seq<Byte>): nat {
    if bytes == [] then 0 else 256 * FromBigEndian(bytes[..|bytes| - 1]) + bytes[|bytes| - 1]
  }

  /** The low `width` bytes of x, most significant first. */
  ghost function BigEndian(x: nat, width: nat): (bytes: seq<Byte>)
    ensures |bytes| == width
  {
    if width == 0 then [] else BigEndian(x / 256, width - 1) + [x % 256]
  }

  lemma {:induction false} BigEndianReadsBack(x: nat, width: nat)
    requires x < Power(width)
    ensures FromBigEndian(BigEndian(x, width)) == x
  {
    if width > 0 {
      BigEndianReadsBack(x / 256, width - 1);
    }
  }

  lemma Power8()
    ensures Power(8) == TWO_64
  {
    assert Power(2) == 0x1_0000;
    assert Power(4) == 0x1_0000_0000;
    assert Power(6) == 0x1_0000_0000_0000;
  }
}
