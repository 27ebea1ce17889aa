/** Proof-of-work arithmetic on 256-bit unsigned integers: the retarget rule and block work. */
module Difficulty {
  import opened Types
  import opened Arithmetic

  // ----- Powers of two -----

  lemma Square(n: nat, v: nat)
    requires Pow2(n) == v
    ensures Pow2(2 * n) == v * v
  {
    Pow2Add(n, n);
  }

  lemma Pow2Of256()
    ensures Pow2(256) == TWO_256
    ensures Pow2(16) == 65536
  {
    assert Pow2(2) == 4;
    hide Pow2;
    Square(2, 4);
    Square(4, 16);
    Square(8, 256);
    Square(16, 65536);
    Square(32, 0x1_0000_0000);
    Square(64, TWO_64);
    Square(128, TWO_64 * TWO_64);
  }

  /** 1 << (255 - bits): the number a block hash has to stay below. */
  ghost function Target(bits: Byte): (t: nat)
    ensures 0 < t < TWO_256
  {
    Pow2Of256();
    Pow2Strict(255 - bits, 256);
    Pow2(255 - bits)
  }

  /** Index of the highest set bit. */
  ghost function Msb(x: nat): nat
    requires x > 0
  {
    if x == 1 then 0 else 1 + Msb(x / 2)
  }

  lemma {:induction false} MsbOfInterval(x: nat, j: nat)
    requires Pow2(j) <= x < Pow2(j + 1)
    ensures Msb(x) == j
    decreases j
  {
    if j > 0 {
      assert Pow2(j) == 2 * Pow2(j - 1);
      MsbOfInterval(x / 2, j - 1);
    }
  }

  // ----- Retargeting -----

  const T: int := DIFFICULTY_PERIOD_IN_SECS

  ghost function Clamp(elapsed: int): (c: int)
    ensures T / 4 <= c <= 4 * T
  {
    if elapsed < T / 4 then T / 4 else if elapsed > 4 * T then 4 * T else elapsed
  }

  /** By how much the bits change: +2, +1, 0, -1 or -2. */
  ghost function Step(elapsed: int): int {
    if elapsed < T / 2 then 2
    else if elapsed < T then 1
    else if elapsed < 2 * T then 0
    else if elapsed < 4 * T then -1
    else -2
  }

  /** The 256-bit product of the old target and the clamped time. */
  ghost function WrappedProduct(bits: Byte, elapsed: int): nat {
    (Target(bits) * Clamp(elapsed)) % TWO_256
  }

  lemma CompareProducts(t: nat, c: nat, q: nat)
    requires t > 0
    ensures t * c < t * q <==> c < q
  {
    if c < q {
      assert t * (c + 1) == t * c + t;
      Scale(t, c + 1, q);
    } else {
      Scale(t, q, c);
    }
  }

  /** The product wraps around exactly when the clamped time has more than bits + 1 binary digits. */
  lemma OverflowCondition(bits: Byte, elapsed: int)
    ensures Target(bits) * Clamp(elapsed) < TWO_256 <==> Clamp(elapsed) < Pow2(bits + 1)
  {
    Pow2Of256();
    Pow2Add(255 - bits, bits + 1);
    assert Target(bits) == Pow2(255 - bits);
    hide *;
    CompareProducts(Target(bits), Clamp(elapsed), Pow2(bits + 1));
  }

  lemma NoOverflowFrom18(bits: Byte, elapsed: int)
    requires 18 <= bits
    ensures Target(bits) * Clamp(elapsed) < TWO_256
  {
    OverflowCondition(bits, elapsed);
    if 19 < bits + 1 {
      Pow2Strict(19, bits + 1);
    }
    assert Pow2(7) == 128;
    assert Pow2(12) == 4096 by {
      Pow2Add(6, 6);
      assert Pow2(6) == 64;
    }
    Pow2Add(7, 12);
  }

  /** One of five bands: 2^j T <= 4 c < 2^(j+1) T, where j = 2 - Step. */
  lemma BandOf(elapsed: int)
    ensures var j := 2 - Step(elapsed);
            0 <= j <= 4 && Pow2(j) * T <= 4 * Clamp(elapsed) < Pow2(j + 1) * T
  {
    assert Pow2(1) == 2 && Pow2(2) == 4 && Pow2(3) == 8;
    assert Pow2(4) == 2 * Pow2(3) && Pow2(5) == 2 * Pow2(4);
  }

  lemma BandProduct(p: nat, lo: nat, hi: nat, c: nat)
    requires p > 0 && lo * T <= 4 * c < hi * T
    ensures T * (p * lo) <= (4 * p) * c < T * (p * hi)
  {
    Scale(p, lo * T, 4 * c);
    Scale(p, 4 * c + 1, hi * T);
    assert p * (4 * c + 1) == p * (4 * c) + p;
    assert p * (4 * c) == (4 * p) * c;
    assert p * (lo * T) == T * (p * lo);
    assert p * (hi * T) == T * (p * hi);
  }

  lemma BandQuotient(p: nat, lo: nat, hi: nat, c: nat)
    requires p > 0 && lo * T <= 4 * c < hi * T
    ensures p * lo <= ((4 * p) * c) / T < p * hi
  {
    BandProduct(p, lo, hi, c);
    QuotientBetween((4 * p) * c, T, p * lo, p * hi);
  }

  /** 2^k c / T lies in the binary interval that starts at 2^(k - Step). */
  lemma QuotientBand(k: nat, elapsed: int)
    requires k >= 2
    ensures var q := (Pow2(k) * Clamp(elapsed)) / T;
            Pow2(k - Step(elapsed)) <= q < Pow2(k - Step(elapsed) + 1)
  {
    var j, c := 2 - Step(elapsed), Clamp(elapsed);
    var p := Pow2(k - 2);
    assert Pow2(k) == 4 * p;
    BandOf(elapsed);
    hide *;
    Pow2Add(k - 2, j);
    Pow2Add(k - 2, j + 1);
    BandQuotient(p, Pow2(j), Pow2(j + 1), c);
  }

  lemma SmallRemainder(x: nat)
    requires x < TWO_256
    ensures x % TWO_256 == x
  {
  }

  /** The highest bit of the new target, and when there is none. */
  lemma NewTargetBits(bits: Byte, elapsed: int)
    requires Clamp(elapsed) < Pow2(bits + 1)
    ensures var q := WrappedProduct(bits, elapsed) / T;
            && (q == 0 <==> bits + Step(elapsed) > 255)
            && (bits + Step(elapsed) <= 255 ==> q > 0 && Msb(q) == 255 - bits - Step(elapsed))
  {
    OverflowCondition(bits, elapsed);
    assert Target(bits) == Pow2(255 - bits) && -2 <= Step(elapsed) <= 2;
    assert WrappedProduct(bits, elapsed) == (Target(bits) * Clamp(elapsed)) % TWO_256;
    hide *;
    SmallRemainder(Target(bits) * Clamp(elapsed));
    if bits <= 253 {
      QuotientBand(255 - bits, elapsed);
      MsbOfInterval(WrappedProduct(bits, elapsed) / T, 255 - bits - Step(elapsed));
    } else {
      SmallestTargets(bits, elapsed);
    }
  }

  /** What the code computes for any bits: the product reduced modulo 2^256, and `None` for the
      exception that taking the highest bit of a zero target raises. */
  ghost function Retarget(bits: Byte, elapsed: int): Option<Byte> {
    var q := WrappedProduct(bits, elapsed) / T;
    if q == 0 then None else Some((255 - Msb(q) % 256) % 256)
  }

  /** The bits are changed by the step, and there are none exactly if that leaves the byte range. */
  ghost predicate FollowsStep(bits: Byte, elapsed: int) {
    var r := Retarget(bits, elapsed);
    if bits + Step(elapsed) <= 255 then r.Some? && r.value == bits + Step(elapsed) else r.None?
  }

  /** As long as the product fits, a retarget is the step function. From 18 bits on it always fits. */
  lemma RetargetIsStep(bits: Byte, elapsed: int)
    requires 18 <= bits || Clamp(elapsed) < Pow2(bits + 1)
    ensures FollowsStep(bits, elapsed)
  {
    hide *;
    StepIsSmall(elapsed);
    RetargetParts(bits, elapsed);
    FollowsParts(bits, elapsed);
    if 18 <= bits {
      NoOverflowFrom18(bits, elapsed);
      OverflowCondition(bits, elapsed);
    }
    NewTargetBits(bits, elapsed);
    EnoughBits(bits, elapsed);
  }

  lemma StepIs(elapsed: int)
    ensures Step(elapsed) == if 2 * elapsed < T then 2 else if elapsed < T then 1 else if elapsed < 2 * T then 0
                             else if elapsed < 4 * T then -1 else -2
  {
  }

  lemma StepIsSmall(elapsed: int)
    ensures -2 <= Step(elapsed) <= 2
  {
  }

  lemma RetargetParts(bits: Byte, elapsed: int)
    ensures var q := WrappedProduct(bits, elapsed) / T;
            && (Retarget(bits, elapsed).None? <==> q == 0)
            && (q > 0 && Msb(q) < 256 ==> Retarget(bits, elapsed) == Some(255 - Msb(q)))
  {
    hide WrappedProduct, Msb;
  }

  lemma SmallPower(n: nat)
    requires n <= 14
    ensures Pow2(n) <= 16384
  {
    assert Pow2(7) == 128;
    Pow2Add(7, 7);
    if n < 14 {
      Pow2Strict(n, 14);
    }
  }

  /** The shortest clamped time has fifteen binary digits. */
  lemma EnoughBits(bits: Byte, elapsed: int)
    requires Clamp(elapsed) < Pow2(bits + 1)
    ensures 14 <= bits
  {
    hide Pow2;
    SmallPower(if bits < 14 then bits + 1 else 0);
  }

  // ----- When the product wraps -----

  lemma CommonFactor(a: nat, b: nat, c: nat)
    requires a > 0 && b > 0
    ensures (a * c) % (a * b) == a * (c % b)
  {
    var q, r := c / b, c % b;
    assert c == b * q + r;
    assert a * c == (a * b) * q + a * r by {
      assert a * (b * q) == (a * b) * q;
      assert a * (b * q + r) == a * (b * q) + a * r;
    }
    CompareProducts(a, r, b);
    hide *;
    QuotientIs(a * c, a * b, q);
  }

  /** What wraps is the clamped time, at as many binary digits as the target leaves. */
  lemma WrappedIs(bits: Byte, elapsed: int)
    ensures WrappedProduct(bits, elapsed) == Pow2(255 - bits) * (Clamp(elapsed) % Pow2(bits + 1))
  {
    Pow2Of256();
    Pow2Add(255 - bits, bits + 1);
    assert Target(bits) == Pow2(255 - bits);
    assert WrappedProduct(bits, elapsed) == (Target(bits) * Clamp(elapsed)) % TWO_256;
    hide *;
    CommonFactor(Pow2(255 - bits), Pow2(bits + 1), Clamp(elapsed));
  }

  lemma RemainderIsBelowHalf(c: nat, m: nat)
    requires 0 < m <= c
    ensures 2 * (c % m) < c
  {
    var q := c / m;
    assert c == m * q + c % m;
    assert q >= 1;
    Scale(m, 1, q);
  }

  lemma {:induction false} MsbIsBelow(x: nat)
    requires x > 0
    ensures Pow2(Msb(x)) <= x
  {
    if x > 1 {
      MsbIsBelow(x / 2);
    }
  }

  /** A wrapped target falls short of the band of the step. */
  lemma WrappedFallsShort(bits: Byte, elapsed: int)
    requires bits <= 253 && Pow2(bits + 1) <= Clamp(elapsed)
    ensures WrappedProduct(bits, elapsed) / T < Pow2(255 - bits - Step(elapsed))
  {
    var j, c := 2 - Step(elapsed), Clamp(elapsed) % Pow2(bits + 1);
    var p := Pow2(253 - bits);
    assert Pow2(255 - bits) == 4 * p;
    BandOf(elapsed);
    assert Pow2(j + 1) == 2 * Pow2(j);
    hide *;
    WrappedIs(bits, elapsed);
    RemainderIsBelowHalf(Clamp(elapsed), Pow2(bits + 1));
    BandQuotient(p, 0, Pow2(j), c);
    Pow2Add(253 - bits, j);
  }

  /** Exactly when a retarget is the step function: when the product fits. */
  lemma RetargetIsStepIff(bits: Byte, elapsed: int)
    ensures FollowsStep(bits, elapsed) <==> Clamp(elapsed) < Pow2(bits + 1)
  {
    hide *;
    if Clamp(elapsed) < Pow2(bits + 1) {
      RetargetIsStep(bits, elapsed);
    } else {
      WrapsBelow18(bits, elapsed);
      StepIsSmall(elapsed);
      WrappedFallsShort(bits, elapsed);
      RetargetParts(bits, elapsed);
      FollowsParts(bits, elapsed);
      var q := WrappedProduct(bits, elapsed) / T;
      if q > 0 {
        MsbIsBelow(q);
        SmallMsb(bits, elapsed);
        assert Msb(q) != 255 - bits - Step(elapsed);
      }
    }
  }

  lemma WrapsBelow18(bits: Byte, elapsed: int)
    requires Clamp(elapsed) >= Pow2(bits + 1)
    ensures bits <= 17
  {
    hide *;
    if bits >= 18 {
      NoOverflowFrom18(bits, elapsed);
      OverflowCondition(bits, elapsed);
    }
  }

  lemma FollowsParts(bits: Byte, elapsed: int)
    ensures FollowsStep(bits, elapsed) <==>
            if bits + Step(elapsed) <= 255
            then Retarget(bits, elapsed).Some? && Retarget(bits, elapsed).value == bits + Step(elapsed)
            else Retarget(bits, elapsed).None?
  {
    hide Step, Retarget;
  }

  lemma SmallMsb(bits: Byte, elapsed: int)
    requires WrappedProduct(bits, elapsed) / T > 0
    ensures Msb(WrappedProduct(bits, elapsed) / T) < 256
  {
    var q := WrappedProduct(bits, elapsed) / T;
    assert q < TWO_256;
    hide WrappedProduct;
    MsbIsBelow(q);
    Pow2Of256();
    hide Pow2;
    if Msb(q) > 256 {
      Pow2Strict(256, Msb(q));
    }
  }

  /** get_next_work_required at a retarget height. */
  method NextBits(bits: Byte, elapsed: int) returns (r: Option<Byte>)
    ensures r == Retarget(bits, elapsed)
  {
    var actualTime: int := elapsed;
    if actualTime < T / 4 {
      actualTime := T / 4;
    }
    if actualTime > T * 4 {
      actualTime := T * 4;
    }
    assert actualTime == Clamp(elapsed);
    var oldTarget := ShiftLeftOne(255 - bits);
    assert oldTarget == Target(bits);
    var newTarget := (oldTarget * actualTime) % TWO_256 / T;
    assert newTarget == WrappedProduct(bits, elapsed) / T;
    hide WrappedProduct;
    if newTarget == 0 {
      return None;
    }
    var msb := HighestBit(newTarget);
    r := Some((255 - msb % 256) % 256);
  }

  /** Targets 2 and 1 are too small to be divided by four. */
  lemma SmallestTargets(bits: Byte, elapsed: int)
    requires 254 <= bits
    ensures var q := (Target(bits) * Clamp(elapsed)) / T;
            && (q == 0 <==> bits + Step(elapsed) > 255)
            && (bits + Step(elapsed) <= 255 ==> q > 0 && Msb(q) == 255 - bits - Step(elapsed))
  {
    assert Pow2(0) == 1 && Pow2(1) == 2;
    var q, j := (Target(bits) * Clamp(elapsed)) / T, 255 - bits - Step(elapsed);
    if 0 <= j {
      assert Pow2(2) == 4 && Pow2(3) == 8 && Pow2(4) == 2 * Pow2(3);
      assert Pow2(j) <= q < Pow2(j + 1);
      MsbOfInterval(q, j);
    }
  }

  method ShiftLeftOne(n: nat) returns (r: nat)
    ensures r == Pow2(n)
  {
    r := 1;
    for i := 0 to n
      invariant r == Pow2(i)
    {
      r := 2 * r;
    }
  }

  method HighestBit(x: nat) returns (r: nat)
    requires x > 0
    ensures r == Msb(x)
  {
    var y := x;
    r := 0;
    while y > 1
      invariant y > 0 && r + Msb(y) == Msb(x)
    {
      y := y / 2;
      r := r + 1;
    }
  }

  /** Below 18 bits the product can wrap: a period four times too slow then raises the bits
      from 17 to 18 instead of lowering them to 15. */
  lemma OverflowAtSeventeen()
    ensures WrappedProduct(17, 4 * T) / T > 0
    ensures 255 - Msb(WrappedProduct(17, 4 * T) / T) == 18
  {
    var h := Pow2(237);
    Pow2Of256();
    assert Pow2(3) == 8;
    Pow2Add(3, 16);
    Pow2Add(237, 19);
    assert Target(17) == 2 * h == Pow2(238);
    assert WrappedProduct(17, 4 * T) == ((2 * h) * (4 * T)) % TWO_256;
    hide *;
    WrapsAround(h);
    MsbOfInterval(WrappedProduct(17, 4 * T) / T, 237);
  }

  lemma WrapsAround(h: nat)
    requires h * 524288 == TWO_256
    ensures h <= ((2 * h) * (4 * T)) % TWO_256 / T < 2 * h
  {
    assert (2 * h) * (4 * T) == TWO_256 + h * 166912;
    assert h * 166912 < TWO_256;
  }

  // ----- Block work -----

  /** (~target / (target + 1)) + 1 on 256-bit integers. */
  ghost function WorkOfTarget(t: nat): nat
    requires t < TWO_256
  {
    ((TWO_256 - 1 - t) / (t + 1) + 1) % TWO_256
  }

  ghost function BlockWork(bits: Byte): (w: nat)
    ensures 0 < w < TWO_256
  {
    WorkIsQuotient(Target(bits));
    WorkOfTarget(Target(bits))
  }

  /** The trick with the complement computes the true quotient of 2^256, which does not fit. */
  lemma WorkIsQuotient(t: nat)
    requires 0 < t < TWO_256
    ensures WorkOfTarget(t) == TWO_256 / (t + 1)
    ensures 0 < WorkOfTarget(t)
  {
    var n, d := TWO_256, t + 1;
    var q := (n - d) / d;
    assert d * q <= n - d < d * q + d;
    assert d * (q + 1) == d * q + d;
    hide *;
    QuotientIs(n, d, q + 1);
    assert 2 * (q + 1) <= d * (q + 1) by {
      Scale(q + 1, 2, d);
    }
  }

  /** With p = 2^(255 - k): the work of target 2^k is at least p, that of 2^(k+1) below p. */
  lemma WorkAround(k: nat)
    requires k < 255
    ensures Pow2(k) < Pow2(k + 1) < TWO_256
    ensures WorkOfTarget(Pow2(k + 1)) < Pow2(255 - k) <= WorkOfTarget(Pow2(k))
  {
    Pow2Of256();
    Pow2Strict(k + 1, 256);
    Pow2Strict(k, k + 1);
    assert Pow2(k + 1) == 2 * Pow2(k);
    Pow2Add(255 - k, k + 1);
    hide *;
    WorkAroundValues(Pow2(k), Pow2(255 - k));
  }

  lemma WorkAroundValues(t: nat, p: nat)
    requires t > 0 && p > 0 && 2 * t < TWO_256 && p * (2 * t) == TWO_256
    ensures WorkOfTarget(2 * t) < p <= WorkOfTarget(t)
  {
    hide *;
    WorkIsQuotient(t);
    WorkIsQuotient(2 * t);
    Half(p, t);
    AtLeast(t + 1, p);
    Below(2 * t + 1, p);
  }

  lemma Half(p: nat, t: nat)
    requires t > 0
    ensures (t + 1) * p <= p * (2 * t) == (2 * t) * p
  {
    Scale(p, t + 1, 2 * t);
  }

  lemma AtLeast(d: nat, p: nat)
    requires d > 0 && d * p <= TWO_256
    ensures p <= TWO_256 / d
  {
    var k := TWO_256 / d;
    assert TWO_256 < d * k + d;
    if k < p {
      assert d * (k + 1) == d * k + d;
      Scale(d, k + 1, p);
    }
  }

  lemma Below(d: nat, p: nat)
    requires d > 1 && p > 0 && (d - 1) * p == TWO_256
    ensures TWO_256 / d < p
  {
    assert d * p == (d - 1) * p + p;
    QuotientBetween(TWO_256, d, 0, p);
  }

  /** More bits, strictly more work. */
  lemma {:induction false} WorkIncreases(fewer: Byte, more: Byte)
    requires fewer < more
    ensures BlockWork(fewer) < BlockWork(more)
    decreases more - fewer
  {
    WorkAround(255 - more);
    if fewer + 1 < more {
      WorkIncreases(fewer, more - 1);
    }
  }
}
