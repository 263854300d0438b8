/** The register of CRC-32 (reflected polynomial 0xEDB88320) as an instance of the shift
    register theory. Each fact about bit vectors is a lemma of its own, about a few words.
 */
module CrcRegister {
  import opened ShiftRegister

  const POLYNOMIAL: bv32 := 0xEDB8_8320

  // ---------- The register ----------

  /** One step of the bit-serial register. */
  function Shift(c: bv32): bv32 {
    if c & 1 == 1 then (c >> 1) ^ POLYNOMIAL else c >> 1
  }

  function Xor(a: bv32, b: bv32): bv32 {
    a ^ b
  }

  function Double(c: bv32): bv32 {
    c << 1
  }

  function Half(c: bv32): bv32 {
    c >> 1
  }

  predicate Odd(c: bv32) {
    c & 1 == 1
  }

  /** The mask of the n lowest bits. */
  function Low(n: nat): bv32 {
    if n == 0 then 0 else (Low(n - 1) << 1) | 1
  }

  predicate Fits(n: nat, w: bv32) {
    w & !Low(n) == 0
  }

  const REGISTER: Register<bv32> := Register(0, 1, Xor, Shift, Double, Half, Odd, Fits, 32)

  lemma XorIs(a: bv32, b: bv32, r: bv32)
    requires r == REGISTER.xor(a, b)
    ensures r == a ^ b
  {
  }

  lemma DoubleIs(c: bv32, r: bv32)
    requires r == REGISTER.double(c)
    ensures r == c << 1
  {
  }

  lemma XorAssociative(a: bv32, b: bv32, c: bv32, bc: bv32, ab: bv32, l: bv32, r: bv32)
    requires bc == b ^ c && ab == a ^ b && l == a ^ bc && r == ab ^ c
    ensures l == r
  {
  }

  lemma DoubleOfXor(a: bv32, b: bv32, ab: bv32, x: bv32, y: bv32, z: bv32)
    requires ab == a ^ b && x == a << 1 && y == b << 1 && z == ab << 1
    ensures z == x ^ y
  {
  }

  lemma ShiftLinear(a: bv32, b: bv32)
    ensures Shift(a ^ b) == Shift(a) ^ Shift(b)
  {
    ShiftParts(a, b);
    XorMoves(a >> 1, b >> 1, POLYNOMIAL);
  }

  lemma ShiftParts(a: bv32, b: bv32)
    ensures (a ^ b) >> 1 == (a >> 1) ^ (b >> 1)
    ensures (a ^ b) & 1 == 1 <==> (a & 1 == 1) != (b & 1 == 1)
  {
  }

  lemma XorMoves(a: bv32, b: bv32, p: bv32)
    ensures (a ^ b) ^ p == (a ^ p) ^ b == a ^ (b ^ p)
    ensures a ^ b == (a ^ p) ^ (b ^ p)
  {
  }

  lemma ShiftOfXor(a: bv32, b: bv32)
    ensures REGISTER.shift(REGISTER.xor(a, b)) == REGISTER.xor(REGISTER.shift(a), REGISTER.shift(b))
  {
    ShiftLinear(a, b);
  }

  lemma ShiftInjective(a: bv32, b: bv32)
    requires Shift(a) == Shift(b)
    ensures a == b
  {
  }

  lemma BitUnderMask(m: bv32, w: bv32, b: bv32)
    requires w & !m == 0 && (b == 0 || b == 1)
    ensures (b ^ (w << 1)) & !((m << 1) | 1) == 0
  {
  }

  lemma DoubleUnderMask(m: bv32, w: bv32)
    requires w & !m == 0
    ensures (w << 1) & !((m << 1) | 1) == 0
  {
  }

  lemma {:induction false} LowGrows(m: nat, n: nat)
    requires m <= n
    ensures Low(m) & !Low(n) == 0
  {
    if m > 0 {
      LowGrows(m - 1, n - 1);
      MaskGrows(Low(m - 1), Low(n - 1));
    }
  }

  lemma MaskGrows(a: bv32, b: bv32)
    requires a & !b == 0
    ensures ((a << 1) | 1) & !((b << 1) | 1) == 0
  {
  }

  lemma LowStep(n: nat, m: bv32)
    requires Low(n) == m
    ensures Low(n + 2) == (m << 2) | 3
  {
    OnesShifted(m);
  }

  lemma OnesShifted(m: bv32)
    ensures (((m << 1) | 1) << 1) | 1 == (m << 2) | 3
  {
  }

  lemma LowValues()
    ensures Low(8) == 0xFF && Low(16) == 0xFFFF && Low(24) == 0xFF_FFFF && Low(31) == 0x7FFF_FFFF
  {
    assert Low(0) == 0;
    LowStep(0, 0x0);
    LowStep(2, 0x3);
    LowStep(4, 0xF);
    LowStep(6, 0x3F);
    LowStep(8, 0xFF);
    LowStep(10, 0x3FF);
    LowStep(12, 0xFFF);
    LowStep(14, 0x3FFF);
    LowStep(16, 0xFFFF);
    LowStep(18, 0x3FFFF);
    LowStep(20, 0xFFFFF);
    LowStep(22, 0x3FFFFF);
    LowStep(24, 0xFFFFFF);
    LowStep(26, 0x3FFFFFF);
    LowStep(28, 0xFFFFFFF);
    assert Low(31) == (0x3FFF_FFFF << 1) | 1;
  }

  lemma TopBitClear(n: nat, w: bv32)
    requires n < 32 && Fits(n, w)
    ensures w & 0x8000_0000 == 0
  {
    LowGrows(n, 31);
    LowValues();
    BelowTopBit(w, Low(n));
  }

  lemma BelowTopBit(w: bv32, m: bv32)
    requires w & !m == 0 && m & !0x7FFF_FFFF == 0
    ensures w & 0x8000_0000 == 0
  {
  }

  lemma ShiftUndoesDouble(w: bv32)
    requires w & 0x8000_0000 == 0
    ensures Shift(w << 1) == w
  {
  }

  lemma XorRegroups(a: bv32, b: bv32, c: bv32)
    ensures REGISTER.xor(a, REGISTER.xor(b, c)) == REGISTER.xor(REGISTER.xor(a, b), c)
  {
    var bc, ab := REGISTER.xor(b, c), REGISTER.xor(a, b);
    var l, r := REGISTER.xor(a, bc), REGISTER.xor(ab, c);
    XorIs(b, c, bc);
    XorIs(a, b, ab);
    XorIs(a, bc, l);
    XorIs(ab, c, r);
    XorAssociative(a, b, c, bc, ab, l, r);
  }

  lemma XorUnit(a: bv32)
    ensures REGISTER.xor(0, a) == a == REGISTER.xor(a, 0) && REGISTER.xor(a, a) == 0
  {
    XorIs(0, a, REGISTER.xor(0, a));
    XorIs(a, 0, REGISTER.xor(a, 0));
    XorIs(a, a, REGISTER.xor(a, a));
  }

  lemma GroupLaw()
    ensures Group(REGISTER)
  {
    forall a: bv32, b: bv32, c: bv32
      ensures REGISTER.xor(a, REGISTER.xor(b, c)) == REGISTER.xor(REGISTER.xor(a, b), c)
    {
      XorRegroups(a, b, c);
    }
    forall a: bv32
      ensures REGISTER.xor(0, a) == a == REGISTER.xor(a, 0) && REGISTER.xor(a, a) == 0
    {
      XorUnit(a);
    }
  }

  lemma LinearLaw()
    ensures Linear(REGISTER)
  {
    forall a: bv32, b: bv32 {:trigger At2(a, b)}
      ensures REGISTER.shift(REGISTER.xor(a, b)) == REGISTER.xor(REGISTER.shift(a), REGISTER.shift(b))
      ensures REGISTER.double(REGISTER.xor(a, b)) == REGISTER.xor(REGISTER.double(a), REGISTER.double(b))
      ensures REGISTER.shift(a) == REGISTER.shift(b) ==> a == b
    {
      ShiftOfXor(a, b);
      DoubleLinear(a, b, REGISTER.xor(a, b), REGISTER.double(a), REGISTER.double(b));
      ShiftUnique(a, b);
    }
  }

  lemma ShiftUnique(a: bv32, b: bv32)
    ensures REGISTER.shift(a) == REGISTER.shift(b) ==> a == b
  {
    if REGISTER.shift(a) == REGISTER.shift(b) {
      ShiftInjective(a, b);
    }
  }

  lemma DoubleLinear(a: bv32, b: bv32, ab: bv32, x: bv32, y: bv32)
    requires ab == REGISTER.xor(a, b) && x == REGISTER.double(a) && y == REGISTER.double(b)
    ensures REGISTER.double(ab) == REGISTER.xor(x, y)
  {
    var z, r := REGISTER.double(ab), REGISTER.xor(x, y);
    XorIs(a, b, ab);
    XorIs(x, y, r);
    DoubleIs(a, x);
    DoubleIs(b, y);
    DoubleIs(ab, z);
    DoubleOfXor(a, b, ab, x, y, z);
  }

  lemma DoubleFits(n: nat, w: bv32)
    requires REGISTER.fits(n, w)
    ensures REGISTER.fits(n + 1, REGISTER.double(w))
  {
    DoubleUnderMask(Low(n), w);
  }

  lemma ShiftOfDouble(n: nat, w: bv32)
    requires REGISTER.fits(n, w) && n < 32
    ensures REGISTER.shift(REGISTER.double(w)) == w
  {
    TopBitClear(n, w);
    ShiftUndoesDouble(w);
  }

  lemma PutFits(n: nat, w: bv32, b: bool)
    requires REGISTER.fits(n, w)
    ensures REGISTER.fits(n + 1, REGISTER.xor(REGISTER.Bit(b), REGISTER.double(w)))
  {
    BitUnderMask(Low(n), w, if b then 1 else 0);
  }

  lemma PutReads(w: bv32, b: bool)
    ensures REGISTER.odd(REGISTER.xor(REGISTER.Bit(b), REGISTER.double(w))) == b
  {
  }

  lemma RoomLaw()
    ensures Room(REGISTER)
  {
    forall n: nat, w: bv32, b: bool {:trigger AtRoom(n, w, b)} | REGISTER.fits(n, w)
      ensures REGISTER.fits(n + 1, REGISTER.xor(REGISTER.Bit(b), REGISTER.double(w)))
      ensures REGISTER.fits(n + 1, REGISTER.double(w))
      ensures REGISTER.odd(REGISTER.xor(REGISTER.Bit(b), REGISTER.double(w))) == b
      ensures n < REGISTER.width ==> REGISTER.shift(REGISTER.double(w)) == w
    {
      PutFits(n, w, b);
      PutReads(w, b);
      DoubleFits(n, w);
      if n < 32 {
        ShiftOfDouble(n, w);
      }
    }
  }

  lemma HalfUnderMask(m: bv32, w: bv32)
    requires w & !((m << 1) | 1) == 0
    ensures (w >> 1) & !m == 0
  {
  }

  lemma HalfFits(n: nat, w: bv32)
    requires REGISTER.fits(n + 1, w)
    ensures REGISTER.fits(n, REGISTER.half(w))
  {
    HalfUnderMask(Low(n), w);
  }

  lemma Rejoined(w: bv32, h: bv32, b: bv32, d: bv32, x: bv32)
    requires h == w >> 1 && b == w & 1 && d == h << 1 && x == b ^ d
    ensures w == x
  {
  }

  lemma BitIs(w: bv32, b: bv32)
    requires b == REGISTER.Bit(Odd(w))
    ensures b == w & 1
  {
  }

  lemma HalfRejoins(w: bv32, h: bv32, b: bv32, d: bv32, x: bv32)
    requires h == REGISTER.half(w) && b == REGISTER.Bit(Odd(w)) && d == REGISTER.double(h) && x == REGISTER.xor(b, d)
    ensures w == x
  {
    BitIs(w, b);
    DoubleIs(h, d);
    XorIs(b, d, x);
    Rejoined(w, h, b, d, x);
  }

  lemma HalvesLaw()
    ensures Halves(REGISTER)
  {
    forall n: nat, w: bv32 {:trigger AtHalf(n, w)} | REGISTER.fits(n + 1, w)
      ensures REGISTER.fits(n, REGISTER.half(w))
      ensures w == REGISTER.xor(REGISTER.Bit(REGISTER.odd(w)), REGISTER.double(REGISTER.half(w)))
    {
      var h := REGISTER.half(w);
      var d := REGISTER.double(h);
      HalfFits(n, w);
      HalfRejoins(w, h, REGISTER.Bit(Odd(w)), d, REGISTER.xor(REGISTER.Bit(Odd(w)), d));
    }
  }

  /** The CRC register obeys the laws of a shift register 32 places wide. */
  lemma RegisterLaws()
    ensures Laws(REGISTER)
  {
    GroupLaw();
    LinearLaw();
    RoomLaw();
    HalvesLaw();
  }
}
