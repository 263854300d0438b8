/** CRC-32 by slicing-by-8, proved equal to the bit-serial CRC of section 8 of RFC 1952. */
module Crc32 {
  import opened ShiftRegister
  import opened CrcRegister

  const BYTE: nat := 8

  // ---------- The bit-serial reference ----------

  /** The bits of a byte string in transmission order, each byte lowest bit first. */
  function Bits(data: seq<bv8>): (r: seq<bool>)
    ensures |r| == 8 * |data|
  {
    if data == [] then [] else REGISTER.LowBits(BYTE, data[0] as bv32) + Bits(data[1..])
  }

  /** The register after the whole of `data`, fed one bit at a time. */
  function Fed(c: bv32, data: seq<bv8>): bv32 {
    REGISTER.Serial(c, Bits(data))
  }

  /** The CRC of `data`; `seed` is the CRC of what came before it. */
  function Reference(data: seq<bv8>, seed: bv32): bv32 {
    !Fed(!seed, data)
  }

  lemma {:induction false} BitsConcat(x: seq<bv8>, y: seq<bv8>)
    ensures Bits(x + y) == Bits(x) + Bits(y)
  {
    if x == [] {
      assert x + y == y;
    } else {
      assert (x + y)[1..] == x[1..] + y;
      BitsConcat(x[1..], y);
    }
  }

  lemma FedConcat(c: bv32, x: seq<bv8>, y: seq<bv8>)
    ensures Fed(c, x + y) == Fed(Fed(c, x), y)
  {
    BitsConcat(x, y);
    SerialConcat(REGISTER, c, Bits(x), Bits(y));
  }

  // ---------- The tables ----------

  /** The lookup tables: entry `i` of table `k`. */
  type Tables = (nat, bv8) -> bv32

  function LowByte(c: bv32): bv8 {
    (c & 0xFF) as bv8
  }

  function LowByteOf(w: bv32): bv32 {
    LowByte(w) as bv32
  }

  /** Names a table entry at which the recurrence is to be used. */
  ghost predicate At(k: nat, i: bv8) {
    true
  }

  /** The tables hold what the generating recurrence computes. */
  ghost predicate Generated(lookup: Tables) {
    forall k: nat, i: bv8 {:trigger At(k, i)} :: At(k, i) ==>
      lookup(k, i) == if k == 0 then REGISTER.Shifts(BYTE, i as bv32)
                      else (lookup(k - 1, i) >> 8) ^ lookup(0, LowByte(lookup(k - 1, i)))
  }

  /** The first table, and an entry of the next table from the one before. */
  function First(i: bv8): bv32 {
    REGISTER.Shifts(BYTE, i as bv32)
  }

  function NextOf(c: bv32): bv32 {
    (c >> 8) ^ First(LowByte(c))
  }

  function Table(k: nat, i: bv8): bv32 {
    if k == 0 then First(i) else NextOf(Table(k - 1, i))
  }

  lemma NextIs(c: bv32, b: bv8, r: bv32)
    requires r == NextOf(c) && b == LowByte(c)
    ensures r == (c >> 8) ^ Table(0, b)
  {
  }

  /** There are tables as the recurrence wants them. */
  lemma TableGenerated()
    ensures Generated(Table)
  {
    forall k: nat, i: bv8 {:trigger At(k, i)} | At(k, i)
      ensures Table(k, i) == if k == 0 then REGISTER.Shifts(BYTE, i as bv32)
                             else (Table(k - 1, i) >> 8) ^ Table(0, LowByte(Table(k - 1, i)))
    {
      if k > 0 {
        var c := Table(k - 1, i);
        NextIs(c, LowByte(c), Table(k, i));
      }
    }
  }

  /** Eight steps of the register. */
  function Eight(c: bv32): bv32 {
    Shift(Shift(Shift(Shift(Shift(Shift(Shift(Shift(c))))))))
  }

  lemma ShiftsAreEight(c: bv32)
    ensures REGISTER.Shifts(BYTE, c) == Eight(c)
  {
    assert REGISTER.Shifts(BYTE, c) == REGISTER.Shifts(BYTE - 2, Shift(Shift(c)));
    var d := Shift(Shift(c));
    assert REGISTER.Shifts(BYTE - 2, d) == REGISTER.Shifts(BYTE - 4, Shift(Shift(d)));
    var e := Shift(Shift(d));
    assert REGISTER.Shifts(BYTE - 4, e) == REGISTER.Shifts(BYTE - 6, Shift(Shift(e)));
    var f := Shift(Shift(e));
    assert REGISTER.Shifts(BYTE - 6, f) == REGISTER.Shifts(BYTE - 8, Shift(Shift(f)));
  }

  lemma FirstIsEight(i: bv8, c: bv32)
    requires c == i as bv32
    ensures First(i) == Eight(c)
  {
    ShiftsAreEight(c);
  }

  /** The entries of the first table for the single bits, which determine it. */
  lemma SingleBits()
    ensures First(0x01) == 0x7707_3096 && First(0x02) == 0xEE0E_612C && First(0x04) == 0x076D_C419
    ensures First(0x08) == 0x0EDB_8832 && First(0x10) == 0x1DB7_1064 && First(0x20) == 0x3B6E_20C8
    ensures First(0x40) == 0x76DC_4190 && First(0x80) == 0xEDB8_8320
  {
    assert First(0x01) == 0x7707_3096 by { FirstIsEight(0x01, 0x01); }
    assert First(0x02) == 0xEE0E_612C by { FirstIsEight(0x02, 0x02); }
    assert First(0x04) == 0x076D_C419 by { FirstIsEight(0x04, 0x04); }
    assert First(0x08) == 0x0EDB_8832 by { FirstIsEight(0x08, 0x08); }
    assert First(0x10) == 0x1DB7_1064 by { FirstIsEight(0x10, 0x10); }
    assert First(0x20) == 0x3B6E_20C8 by { FirstIsEight(0x20, 0x20); }
    assert First(0x40) == 0x76DC_4190 by { FirstIsEight(0x40, 0x40); }
    assert First(0x80) == 0xEDB8_8320 by { FirstIsEight(0x80, 0x80); }
  }

  lemma BranchFree(c: bv32)
    ensures (c >> 1) ^ ((c & 1) * POLYNOMIAL) == Shift(c)
  {
    assert c & 1 == 0 || c & 1 == 1;
  }

  /** The generator of the first table, without branches. */
  method FirstTable(i: bv8) returns (crc: bv32)
    ensures crc == Table(0, i)
  {
    crc := i as bv32;
    for j := 0 to BYTE
      invariant REGISTER.Shifts(BYTE - j, crc) == REGISTER.Shifts(BYTE, i as bv32)
    {
      BranchFree(crc);
      crc := (crc >> 1) ^ ((crc & 1) * POLYNOMIAL);
    }
  }

  lemma DoublesByte(w: bv32)
    ensures REGISTER.Doubles(BYTE, w) == w << 8
  {
    DoublesFour(0, w, w, w << 4);
    DoublesFour(BYTE - 4, w, w << 4, w << 8);
  }

  lemma DoublesFour(n: nat, w: bv32, d: bv32, r: bv32)
    requires REGISTER.Doubles(n, w) == d && r == d << 4
    ensures REGISTER.Doubles(n + 4, w) == r
  {
    DoublesTwice(n, w, d, d << 2);
    DoublesTwice(n + 2, w, d << 2, r);
  }

  lemma DoublesTwice(n: nat, w: bv32, d: bv32, r: bv32)
    requires REGISTER.Doubles(n, w) == d && r == d << 2
    ensures REGISTER.Doubles(n + 2, w) == r
  {
    assert REGISTER.Doubles(n + 1, w) == d << 1;
    assert REGISTER.Doubles(n + 2, w) == (d << 1) << 1;
  }

  lemma LowByteSplit(c: bv32, low: bv32, high: bv32)
    requires low == LowByteOf(c) && high == c >> 8
    ensures c == low ^ (high << 8) && high & !0xFF_FFFF == 0
  {
  }

  lemma JoinIs(low: bv32, high: bv32, x: bv32)
    requires x == REGISTER.xor(low, REGISTER.Doubles(BYTE, high))
    ensures x == low ^ (high << 8)
  {
    var d := REGISTER.Doubles(BYTE, high);
    DoublesByte(high);
    XorIs(low, d, x);
  }

  lemma WordIsParts(w: bv32, low: bv32, high: bv32, x: bv32)
    requires low == LowByteOf(w) && high == w >> 8 && x == REGISTER.xor(low, REGISTER.Doubles(BYTE, high))
    ensures w == x && REGISTER.fits(24, high)
  {
    LowByteSplit(w, low, high);
    JoinIs(low, high, x);
    ThreeBytesFit(high);
  }

  lemma PeelParts(n: nat, w: bv32, low: bv32, high: bv32)
    requires w == REGISTER.xor(low, REGISTER.Doubles(BYTE, high)) && REGISTER.fits(24, high)
    ensures REGISTER.Shifts(BYTE + n, w) == REGISTER.xor(REGISTER.Shifts(BYTE + n, low), REGISTER.Shifts(n, high))
  {
    RegisterLaws();
    ShiftsPeel(REGISTER, 24, BYTE, n, low, high);
  }

  /** Peels the low byte off a word that is being shifted out. */
  lemma PeelByte(n: nat, w: bv32, low: bv32, high: bv32)
    requires low == LowByteOf(w) && high == w >> 8
    ensures REGISTER.Shifts(BYTE + n, w) == REGISTER.xor(REGISTER.Shifts(BYTE + n, low), REGISTER.Shifts(n, high))
  {
    WordIsParts(w, low, high, REGISTER.xor(low, REGISTER.Doubles(BYTE, high)));
    PeelParts(n, w, low, high);
  }

  lemma ThreeBytesFit(w: bv32)
    requires w & !0xFF_FFFF == 0
    ensures REGISTER.fits(24, w)
  {
    LowValues();
  }

  /** One lookup in the first table shifts out a whole byte. */
  lemma AdvanceIsShifts(lookup: Tables, c: bv32, high: bv32, f: bv32, r: bv32)
    requires Generated(lookup) && high == c >> 8 && f == lookup(0, LowByte(c)) && r == high ^ f
    ensures r == REGISTER.Shifts(BYTE, c)
  {
    assert At(0, LowByte(c));
    PeelByte(0, c, LowByteOf(c), high);
    XorIs(f, high, REGISTER.xor(f, high));
  }

  /** Table `k` shifts a byte out through k + 1 bytes. */
  lemma {:induction false} LookupIsShifts(lookup: Tables, k: nat, i: bv8)
    requires Generated(lookup)
    ensures lookup(k, i) == REGISTER.Shifts(8 * k + 8, i as bv32)
  {
    assert At(k, i);
    if k > 0 {
      LookupIsShifts(lookup, k - 1, i);
      var c := lookup(k - 1, i);
      AdvanceIsShifts(lookup, c, c >> 8, lookup(0, LowByte(c)), lookup(k, i));
      ShiftsAdd(REGISTER, 8 * k, BYTE, i as bv32);
    }
  }

  // ---------- Bytes and words ----------

  lemma ByteFits(w: bv32)
    requires w < 256
    ensures REGISTER.fits(BYTE, w)
  {
    LowValues();
  }

  lemma WordOfByte(b: bv8, w: bv32)
    requires w == b as bv32
    ensures REGISTER.Word(REGISTER.LowBits(BYTE, w)) == w
  {
    RegisterLaws();
    ByteFits(w);
    WordOfLowBits(REGISTER, BYTE, w);
  }

  /** Four bytes read as a little-endian word. */
  function Load(b0: bv8, b1: bv8, b2: bv8, b3: bv8): bv32 {
    (b0 as bv32) | ((b1 as bv32) << 8) | ((b2 as bv32) << 16) | ((b3 as bv32) << 24)
  }

  lemma ConsByte(b: bv8, data: seq<bv8>, low: bv32, w: bv32, r: bv32)
    requires low == b as bv32 && REGISTER.Word(Bits(data)) == w && r == low ^ (w << 8)
    ensures REGISTER.Word(Bits([b] + data)) == r
  {
    RegisterLaws();
    assert ([b] + data)[1..] == data;
    WordConcat(REGISTER, REGISTER.LowBits(BYTE, low), Bits(data));
    WordOfByte(b, low);
    JoinIs(low, w, REGISTER.xor(low, REGISTER.Doubles(BYTE, w)));
  }

  lemma WordOfFour(b0: bv8, b1: bv8, b2: bv8, b3: bv8, l0: bv32, l1: bv32, l2: bv32, l3: bv32,
                   w0: bv32, w1: bv32, w2: bv32, w3: bv32)
    requires l0 == b0 as bv32 && l1 == b1 as bv32 && l2 == b2 as bv32 && l3 == b3 as bv32
    requires w3 == l3 ^ (0 << 8) && w2 == l2 ^ (w3 << 8) && w1 == l1 ^ (w2 << 8) && w0 == l0 ^ (w1 << 8)
    ensures REGISTER.Word(Bits([b0, b1, b2, b3])) == w0
  {
    assert [b3] + [] == [b3] && [b2] + [b3] == [b2, b3] && [b1] + [b2, b3] == [b1, b2, b3];
    assert [b0] + [b1, b2, b3] == [b0, b1, b2, b3];
    ConsByte(b3, [], l3, 0, w3);
    ConsByte(b2, [b3], l2, w3, w2);
    ConsByte(b1, [b2, b3], l1, w2, w1);
    ConsByte(b0, [b1, b2, b3], l0, w1, w0);
  }

  lemma LoadJoins(b0: bv8, b1: bv8, b2: bv8, b3: bv8)
    ensures Load(b0, b1, b2, b3) ==
            (b0 as bv32) ^ (((b1 as bv32) ^ (((b2 as bv32) ^ (((b3 as bv32) ^ (0 << 8)) << 8)) << 8)) << 8)
  {
  }

  lemma LoadChain(b0: bv8, b1: bv8, b2: bv8, b3: bv8, w: bv32)
    returns (l0: bv32, l1: bv32, l2: bv32, l3: bv32, w1: bv32, w2: bv32, w3: bv32)
    requires w == Load(b0, b1, b2, b3)
    ensures l0 == b0 as bv32 && l1 == b1 as bv32 && l2 == b2 as bv32 && l3 == b3 as bv32
    ensures w3 == l3 ^ (0 << 8) && w2 == l2 ^ (w3 << 8) && w1 == l1 ^ (w2 << 8) && w == l0 ^ (w1 << 8)
  {
    l0, l1, l2, l3 := b0 as bv32, b1 as bv32, b2 as bv32, b3 as bv32;
    w3 := l3 ^ (0 << 8);
    w2 := l2 ^ (w3 << 8);
    w1 := l1 ^ (w2 << 8);
    LoadJoins(b0, b1, b2, b3);
  }

  lemma LoadIsWord(b0: bv8, b1: bv8, b2: bv8, b3: bv8, w: bv32)
    requires w == Load(b0, b1, b2, b3)
    ensures REGISTER.Word(Bits([b0, b1, b2, b3])) == w
  {
    var l0, l1, l2, l3, w1, w2, w3 := LoadChain(b0, b1, b2, b3, w);
    WordOfFour(b0, b1, b2, b3, l0, l1, l2, l3, w, w1, w2, w3);
  }

  // ---------- One round of the loop ----------

  lemma LookupIs(lookup: Tables, k: nat, w: bv32, l: bv32, t: bv32)
    requires Generated(lookup) && t == lookup(k, LowByte(w)) && l == LowByteOf(w)
    ensures t == REGISTER.Shifts(8 * k + 8, l)
  {
    LookupIsShifts(lookup, k, LowByte(w));
  }

  lemma PeelLookup(lookup: Tables, k: nat, w: bv32, high: bv32, t: bv32, r: bv32, u: bv32)
    requires Generated(lookup) && high == w >> 8 && t == lookup(k, LowByte(w))
    requires r == REGISTER.Shifts(8 * k + 8, w) && u == REGISTER.Shifts(8 * k, high)
    ensures r == REGISTER.xor(t, u)
  {
    var l := LowByteOf(w);
    LookupIs(lookup, k, w, l, t);
    PeelByte(8 * k, w, l, high);
  }

  lemma LastLookups(lookup: Tables, k: nat, w: bv32, high: bv32, t0: bv32, t1: bv32, r: bv32)
    requires Generated(lookup) && high == w >> 8 && high == LowByteOf(high)
    requires t0 == lookup(k + 1, LowByte(w)) && t1 == lookup(k, LowByte(high))
    requires r == REGISTER.Shifts(8 * k + 16, w)
    ensures r == REGISTER.xor(t0, t1)
  {
    LookupIs(lookup, k, high, high, t1);
    PeelLookup(lookup, k + 1, w, high, t0, r, t1);
  }

  /** A whole word is shifted out by one lookup for each of its bytes. */
  lemma WordIsLookups(lookup: Tables, k: nat, w: bv32, h1: bv32, h2: bv32, h3: bv32,
                      t0: bv32, t1: bv32, t2: bv32, t3: bv32, r: bv32)
    returns (u1: bv32, u2: bv32)
    requires Generated(lookup) && h1 == w >> 8 && h2 == h1 >> 8 && h3 == h2 >> 8
    requires t0 == lookup(k + 3, LowByte(w)) && t1 == lookup(k + 2, LowByte(h1))
    requires t2 == lookup(k + 1, LowByte(h2)) && t3 == lookup(k, LowByte(h3))
    requires r == REGISTER.Shifts(8 * k + 32, w)
    ensures r == REGISTER.xor(t0, u1) && u1 == REGISTER.xor(t1, u2) && u2 == REGISTER.xor(t2, t3)
  {
    u1, u2 := REGISTER.Shifts(8 * k + 24, h1), REGISTER.Shifts(8 * k + 16, h2);
    TopByte(w, h1, h2, h3);
    PeelLookup(lookup, k + 3, w, h1, t0, r, u1);
    PeelLookup(lookup, k + 2, h1, h2, t1, u1, u2);
    LastLookups(lookup, k, h2, h3, t2, t3, u2);
  }

  lemma TopByte(w: bv32, h1: bv32, h2: bv32, h3: bv32)
    requires h1 == w >> 8 && h2 == h1 >> 8 && h3 == h2 >> 8
    ensures h3 == LowByteOf(h3)
  {
  }

  lemma FedEight(c: bv32, x: seq<bv8>, w: bv32, two: bv32, one: bv32, t: bv32, u: bv32)
    requires |x| == 8 && w == Load(x[0], x[1], x[2], x[3]) && two == Load(x[4], x[5], x[6], x[7])
    requires one == REGISTER.xor(c, w)
    requires t == REGISTER.Shifts(8 * BYTE, one) && u == REGISTER.Shifts(4 * BYTE, two)
    ensures Fed(c, x) == REGISTER.xor(t, u)
  {
    RegisterLaws();
    var front, back := [x[0], x[1], x[2], x[3]], [x[4], x[5], x[6], x[7]];
    assert x == front + back;
    BitsConcat(front, back);
    LoadIsWord(x[0], x[1], x[2], x[3], w);
    LoadIsWord(x[4], x[5], x[6], x[7], two);
    SerialTwoWords(REGISTER, c, Bits(front), Bits(back));
  }

  lemma Highs(w: bv32) returns (h1: bv32, h2: bv32, h3: bv32)
    ensures h1 == w >> 8 && h2 == h1 >> 8 && h3 == h2 >> 8 && h2 == w >> 16 && h3 == w >> 24
  {
    h1, h2, h3 := w >> 8, w >> 16, w >> 24;
    SecondByte(w, h1, h2);
    ThirdByte(w, h2, h3);
  }

  lemma SecondByte(w: bv32, h1: bv32, h2: bv32)
    requires h1 == w >> 8 && h2 == w >> 16
    ensures h2 == h1 >> 8
  {
  }

  lemma ThirdByte(w: bv32, h2: bv32, h3: bv32)
    requires h2 == w >> 16 && h3 == w >> 24
    ensures h3 == h2 >> 8
  {
  }

  /** `r` is the sum of the eight lookups of one round, added from the left. */
  ghost predicate RoundSum(lookup: Tables, one: bv32, two: bv32, a0: bv32, s1: bv32, s2: bv32, s3: bv32,
                           s4: bv32, s5: bv32, s6: bv32, r: bv32)
  {
    && a0 == lookup(7, LowByte(one))
    && s1 == REGISTER.xor(a0, lookup(6, LowByte(one >> 8)))
    && s2 == REGISTER.xor(s1, lookup(5, LowByte(one >> 16)))
    && s3 == REGISTER.xor(s2, lookup(4, LowByte(one >> 24)))
    && s4 == REGISTER.xor(s3, lookup(3, LowByte(two)))
    && s5 == REGISTER.xor(s4, lookup(2, LowByte(two >> 8)))
    && s6 == REGISTER.xor(s5, lookup(1, LowByte(two >> 16)))
    && r == REGISTER.xor(s6, lookup(0, LowByte(two >> 24)))
  }

  lemma FrontIsShifts(lookup: Tables, one: bv32, a0: bv32, s1: bv32, s2: bv32, s3: bv32)
    requires Generated(lookup) && a0 == lookup(7, LowByte(one))
    requires s1 == REGISTER.xor(a0, lookup(6, LowByte(one >> 8)))
    requires s2 == REGISTER.xor(s1, lookup(5, LowByte(one >> 16)))
    requires s3 == REGISTER.xor(s2, lookup(4, LowByte(one >> 24)))
    ensures s3 == REGISTER.Shifts(8 * BYTE, one)
  {
    var h1, h2, h3 := Highs(one);
    var a1, a2, a3 := lookup(6, LowByte(h1)), lookup(5, LowByte(h2)), lookup(4, LowByte(h3));
    var t := REGISTER.Shifts(8 * BYTE, one);
    var t1, t2 := WordIsLookups(lookup, 4, one, h1, h2, h3, a0, a1, a2, a3, t);
    GroupLaw();
    AddFour(REGISTER, 0, a0, a1, a2, a3);
    assert At1(a0) && At1(t);
  }

  lemma BackIsShifts(lookup: Tables, two: bv32, s3: bv32, s4: bv32, s5: bv32, s6: bv32, r: bv32)
    requires Generated(lookup)
    requires s4 == REGISTER.xor(s3, lookup(3, LowByte(two)))
    requires s5 == REGISTER.xor(s4, lookup(2, LowByte(two >> 8)))
    requires s6 == REGISTER.xor(s5, lookup(1, LowByte(two >> 16)))
    requires r == REGISTER.xor(s6, lookup(0, LowByte(two >> 24)))
    ensures r == REGISTER.xor(s3, REGISTER.Shifts(4 * BYTE, two))
  {
    var h1, h2, h3 := Highs(two);
    var b0, b1 := lookup(3, LowByte(two)), lookup(2, LowByte(h1));
    var b2, b3 := lookup(1, LowByte(h2)), lookup(0, LowByte(h3));
    var u := REGISTER.Shifts(4 * BYTE, two);
    var u1, u2 := WordIsLookups(lookup, 0, two, h1, h2, h3, b0, b1, b2, b3, u);
    GroupLaw();
    AddFour(REGISTER, s3, b0, b1, b2, b3);
  }

  /** One round feeds eight bytes. */
  lemma RoundIsFed(lookup: Tables, c: bv32, x: seq<bv8>, w: bv32, one: bv32, two: bv32, a0: bv32, s1: bv32,
                   s2: bv32, s3: bv32, s4: bv32, s5: bv32, s6: bv32, r: bv32)
    requires Generated(lookup) && |x| == 8 && one == REGISTER.xor(c, w)
    requires w == Load(x[0], x[1], x[2], x[3]) && two == Load(x[4], x[5], x[6], x[7])
    requires RoundSum(lookup, one, two, a0, s1, s2, s3, s4, s5, s6, r)
    ensures r == Fed(c, x)
  {
    FedEight(c, x, w, two, one, REGISTER.Shifts(8 * BYTE, one), REGISTER.Shifts(4 * BYTE, two));
    FrontIsShifts(lookup, one, a0, s1, s2, s3);
    BackIsShifts(lookup, two, s3, s4, s5, s6, r);
  }

  lemma IsXor(a: bv32, b: bv32, r: bv32)
    requires r == a ^ b
    ensures r == REGISTER.xor(a, b)
  {
    XorIs(a, b, REGISTER.xor(a, b));
  }

  lemma FedOne(c: bv32, b: bv8, low: bv32, x: bv32)
    requires low == b as bv32 && x == c ^ low
    ensures Fed(c, [b]) == REGISTER.Shifts(BYTE, x)
  {
    RegisterLaws();
    assert [b] + [] == [b];
    NoHigherByte(low);
    ConsByte(b, [], low, 0, low);
    SerialIsShifts(REGISTER, c, Bits([b]));
    XorIs(c, low, REGISTER.xor(c, low));
  }

  lemma NoHigherByte(low: bv32)
    ensures low == low ^ (0 << 8)
  {
  }

  lemma TailHigh(c: bv32, low: bv32, x: bv32)
    requires low < 256 && x == c ^ low
    ensures x >> 8 == c >> 8
  {
  }

  lemma TailLow(c: bv32, b: bv8, low: bv32, x: bv32)
    requires low == b as bv32 && x == c ^ low
    ensures LowByte(x) == LowByte(c) ^ b
  {
  }

  /** One lookup of the byte tail feeds one byte. */
  lemma TailIsFed(lookup: Tables, c: bv32, b: bv8, low: bv32, x: bv32, high: bv32, f: bv32, r: bv32)
    requires Generated(lookup) && low == b as bv32 && x == c ^ low && high == c >> 8
    requires f == lookup(0, LowByte(c) ^ b) && r == high ^ f
    ensures r == Fed(c, [b])
  {
    TailHigh(c, low, x);
    TailLow(c, b, low, x);
    AdvanceIsShifts(lookup, x, high, f, r);
    FedOne(c, b, low, x);
  }

  // ---------- The algorithm ----------

  method Add(a: bv32, b: bv32) returns (r: bv32)
    ensures r == REGISTER.xor(a, b)
  {
    r := a ^ b;
    IsXor(a, b, r);
  }

  /** The body of the eight-byte loop. */
  method EightBytes(lookup: Tables, crc: bv32, x: seq<bv8>) returns (r: bv32)
    requires Generated(lookup) && |x| == 8
    ensures r == Fed(crc, x)
  {
    var first := Load(x[0], x[1], x[2], x[3]);
    var one := Add(crc, first);
    var two := Load(x[4], x[5], x[6], x[7]);
    var s0 := lookup(7, LowByte(one));
    var s1 := Add(s0, lookup(6, LowByte(one >> 8)));
    var s2 := Add(s1, lookup(5, LowByte(one >> 16)));
    var s3 := Add(s2, lookup(4, LowByte(one >> 24)));
    var s4 := Add(s3, lookup(3, LowByte(two)));
    var s5 := Add(s4, lookup(2, LowByte(two >> 8)));
    var s6 := Add(s5, lookup(1, LowByte(two >> 16)));
    r := Add(s6, lookup(0, LowByte(two >> 24)));
    RoundIsFed(lookup, crc, x, first, one, two, s0, s1, s2, s3, s4, s5, s6, r);
  }

  /** The body of the byte loop. */
  method OneByte(lookup: Tables, crc: bv32, x: seq<bv8>) returns (r: bv32)
    requires Generated(lookup) && |x| == 1
    ensures r == Fed(crc, x)
  {
    var b, high := x[0], crc >> 8;
    var f := lookup(0, LowByte(crc) ^ b);
    r := high ^ f;
    TailIsFed(lookup, crc, b, b as bv32, crc ^ (b as bv32), high, f, r);
    assert x == [b];
  }

  /** Slicing-by-8 with a byte tail computes the CRC of RFC 1952. */
  method Get(lookup: Tables, data: seq<bv8>, seed: bv32) returns (crc: bv32)
    requires Generated(lookup)
    ensures crc == Reference(data, seed)
  {
    var cur := 0;
    crc := !seed;
    while |data| - cur >= 8
      invariant 0 <= cur <= |data|
      invariant crc == Fed(!seed, data[..cur])
    {
      crc := EightBytes(lookup, crc, data[cur..cur + 8]);
      FedConcat(!seed, data[..cur], data[cur..cur + 8]);
      assert data[..cur + 8] == data[..cur] + data[cur..cur + 8];
      cur := cur + 8;
    }
    while cur < |data|
      invariant 0 <= cur <= |data|
      invariant crc == Fed(!seed, data[..cur])
    {
      crc := OneByte(lookup, crc, data[cur..cur + 1]);
      FedConcat(!seed, data[..cur], data[cur..cur + 1]);
      assert data[..cur + 1] == data[..cur] + data[cur..cur + 1];
      cur := cur + 1;
    }
    assert data[..cur] == data;
    crc := !crc;
  }

  // ---------- What the CRC promises ----------

  lemma NotNot(c: bv32, n: bv32)
    requires n == !c
    ensures !n == c
  {
  }

  lemma ReferenceIs(data: seq<bv8>, seed: bv32, start: bv32, end: bv32)
    requires start == !seed && end == Fed(start, data)
    ensures Reference(data, seed) == !end
  {
  }

  /** A CRC can be computed in pieces. */
  lemma Chaining(x: seq<bv8>, y: seq<bv8>, seed: bv32)
    ensures Reference(x + y, seed) == Reference(y, Reference(x, seed))
  {
    var start := !seed;
    var mid := Fed(start, x);
    var end := Fed(mid, y);
    FedConcat(start, x, y);
    ReferenceIs(x, seed, start, mid);
    ReferenceIs(x + y, seed, start, end);
    NotNot(mid, Reference(x, seed));
    ReferenceIs(y, Reference(x, seed), mid, end);
  }

  lemma FeedByte(c: bv32, b: bv8, low: bv32, x: bv32, r: bv32)
    requires low == b as bv32 && x == c ^ low && r == Eight(x)
    ensures Fed(c, [b]) == r
  {
    FedOne(c, b, low, x);
    ShiftsAreEight(x);
  }

  lemma FedThree(c: bv32, a: bv8, b: bv8, d: bv8)
    ensures Fed(c, [a, b, d]) == Fed(Fed(Fed(c, [a]), [b]), [d])
  {
    FedConcat(c, [a], [b]);
    FedConcat(c, [a] + [b], [d]);
    assert [a] + [b] + [d] == [a, b, d];
  }

  lemma Digits123()
    ensures Fed(0xFFFF_FFFF, [0x31, 0x32, 0x33]) == 0x77B7_9C2D
  {
    FeedByte(0xFFFF_FFFF, 0x31, 0x31, 0xFFFF_FFCE, 0x7C23_1048);
    FeedByte(0x7C23_1048, 0x32, 0x32, 0x7C23_107A, 0xB0AC_BB32);
    FeedByte(0xB0AC_BB32, 0x33, 0x33, 0xB0AC_BB01, 0x77B7_9C2D);
    FedThree(0xFFFF_FFFF, 0x31, 0x32, 0x33);
  }

  lemma Digits456()
    ensures Fed(0x77B7_9C2D, [0x34, 0x35, 0x36]) == 0xF68D_2C9E
  {
    FeedByte(0x77B7_9C2D, 0x34, 0x34, 0x77B7_9C19, 0x641C_1F5C);
    FeedByte(0x641C_1F5C, 0x35, 0x35, 0x641C_1F69, 0x340A_C5E3);
    FeedByte(0x340A_C5E3, 0x36, 0x36, 0x340A_C5D5, 0xF68D_2C9E);
    FedThree(0x77B7_9C2D, 0x34, 0x35, 0x36);
  }

  lemma Digits789()
    ensures Fed(0xF68D_2C9E, [0x37, 0x38, 0x39]) == 0x340B_C6D9
  {
    FeedByte(0xF68D_2C9E, 0x37, 0x37, 0xF68D_2CA9, 0xAFFC_9660);
    FeedByte(0xAFFC_9660, 0x38, 0x38, 0xAFFC_9658, 0x651F_2550);
    FeedByte(0x651F_2550, 0x39, 0x39, 0x651F_2569, 0x340B_C6D9);
    FedThree(0xF68D_2C9E, 0x37, 0x38, 0x39);
  }

  lemma InThreeParts(a: seq<bv8>, b: seq<bv8>, d: seq<bv8>, seed: bv32, start: bv32, c: bv32, c': bv32, end: bv32)
    requires start == !seed && Fed(start, a) == c && Fed(c, b) == c' && Fed(c', d) == end
    ensures Reference(a + b + d, seed) == !end
  {
    FedConcat(start, a, b);
    FedConcat(start, a + b, d);
    ReferenceIs(a + b + d, seed, start, end);
  }

  lemma Joined(s: seq<bv8>)
    requires |s| == 9
    ensures [s[0], s[1], s[2]] + [s[3], s[4], s[5]] + [s[6], s[7], s[8]] == s
  {
  }

  /** The check value by which CRC-32 is known: the one of the digits 1 to 9. */
  lemma CheckValue()
    ensures Reference([0x31, 0x32, 0x33, 0x34, 0x35, 0x36, 0x37, 0x38, 0x39], 0) == 0xCBF4_3926
  {
    Digits123();
    Digits456();
    Digits789();
    InThreeParts([0x31, 0x32, 0x33], [0x34, 0x35, 0x36], [0x37, 0x38, 0x39],
                 0, 0xFFFF_FFFF, 0x77B7_9C2D, 0xF68D_2C9E, 0x340B_C6D9);
    Joined([0x31, 0x32, 0x33, 0x34, 0x35, 0x36, 0x37, 0x38, 0x39]);
  }

  lemma BitsHead(x: seq<bv8>)
    requires x != []
    ensures Bits(x)[..8] == REGISTER.LowBits(BYTE, x[0] as bv32) && Bits(x)[8..] == Bits(x[1..])
  {
  }

  lemma ByteInjective(a: bv8, b: bv8, u: bv32, v: bv32)
    requires u == a as bv32 && v == b as bv32 && REGISTER.LowBits(BYTE, u) == REGISTER.LowBits(BYTE, v)
    ensures a == b
  {
    WordOfByte(a, u);
    WordOfByte(b, v);
    SameByte(a, b, u, v);
  }

  lemma {:induction false} BitsInjective(x: seq<bv8>, y: seq<bv8>)
    requires |x| == |y| && Bits(x) == Bits(y)
    ensures x == y
  {
    if x != [] {
      BitsHead(x);
      BitsHead(y);
      ByteInjective(x[0], y[0], x[0] as bv32, y[0] as bv32);
      BitsInjective(x[1..], y[1..]);
      assert x == [x[0]] + x[1..] && y == [y[0]] + y[1..];
    }
  }

  lemma SameByte(a: bv8, b: bv8, u: bv32, v: bv32)
    requires u == a as bv32 && v == b as bv32 && u == v
    ensures a == b
  {
  }

  lemma NotInjective(a: bv32, b: bv32)
    requires !a == !b
    ensures a == b
  {
  }

  lemma FedDiffers(c: bv32, x: seq<bv8>, y: seq<bv8>, i: nat, n: nat)
    requires |x| == |y| && x != y && n <= 32 && i + n <= 8 * |x|
    requires Bits(x)[..i] == Bits(y)[..i] && Bits(x)[i + n..] == Bits(y)[i + n..]
    ensures Fed(c, x) != Fed(c, y)
  {
    var p, s := Bits(x)[..i], Bits(x)[i + n..];
    var u, v := Bits(x)[i..i + n], Bits(y)[i..i + n];
    assert Bits(x) == p + u + s && Bits(y) == p + v + s;
    if u == v {
      BitsInjective(x, y);
    }
    RegisterLaws();
    BurstDetected(REGISTER, c, p, u, v, s);
  }

  /** A burst of at most 32 bits never goes unnoticed, wherever it starts. */
  lemma BitBurst(x: seq<bv8>, y: seq<bv8>, seed: bv32, i: nat, n: nat)
    requires |x| == |y| && x != y && n <= 32 && i + n <= 8 * |x|
    requires Bits(x)[..i] == Bits(y)[..i] && Bits(x)[i + n..] == Bits(y)[i + n..]
    ensures Reference(x, seed) != Reference(y, seed)
  {
    var start := !seed;
    var a, b := Fed(start, x), Fed(start, y);
    FedDiffers(start, x, y, i, n);
    ReferenceIs(x, seed, start, a);
    ReferenceIs(y, seed, start, b);
    if Reference(x, seed) == Reference(y, seed) {
      NotInjective(a, b);
    }
  }

  lemma Parts<T>(whole: seq<T>, front: seq<T>, back: seq<T>, n: nat)
    requires whole == front + back && |front| == n
    ensures n <= |whole| && whole[..n] == front && whole[n..] == back
  {
  }

  lemma BitsOfParts(x: seq<bv8>, front: seq<bv8>, back: seq<bv8>)
    requires x == front + back
    ensures Bits(x) == Bits(front) + Bits(back) && |Bits(front)| == 8 * |front|
  {
    BitsConcat(front, back);
  }

  lemma BitsSplit(x: seq<bv8>, k: nat)
    requires k <= |x|
    ensures Bits(x)[..8 * k] == Bits(x[..k]) && Bits(x)[8 * k..] == Bits(x[k..])
  {
    var front, back := x[..k], x[k..];
    BitsOfParts(x, front, back);
    Parts(Bits(x), Bits(front), Bits(back), 8 * k);
  }

  lemma SamePrefix(x: seq<bv8>, y: seq<bv8>, k: nat)
    requires k <= |x| == |y| && x[..k] == y[..k]
    ensures Bits(x)[..8 * k] == Bits(y)[..8 * k]
  {
    BitsSplit(x, k);
    BitsSplit(y, k);
  }

  lemma SameSuffix(x: seq<bv8>, y: seq<bv8>, k: nat)
    requires k <= |x| == |y| && x[k..] == y[k..]
    ensures Bits(x)[8 * k..] == Bits(y)[8 * k..]
  {
    BitsSplit(x, k);
    BitsSplit(y, k);
  }

  /** Messages that differ only within four consecutive bytes have different CRCs. */
  lemma ByteBurst(x: seq<bv8>, y: seq<bv8>, seed: bv32, i: nat, k: nat)
    requires |x| == |y| && x != y && k <= 4 && i + k <= |x|
    requires x[..i] == y[..i] && x[i + k..] == y[i + k..]
    ensures Reference(x, seed) != Reference(y, seed)
  {
    SamePrefix(x, y, i);
    SameSuffix(x, y, i + k);
    var from, n := 8 * i, 8 * k;
    assert from + n == 8 * (i + k);
    BitBurst(x, y, seed, from, n);
  }
}
