/** The theory of a linear feedback shift register, over any carrier with an
    exclusive-or. It knows nothing of bit vectors: CRC-32 is one instance of it.
 */
module ShiftRegister {

  /** A register: `shift` moves it one place, `double` and `half` move a
      plain word, `fits(n, w)` says that only the `n` lowest places of `w` are in use and `odd`
      reads the lowest one. */
  datatype Register<!R> = Register(
    zero: R,
    one: R,
    xor: (R, R) -> R,
    shift: R -> R,
    double: R -> R,
    half: R -> R,
    odd: R -> bool,
    fits: (nat, R) -> bool,
    width: nat)
  {
    function Bit(b: bool): R {
      if b then one else zero
    }

    /** Applies `shift` n times. */
    function Shifts(n: nat, c: R): R {
      if n == 0 then c else Shifts(n - 1, shift(c))
    }

    /** Applies `double` n times. */
    function Doubles(n: nat, c: R): R {
      if n == 0 then c else double(Doubles(n - 1, c))
    }

    /** Feeds message bits into the register, one at a time. */
    function Serial(c: R, bits: seq<bool>): R
      decreases |bits|
    {
      if bits == [] then c else Serial(shift(xor(c, Bit(bits[0]))), bits[1..])
    }

    /** The n lowest bits of a word, lowest first. */
    function LowBits(n: nat, w: R): (bits: seq<bool>)
      ensures |bits| == n
    {
      if n == 0 then [] else [odd(w)] + LowBits(n - 1, half(w))
    }

    /** Bits packed into a word, first bit lowest. */
    function Word(bits: seq<bool>): R
      decreases |bits|
    {
      if bits == [] then zero else xor(Bit(bits[0]), double(Word(bits[1..])))
    }
  }

  // Each names the values a law is applied to: the laws below are instantiated only where a
  // proof says so.

  ghost predicate At1<R>(a: R) {
    true
  }

  ghost predicate At2<R>(a: R, b: R) {
    true
  }

  ghost predicate At3<R>(a: R, b: R, c: R) {
    true
  }

  ghost predicate AtRoom<R>(n: nat, w: R, b: bool) {
    true
  }

  ghost predicate AtHalf<R>(n: nat, w: R) {
    true
  }

  /** Exclusive-or is associative with unit `zero`, and every element is its own inverse. */
  ghost predicate Group<R(!new)>(r: Register<R>) {
    && (forall a, b, c {:trigger At3(a, b, c)} :: At3(a, b, c) ==> r.xor(a, r.xor(b, c)) == r.xor(r.xor(a, b), c))
    && (forall a {:trigger At1(a)} :: At1(a) ==> r.xor(r.zero, a) == a == r.xor(a, r.zero) && r.xor(a, a) == r.zero)
  }

  /** Shifting is linear and injective. */
  ghost predicate Linear<R(!new)>(r: Register<R>) {
    forall a, b {:trigger At2(a, b)} :: At2(a, b) ==>
      && r.shift(r.xor(a, b)) == r.xor(r.shift(a), r.shift(b))
      && r.double(r.xor(a, b)) == r.xor(r.double(a), r.double(b))
      && (r.shift(a) == r.shift(b) ==> a == b)
  }

  /** While there is room, `shift` undoes `double`, and `odd` reads the bit just put in. */
  ghost predicate Room<R(!new)>(r: Register<R>) {
    && r.fits(0, r.zero)
    && (forall n: nat, w, b {:trigger AtRoom(n, w, b)} :: AtRoom(n, w, b) && r.fits(n, w) ==>
          && r.fits(n + 1, r.xor(r.Bit(b), r.double(w)))
          && r.fits(n + 1, r.double(w))
          && (n < r.width ==> r.shift(r.double(w)) == w)
          && r.odd(r.xor(r.Bit(b), r.double(w))) == b)
  }

  /** A word is its lowest bit and twice its half. */
  ghost predicate Halves<R(!new)>(r: Register<R>) {
    && (forall w {:trigger At1(w)} :: At1(w) && r.fits(0, w) ==> w == r.zero)
    && (forall n: nat, w {:trigger AtHalf(n, w)} :: AtHalf(n, w) && r.fits(n + 1, w) ==>
          r.fits(n, r.half(w)) && w == r.xor(r.Bit(r.odd(w)), r.double(r.half(w))))
  }

  ghost predicate Laws<R(!new)>(r: Register<R>) {
    Group(r) && Linear(r) && Room(r) && Halves(r)
  }

  lemma Cancel<R(!new)>(r: Register<R>, a: R, b: R, c: R)
    requires Group(r)
    ensures r.xor(a, b) == r.xor(a, c) ==> b == c
    ensures r.xor(b, a) == r.xor(c, a) ==> b == c
  {
    assert At3(a, a, b) && At3(a, a, c) && At3(b, a, a) && At3(c, a, a);
    assert At1(a) && At1(b) && At1(c);
  }

  lemma {:induction false} ShiftsLinear<R(!new)>(r: Register<R>, n: nat, a: R, b: R)
    requires Linear(r)
    ensures r.Shifts(n, r.xor(a, b)) == r.xor(r.Shifts(n, a), r.Shifts(n, b))
  {
    if n > 0 {
      assert At2(a, b);
      ShiftsLinear(r, n - 1, r.shift(a), r.shift(b));
    }
  }

  lemma {:induction false} ShiftsInjective<R(!new)>(r: Register<R>, n: nat, a: R, b: R)
    requires Linear(r) && r.Shifts(n, a) == r.Shifts(n, b)
    ensures a == b
  {
    if n > 0 {
      ShiftsInjective(r, n - 1, r.shift(a), r.shift(b));
      assert At2(a, b);
    }
  }

  lemma {:induction false} ShiftsAdd<R>(r: Register<R>, m: nat, n: nat, c: R)
    ensures r.Shifts(m + n, c) == r.Shifts(n, r.Shifts(m, c))
  {
    if m > 0 {
      ShiftsAdd(r, m - 1, n, r.shift(c));
    }
  }

  lemma {:induction false} ShiftsUndoDoubles<R(!new)>(r: Register<R>, n: nat, k: nat, w: R)
    requires Room(r) && r.fits(n, w) && n + k <= r.width
    ensures r.Shifts(k, r.Doubles(k, w)) == w && r.fits(n + k, r.Doubles(k, w))
  {
    if k > 0 {
      ShiftsUndoDoubles(r, n, k - 1, w);
      assert AtRoom(n + (k - 1), r.Doubles(k - 1, w), true);
    }
  }

  lemma {:induction false} WordFits<R(!new)>(r: Register<R>, bits: seq<bool>)
    requires Room(r)
    ensures r.fits(|bits|, r.Word(bits))
    decreases |bits|
  {
    if bits != [] {
      WordFits(r, bits[1..]);
      assert AtRoom(|bits[1..]|, r.Word(bits[1..]), bits[0]);
    }
  }

  lemma {:induction false} WordOfLowBits<R(!new)>(r: Register<R>, n: nat, w: R)
    requires Halves(r) && r.fits(n, w)
    ensures r.Word(r.LowBits(n, w)) == w
  {
    if n == 0 {
      assert At1(w);
    } else {
      assert AtHalf(n - 1, w);
      WordOfLowBits(r, n - 1, r.half(w));
      assert r.LowBits(n, w)[1..] == r.LowBits(n - 1, r.half(w));
    }
  }

  /** Feeding as many bits as the register is wide, or fewer, is adding them all at once and
      then shifting. */
  lemma {:induction false} SerialIsShifts<R(!new)>(r: Register<R>, c: R, bits: seq<bool>)
    requires Laws(r) && |bits| <= r.width
    ensures r.Serial(c, bits) == r.Shifts(|bits|, r.xor(c, r.Word(bits)))
    decreases |bits|
  {
    if bits == [] {
      assert At1(c);
    } else {
      var b, w := r.Bit(bits[0]), r.Word(bits[1..]);
      WordFits(r, bits[1..]);
      SerialIsShifts(r, r.shift(r.xor(c, b)), bits[1..]);
      assert AtRoom(|bits[1..]|, w, bits[0]) && At3(c, b, r.double(w)) && At2(r.xor(c, b), r.double(w));
    }
  }

  lemma {:induction false} SerialConcat<R>(r: Register<R>, c: R, x: seq<bool>, y: seq<bool>)
    ensures r.Serial(c, x + y) == r.Serial(r.Serial(c, x), y)
    decreases |x|
  {
    if x == [] {
      assert x + y == y;
    } else {
      assert (x + y)[1..] == x[1..] + y;
      SerialConcat(r, r.shift(r.xor(c, r.Bit(x[0]))), x[1..], y);
    }
  }

  /** The state before a message can be recovered from the state after it. */
  lemma {:induction false} SerialInjective<R(!new)>(r: Register<R>, a: R, b: R, bits: seq<bool>)
    requires Laws(r) && r.Serial(a, bits) == r.Serial(b, bits)
    ensures a == b
    decreases |bits|
  {
    if bits != [] {
      var x := r.Bit(bits[0]);
      SerialInjective(r, r.shift(r.xor(a, x)), r.shift(r.xor(b, x)), bits[1..]);
      assert At2(r.xor(a, x), r.xor(b, x));
      Cancel(r, x, a, b);
    }
  }

  lemma {:induction false} WordInjective<R(!new)>(r: Register<R>, x: seq<bool>, y: seq<bool>)
    requires Laws(r) && |x| == |y| <= r.width && r.Word(x) == r.Word(y)
    ensures x == y
    decreases |x|
  {
    if x != [] {
      var u, v := r.Word(x[1..]), r.Word(y[1..]);
      WordFits(r, x[1..]);
      WordFits(r, y[1..]);
      assert AtRoom(|x[1..]|, u, x[0]) && AtRoom(|y[1..]|, v, y[0]);
      Cancel(r, r.Bit(x[0]), r.double(u), r.double(v));
      WordInjective(r, x[1..], y[1..]);
      assert x == [x[0]] + x[1..] && y == [y[0]] + y[1..];
    }
  }

  /** Two messages that differ only in a burst no longer than the register never leave it in
      the same state. */
  lemma BurstDetected<R(!new)>(r: Register<R>, c: R, p: seq<bool>, u: seq<bool>, v: seq<bool>, s: seq<bool>)
    requires Laws(r) && |u| == |v| <= r.width && u != v
    ensures r.Serial(c, p + u + s) != r.Serial(c, p + v + s)
  {
    if r.Serial(c, p + u + s) == r.Serial(c, p + v + s) {
      var d := r.Serial(c, p);
      SerialConcat(r, c, p, u);
      SerialConcat(r, c, p, v);
      SerialConcat(r, c, p + u, s);
      SerialConcat(r, c, p + v, s);
      SerialInjective(r, r.Serial(d, u), r.Serial(d, v), s);
      SerialIsShifts(r, d, u);
      SerialIsShifts(r, d, v);
      ShiftsInjective(r, |u|, r.xor(d, r.Word(u)), r.xor(d, r.Word(v)));
      Cancel(r, d, r.Word(u), r.Word(v));
      WordInjective(r, u, v);
    }
  }

  lemma {:induction false} WordConcat<R(!new)>(r: Register<R>, x: seq<bool>, y: seq<bool>)
    requires Laws(r)
    ensures r.Word(x + y) == r.xor(r.Word(x), r.Doubles(|x|, r.Word(y)))
    decreases |x|
  {
    if x == [] {
      assert x + y == y;
      assert At1(r.Word(y));
    } else {
      assert (x + y)[1..] == x[1..] + y;
      WordConcat(r, x[1..], y);
      var b, u, w := r.Bit(x[0]), r.Word(x[1..]), r.Doubles(|x| - 1, r.Word(y));
      assert At2(u, w) && At3(b, r.double(u), r.double(w));
    }
  }

  /** Shifting out a word made of a low part and a high part eight places up. */
  lemma ShiftsPeel<R(!new)>(r: Register<R>, m: nat, k: nat, n: nat, low: R, high: R)
    requires Laws(r) && r.fits(m, high) && m + k <= r.width
    ensures r.Shifts(k + n, r.xor(low, r.Doubles(k, high))) == r.xor(r.Shifts(k + n, low), r.Shifts(n, high))
  {
    ShiftsLinear(r, k + n, low, r.Doubles(k, high));
    ShiftsAdd(r, k, n, r.Doubles(k, high));
    ShiftsUndoDoubles(r, m, k, high);
  }

  /** Two words as wide as the register, fed one after the other. */
  lemma SerialTwoWords<R(!new)>(r: Register<R>, c: R, x: seq<bool>, y: seq<bool>)
    requires Laws(r) && |x| == |y| == r.width
    ensures r.Serial(c, x + y) ==
            r.xor(r.Shifts(r.width + r.width, r.xor(c, r.Word(x))), r.Shifts(r.width, r.Word(y)))
  {
    var one := r.xor(c, r.Word(x));
    var mid := r.Shifts(r.width, one);
    SerialConcat(r, c, x, y);
    SerialIsShifts(r, c, x);
    SerialIsShifts(r, mid, y);
    ShiftsLinear(r, r.width, mid, r.Word(y));
    ShiftsAdd(r, r.width, r.width, one);
  }

  /** Four terms added from the left onto a sum, and the same four added up first. */
  lemma AddFour<R(!new)>(r: Register<R>, s: R, a0: R, a1: R, a2: R, a3: R)
    requires Group(r)
    ensures r.xor(r.xor(r.xor(r.xor(s, a0), a1), a2), a3) == r.xor(s, r.xor(a0, r.xor(a1, r.xor(a2, a3))))
  {
    var p := r.xor(r.xor(s, a0), a1);
    assert At3(p, a2, a3) && At3(r.xor(s, a0), a1, r.xor(a2, a3)) && At3(s, a0, r.xor(a1, r.xor(a2, a3)));
  }
}
