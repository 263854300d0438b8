/** Big-endian fixed-width integers and length-prefixed byte strings in a bounded buffer,
    with a cursor and an error flag that sticks.
 */
module Serializer {
  import opened Options

  type Byte = x: int | 0 <= x < 256

  // ---------- Integers as bytes ----------

  function Pow256(n: nat): (r: nat)
    ensures r > 0
  {
    if n == 0 then 1 else 256 * Pow256(n - 1)
  }

  /** The low `width` bytes of `v`, most significant first. */
  function ToBytes(width: nat, v: nat): (r: seq<Byte>)
    ensures |r| == width
  {
    if width == 0 then [] else ToBytes(width - 1, v / 256) + [v % 256]
  }

  function FromBytes(s: seq<Byte>): nat {
    if s == [] then 0 else 256 * FromBytes(s[..|s| - 1]) + s[|s| - 1]
  }

  lemma {:induction false} FromBytesBound(s: seq<Byte>)
    ensures FromBytes(s) < Pow256(|s|)
  {
    if s != [] {
      FromBytesBound(s[..|s| - 1]);
    }
  }

  /** Reading back gives the number reduced to its width. */
  lemma {:induction false} FromToBytes(width: nat, v: nat)
    requires v < Pow256(width)
    ensures FromBytes(ToBytes(width, v)) == v
  {
    if width > 0 {
      FromToBytes(width - 1, v / 256);
      assert ToBytes(width, v)[..width - 1] == ToBytes(width - 1, v / 256);
    }
  }

  // ---------- The buffer as a value ----------

  /** The whole buffer, the cursor and the sticky error flag. */
  datatype Buf = Buf(bytes: seq<Byte>, pos: nat, err: bool) {
    predicate Valid() {
      pos <= |bytes|
    }

    /** Room for `n` more bytes, and no error so far. */
    predicate Room(n: nat) {
      !err && n + pos <= |bytes|
    }

    function Fail(): Buf {
      this.(err := true)
    }

    function PutRaw(s: seq<Byte>): (r: Buf)
      requires Room(|s|)
      ensures r.Valid() && |r.bytes| == |bytes|
    {
      Buf(bytes[..pos] + s + bytes[pos + |s|..], pos + |s|, false)
    }

    function PutInt(width: nat, v: nat): Buf
      requires Valid()
    {
      if Room(width) then PutRaw(ToBytes(width, v)) else Fail()
    }

    /** A length prefix of four bytes, then the bytes themselves. */
    function PutBytes(s: seq<Byte>): Buf
      requires Valid()
    {
      var b := PutInt(4, |s|);
      if b.Room(|s|) then b.PutRaw(s) else b.Fail()
    }

    function GetInt(width: nat): (Buf, nat)
      requires Valid()
    {
      if Room(width) then (this.(pos := pos + width), FromBytes(bytes[pos..pos + width])) else (Fail(), 0)
    }

    /** The length as read and the bytes, or no bytes at all when they are not there. */
    function GetBytes(): (Buf, nat, Option<seq<Byte>>)
      requires Valid()
    {
      var (b, n) := GetInt(4);
      if b.Room(n) then (b.(pos := b.pos + n), n, Some(bytes[b.pos..b.pos + n])) else (b.Fail(), n, None)
    }
  }

  datatype BufOp = PutIntOp(width: nat, v: nat) | PutBytesOp(s: seq<Byte>) | GetIntOp(width: nat) | GetBytesOp

  function Step(b: Buf, op: BufOp): Buf
    requires b.Valid()
  {
    match op
    case PutIntOp(width, v) => b.PutInt(width, v)
    case PutBytesOp(s) => b.PutBytes(s)
    case GetIntOp(width) => b.GetInt(width).0
    case GetBytesOp => b.GetBytes().0
  }

  /** What every operation keeps: the buffer's size, the bytes behind the cursor, the cursor
      inside the buffer and moving forward only; and after an error everything. */
  ghost predicate Kept(b: Buf, b': Buf) {
    && b'.Valid() && |b'.bytes| == |b.bytes|
    && b.pos <= b'.pos && b.bytes[..b.pos] == b'.bytes[..b.pos] && b.bytes[b'.pos..] == b'.bytes[b'.pos..]
    && (b.err ==> b' == b)
  }

  lemma StepKeeps(b: Buf, op: BufOp)
    requires b.Valid()
    ensures Kept(b, Step(b, op))
  {
    var b' := Step(b, op);
    match op
    case PutIntOp(width, v) =>
      PutIntKeeps(b, width, v);
    case PutBytesOp(s) =>
      var m := b.PutInt(4, |s|);
      PutIntKeeps(b, 4, |s|);
      if m.Room(|s|) {
        PutRawKeeps(m, s);
        KeptChain(b, m, b');
      }
    case GetIntOp(width) =>
    case GetBytesOp =>
  }

  lemma PutRawKeeps(b: Buf, s: seq<Byte>)
    requires b.Room(|s|)
    ensures Kept(b, b.PutRaw(s))
  {
    var b' := b.PutRaw(s);
    assert b'.bytes[..b.pos] == b.bytes[..b.pos];
    assert b'.bytes[b'.pos..] == b.bytes[b'.pos..];
  }

  lemma PutIntKeeps(b: Buf, width: nat, v: nat)
    requires b.Valid()
    ensures Kept(b, b.PutInt(width, v))
  {
    if b.Room(width) {
      PutRawKeeps(b, ToBytes(width, v));
    }
  }

  lemma KeptChain(a: Buf, b: Buf, c: Buf)
    requires a.pos <= |a.bytes| && Kept(a, b) && Kept(b, c)
    ensures Kept(a, c)
  {
    assert a.bytes[..a.pos] == b.bytes[..b.pos][..a.pos] == c.bytes[..b.pos][..a.pos] == c.bytes[..a.pos];
    var k := c.pos - b.pos;
    assert a.bytes[c.pos..] == a.bytes[b.pos..][k..] == b.bytes[b.pos..][k..] == b.bytes[c.pos..];
  }

  /** An operation fails exactly if it needs more bytes than are left, or one has failed before; otherwise the
      cursor moves by what it needs. */
  lemma StepErrs(b: Buf, op: BufOp)
    requires b.Valid()
    ensures var left := |b.bytes| - b.pos;
            var need := match op
                        case PutIntOp(width, _) => width
                        case PutBytesOp(s) => 4 + |s|
                        case GetIntOp(width) => width
                        case GetBytesOp => if left < 4 then 4 else 4 + FromBytes(b.bytes[b.pos..b.pos + 4]);
            && (Step(b, op).err <==> b.err || need > left)
            && (!Step(b, op).err ==> Step(b, op).pos == b.pos + need)
  {
  }

  /** An integer that was put is read back from the same place, and so are bytes. */
  lemma PutGetInt(b: Buf, width: nat, v: nat)
    requires b.Valid() && v < Pow256(width) && !b.PutInt(width, v).err
    ensures b.PutInt(width, v).(pos := b.pos).GetInt(width) == (b.PutInt(width, v), v)
  {
    var b' := b.PutInt(width, v);
    assert b'.bytes[b.pos..b.pos + width] == ToBytes(width, v);
    FromToBytes(width, v);
  }

  lemma PutGetBytes(b: Buf, s: seq<Byte>)
    requires b.Valid() && |s| < Pow256(4) && !b.PutBytes(s).err
    ensures b.PutBytes(s).(pos := b.pos).GetBytes() == (b.PutBytes(s), |s|, Some(s))
  {
    var b' := b.PutBytes(s);
    assert b'.bytes[b.pos..b.pos + 4] == ToBytes(4, |s|);
    FromToBytes(4, |s|);
    assert b'.bytes[b.pos + 4..b.pos + 4 + |s|] == s;
  }

  /** Bytes that are not there are not read: nothing comes back, and the error stays. */
  lemma ShortGet(b: Buf, width: nat)
    requires b.Valid()
    ensures b.err || |b.bytes| - b.pos < width ==> b.GetInt(width) == (Buf(b.bytes, b.pos, true), 0)
    ensures b.GetBytes().0.err ==> b.GetBytes().2 == None
    ensures b.err || |b.bytes| - b.pos < 4 ==> b.GetBytes() == (Buf(b.bytes, b.pos, true), 0, None)
  {
  }

  function Steps(b: Buf, ops: seq<BufOp>): Buf
    requires b.Valid()
    decreases |ops|
  {
    if ops == [] then b
    else
      StepKeeps(b, ops[0]);
      Steps(Step(b, ops[0]), ops[1..])
  }

  /** Over any run of puts and gets the cursor stays inside the buffer and never moves back,
      and after the first error nothing is written or consumed. */
  lemma {:induction false} RunKeeps(b: Buf, ops: seq<BufOp>)
    requires b.Valid()
    ensures Kept(b, Steps(b, ops))
    decreases |ops|
  {
    if ops != [] {
      StepKeeps(b, ops[0]);
      RunKeeps(Step(b, ops[0]), ops[1..]);
      KeptChain(b, Step(b, ops[0]), Steps(b, ops));
    }
  }

  /** Once an operation of a run has lacked room, the run ends with an error, and with the bytes and the
      position it had then. */
  lemma {:induction false} RunStops(b: Buf, ops: seq<BufOp>, k: nat)
    requires b.Valid() && k < |ops| && Steps(b, ops[..k + 1]).err
    ensures Steps(b, ops) == Steps(b, ops[..k + 1])
    decreases k
  {
    StepKeeps(b, ops[0]);
    assert ops[..k + 1][1..] == ops[1..][..k];
    if k == 0 {
      RunKeeps(Step(b, ops[0]), ops[1..]);
    } else {
      RunStops(Step(b, ops[0]), ops[1..], k - 1);
    }
  }

  // ---------- The serializer object ----------

  class BufSerializer {
    const buf: array<Byte>
    var offset: nat
    var errHappened: bool

    ghost predicate Valid()
      reads this
    {
      offset <= buf.Length
    }

    ghost function View(): Buf
      reads this, buf
    {
      Buf(buf[..], offset, errHappened)
    }

    constructor (b: array<Byte>)
      ensures Valid() && buf == b && offset == 0 && !errHappened
    {
      buf := b;
      offset := 0;
      errHappened := false;
    }

    method IsValid(len: nat) returns (ok: bool)
      requires Valid()
      modifies this`errHappened
      ensures ok <==> !old(errHappened) && len <= buf.Length - offset
      ensures errHappened == !ok && View() == old(View()).(err := !ok)
    {
      if errHappened || len + offset > buf.Length {
        errHappened := true;
        return false;
      }
      return true;
    }

    method PutRaw(s: seq<Byte>)
      requires Valid() && View().Room(|s|)
      modifies buf, this`offset
      ensures Valid() && View() == old(View()).PutRaw(s)
    {
      var i := 0;
      ghost var was := buf[..];
      while i < |s|
        invariant 0 <= i <= |s|
        invariant forall k :: 0 <= k < buf.Length ==>
                    buf[k] == if offset <= k < offset + i then s[k - offset] else was[k]
        modifies buf
      {
        buf[offset + i] := s[i];
        i := i + 1;
      }
      assert buf[..] == was[..offset] + s + was[offset + |s|..];
      offset := offset + |s|;
    }

    method PutInt(width: nat, v: nat)
      requires Valid()
      modifies buf, this`offset, this`errHappened
      ensures Valid() && View() == old(View()).PutInt(width, v)
    {
      var ok := IsValid(width);
      if ok {
        PutRaw(ToBytes(width, v));
      }
    }

    method PutBytes(s: seq<Byte>)
      requires Valid()
      modifies buf, this`offset, this`errHappened
      ensures Valid() && View() == old(View()).PutBytes(s)
    {
      PutInt(4, |s|);
      var ok := IsValid(|s|);
      if ok {
        PutRaw(s);
      }
    }

    method GetInt(width: nat) returns (v: nat)
      requires Valid()
      modifies this`offset, this`errHappened
      ensures Valid() && (View(), v) == old(View()).GetInt(width)
    {
      var ok := IsValid(width);
      if !ok {
        return 0;
      }
      v := FromBytes(buf[offset..offset + width]);
      offset := offset + width;
      assert old(View()).bytes[old(offset)..old(offset) + width] == buf[old(offset)..old(offset) + width];
    }

    method GetBytes() returns (len: nat, data: Option<seq<Byte>>)
      requires Valid()
      modifies this`offset, this`errHappened
      ensures Valid() && (View(), len, data) == old(View()).GetBytes()
    {
      len := GetInt(4);
      var ok := IsValid(len);
      if !ok {
        return len, None;
      }
      data := Some(buf[offset..offset + len]);
      assert old(View()).bytes[offset..offset + len] == buf[offset..offset + len];
      offset := offset + len;
    }
  }
}
