/** The wire form of a pack of log records: a count, then each record behind its length. The
    byte order of the integers is the network library's affair; any fixed one will do.
 */
module PackFormat {
  import opened Serializer
  import opened EntryCodec

  function Frames(rs: seq<seq<Byte>>): seq<Byte> {
    if rs == [] then [] else Frames(rs[..|rs| - 1]) + ToBytes(4, |rs[|rs| - 1]|) + rs[|rs| - 1]
  }

  function PackOf(rs: seq<seq<Byte>>): seq<Byte> {
    ToBytes(4, |rs|) + Frames(rs)
  }

  /** The size a packer computes before it allocates. */
  function PackSize(rs: seq<seq<Byte>>): nat {
    if rs == [] then 4 else PackSize(rs[..|rs| - 1]) + 4 + |rs[|rs| - 1]|
  }

  /** The count and the lengths are signed 32-bit integers. */
  const INT32_LIMIT: nat := 0x8000_0000

  /** Records whose count and lengths fit their fields. */
  predicate Packable(rs: seq<seq<Byte>>) {
    |rs| < INT32_LIMIT && forall i :: 0 <= i < |rs| ==> |rs[i]| < INT32_LIMIT
  }

  /** What is read of four bytes that stand for `n`. */
  function Int32(n: nat): int {
    if n < INT32_LIMIT then n else n - WORD
  }

  /** A number is read back if and only if it is below the limit. */
  lemma Int32Exactly(n: nat)
    ensures Int32(FromBytes(ToBytes(4, n))) == n <==> n < INT32_LIMIT
  {
    Pow256Values();
    FromBytesBound(ToBytes(4, n));
    if n < INT32_LIMIT {
      FromToBytes(4, n);
    }
  }

  /** The bytes written fill the computed buffer exactly. */
  lemma {:induction false} PackFills(rs: seq<seq<Byte>>)
    ensures |PackOf(rs)| == PackSize(rs)
  {
    if rs != [] {
      PackFills(rs[..|rs| - 1]);
    }
  }

  /** Computes the size of the buffer, then writes the records into it. */
  method WritePack(records: seq<seq<Byte>>) returns (pack: seq<Byte>, bufSize: nat)
    ensures pack == PackOf(records) && |pack| == bufSize
  {
    bufSize := 4;
    pack := ToBytes(4, |records|);
    for i := 0 to |records|
      invariant bufSize == PackSize(records[..i])
    {
      assert records[..i + 1][..i] == records[..i];
      bufSize := bufSize + 4 + |records[i]|;
    }
    for i := 0 to |records|
      invariant pack == ToBytes(4, |records|) + Frames(records[..i])
    {
      assert records[..i + 1][..i] == records[..i];
      pack := pack + ToBytes(4, |records[i]|) + records[i];
    }
    assert records[..|records|] == records;
    PackFills(records);
  }

  lemma {:induction false} FramesPrefix(rs: seq<seq<Byte>>, k: nat)
    requires k <= |rs|
    ensures Frames(rs[..k]) <= Frames(rs)
    decreases |rs|
  {
    if k == |rs| {
      assert rs[..k] == rs;
    } else {
      FramesPrefix(rs[..|rs| - 1], k);
      assert rs[..|rs| - 1][..k] == rs[..k];
    }
  }

  /** Where record k sits in its pack. */
  function Offset(rs: seq<seq<Byte>>, k: nat): nat
    requires k <= |rs|
  {
    4 + |Frames(rs[..k])|
  }

  lemma Middle<T>(a: seq<T>, b: seq<T>, c: seq<T>, d: seq<T>)
    ensures (a + b + c + d)[|a|..|a| + |b|] == b
    ensures (a + b + c + d)[|a| + |b|..|a| + |b| + |c|] == c
  {
  }

  /** A pack up to record k, the record's length and bytes, and the rest. */
  lemma PackSplit(rs: seq<seq<Byte>>, k: nat) returns (head: seq<Byte>, rest: seq<Byte>)
    requires k < |rs|
    ensures |head| == Offset(rs, k) && Offset(rs, k + 1) == Offset(rs, k) + 4 + |rs[k]|
    ensures PackOf(rs) == head + ToBytes(4, |rs[k]|) + rs[k] + rest
  {
    FramesPrefix(rs, k + 1);
    assert rs[..k + 1][..k] == rs[..k];
    head := ToBytes(4, |rs|) + Frames(rs[..k]);
    rest := Frames(rs)[|Frames(rs[..k + 1])|..];
    assert Frames(rs) == Frames(rs[..k + 1]) + rest;
  }

  /** A reader positioned at record k finds its length and then its bytes, and ends up at the
      next record. */
  lemma FrameAt(rs: seq<seq<Byte>>, k: nat)
    requires Packable(rs) && k < |rs|
    ensures Offset(rs, k + 1) == Offset(rs, k) + 4 + |rs[k]| <= |PackOf(rs)|
    ensures Int32(FromBytes(PackOf(rs)[Offset(rs, k)..Offset(rs, k) + 4])) == |rs[k]|
    ensures PackOf(rs)[Offset(rs, k) + 4..Offset(rs, k + 1)] == rs[k]
  {
    var head, rest := PackSplit(rs, k);
    var l := ToBytes(4, |rs[k]|);
    Middle(head, l, rs[k], rest);
    Int32Exactly(|rs[k]|);
  }

  /** Reads record k of a pack. */
  method ReadFrame(pack: seq<Byte>, pos: nat, ghost rs: seq<seq<Byte>>, ghost k: nat)
    returns (record: seq<Byte>, next: nat)
    requires Packable(rs) && pack == PackOf(rs) && k < |rs| && pos == Offset(rs, k)
    ensures record == rs[k] && next == Offset(rs, k + 1)
  {
    FrameAt(rs, k);
    var len := Int32(FromBytes(pack[pos..pos + 4]));
    next := pos + 4 + len;
    record := pack[pos + 4..next];
  }

  lemma CountAt(rs: seq<seq<Byte>>)
    requires Packable(rs)
    ensures Int32(FromBytes(PackOf(rs)[..4])) == |rs|
  {
    assert PackOf(rs)[..4] == ToBytes(4, |rs|);
    Int32Exactly(|rs|);
  }

  /** A pack determines its records. */
  lemma {:induction false} PackInjective(rs: seq<seq<Byte>>, rs': seq<seq<Byte>>)
    requires Packable(rs) && Packable(rs') && PackOf(rs) == PackOf(rs')
    ensures rs == rs'
  {
    CountAt(rs);
    CountAt(rs');
    SameUpTo(rs, rs', |rs|);
    assert rs[..|rs|] == rs && rs'[..|rs|] == rs';
  }

  lemma {:induction false} SameUpTo(rs: seq<seq<Byte>>, rs': seq<seq<Byte>>, k: nat)
    requires Packable(rs) && Packable(rs') && PackOf(rs) == PackOf(rs') && k <= |rs| == |rs'|
    ensures rs[..k] == rs'[..k]
  {
    if k > 0 {
      SameUpTo(rs, rs', k - 1);
      FrameAt(rs, k - 1);
      FrameAt(rs', k - 1);
      assert rs[..k] == rs[..k - 1] + [rs[k - 1]] && rs'[..k] == rs'[..k - 1] + [rs'[k - 1]];
    }
  }
}
