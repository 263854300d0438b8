/** The on-disk form of a Raft log entry: term, type and payload. The timestamp is dropped. */
module EntryCodec {
  import opened Options
  import opened Serializer

  /** A log entry as the Raft core hands it over. */
  datatype Entry = Entry(term: nat, kind: nat, payload: seq<Byte>, timestamp: nat)

  /** What a stored entry keeps. */
  datatype Rec = Rec(term: nat, kind: nat, payload: seq<Byte>)

  function Strip(e: Entry): Rec {
    Rec(e.term, e.kind, e.payload)
  }

  const WORD: nat := 0x1_0000_0000
  const QUAD: nat := 0x1_0000_0000_0000_0000

  /** The encoded length of an entry. */
  function CalcLen(e: Entry): nat {
    8 + 1 + 4 + |e.payload|
  }

  function Encode(r: Rec): (s: seq<Byte>)
    ensures |s| == 13 + |r.payload|
  {
    ToBytes(8, r.term) + [r.kind % 256] + ToBytes(4, |r.payload|) + r.payload
  }

  /** Reads a record back. Reading past the end yields zeroes; there is no result only when a
      length is present but the bytes it announces are not, where the copy is undefined. */
  function Decode(s: seq<Byte>): Option<Rec> {
    var b0 := Buf(s, 0, false);
    var (b1, term) := b0.GetInt(8);
    var (b2, kind) := b1.GetInt(1);
    var (b3, len, data) := b2.GetBytes();
    match data
    case Some(payload) => Some(Rec(term, kind, payload))
    case None => if len == 0 then Some(Rec(term, kind, [])) else None
  }

  /** The term alone, as a reader that stops after the first field sees it. */
  function DecodeTerm(s: seq<Byte>): nat {
    Buf(s, 0, false).GetInt(8).1
  }

  predicate Storable(r: Rec) {
    r.term < QUAD && r.kind < 256 && |r.payload| < WORD
  }

  lemma Pow256Values()
    ensures Pow256(1) == 256 && Pow256(4) == WORD && Pow256(8) == QUAD
  {
    assert Pow256(2) == 256 * 256;
    assert Pow256(3) == 256 * 256 * 256;
    assert Pow256(4) == WORD;
    assert Pow256(6) == 256 * 256 * WORD by { assert Pow256(5) == 256 * WORD; }
    assert Pow256(7) == 256 * 256 * 256 * WORD;
  }

  /** The fields of an encoded record. */
  lemma EncodedFields(r: Rec, s: seq<Byte>)
    requires s == Encode(r)
    ensures s[0..8] == ToBytes(8, r.term) && s[8..9] == [r.kind % 256]
    ensures s[9..13] == ToBytes(4, |r.payload|) && s[13..] == r.payload
  {
    var t, l := ToBytes(8, r.term), ToBytes(4, |r.payload|);
    assert |t| == 8 && |l| == 4;
  }

  lemma OneByte(x: Byte)
    ensures FromBytes([x]) == x
  {
    assert [x][..0] == [];
  }

  /** What comes back from an encoding, whatever its fields: the type and the length are
      reduced to their width. */
  lemma DecodeEncoded(r: Rec)
    requires r.term < QUAD
    ensures |r.payload| < WORD ==> Decode(Encode(r)) == Some(Rec(r.term, r.kind % 256, r.payload))
    ensures Decode(Encode(r)).Some? ==> Decode(Encode(r)).value.kind < 256 && |Decode(Encode(r)).value.payload| < WORD
    ensures DecodeTerm(Encode(r)) == r.term
  {
    var s := Encode(r);
    EncodedFields(r, s);
    Pow256Values();
    FromToBytes(8, r.term);
    OneByte(r.kind % 256);
    FromBytesBound(s[9..13]);
    if |r.payload| < WORD {
      FromToBytes(4, |r.payload|);
      assert s[13..13 + |r.payload|] == r.payload;
    }
  }

  /** Decoding inverts encoding exactly for the records whose term fits eight bytes, whose type fits
      one and whose payload length fits four. */
  lemma RoundTrip(r: Rec)
    ensures Decode(Encode(r)) == Some(r) <==> Storable(r)
  {
    if r.term < QUAD {
      DecodeEncoded(r);
    } else {
      FromBytesBound(Encode(r)[0..8]);
      Pow256Values();
    }
  }

  /** Encodes an entry into a buffer of exactly the computed length. */
  method EncodeEntry(e: Entry) returns (buf: array<Byte>, ok: bool)
    ensures fresh(buf) && buf.Length == CalcLen(e)
    ensures ok && buf[..] == Encode(Strip(e))
  {
    buf := new Byte[CalcLen(e)];
    var ss := new BufSerializer(buf);
    ss.PutInt(8, e.term);
    assert buf[..8] == ToBytes(8, e.term);
    ss.PutInt(1, e.kind);
    OneWidth(e.kind);
    assert buf[..9] == ToBytes(8, e.term) + [e.kind % 256];
    ss.PutBytes(e.payload);
    assert buf[..] == buf[..buf.Length];
    ok := !ss.errHappened;
  }

  lemma OneWidth(v: nat)
    ensures ToBytes(1, v) == [v % 256]
  {
    assert ToBytes(0, v / 256) == [];
  }

  /** Reads the term of a stored record. */
  method ReadTerm(buf: array<Byte>) returns (term: nat)
    ensures term == DecodeTerm(buf[..])
  {
    var ss := new BufSerializer(buf);
    term := ss.GetInt(8);
  }

  /** Decodes a stored record. */
  method DecodeRecord(buf: array<Byte>) returns (r: Option<Rec>)
    ensures r == Decode(buf[..])
  {
    var ss := new BufSerializer(buf);
    var term := ss.GetInt(8);
    var kind := ss.GetInt(1);
    var len, data := ss.GetBytes();
    match data {
      case Some(payload) => r := Some(Rec(term, kind, payload));
      case None => r := if len == 0 then Some(Rec(term, kind, [])) else None;
    }
  }
}
