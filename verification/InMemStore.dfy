/** The in-memory log store: a map with a dummy entry at index 0 and a start index. It refines
    the same plain log as the database-backed store, and keeps timestamps.
 */
module InMemStore {
  import opened Options
  import opened LogSpec
  import opened Serializer
  import opened EntryCodec
  import opened PackFormat
  import opened LogCache

  /** How the Raft library turns a log entry into bytes and back. */
  datatype Format = Format(ser: Entry -> seq<Byte>, deser: seq<Byte> -> Entry)

  function Sers(format: Format, es: seq<Entry>): (r: seq<seq<Byte>>)
    ensures |r| == |es| && forall i :: 0 <= i < |es| ==> r[i] == format.ser(es[i])
  {
    seq(|es|, i requires 0 <= i < |es| => format.ser(es[i]))
  }

  /** Entries the format carries: their bytes read back as themselves and fit a pack. */
  ghost predicate Carries(format: Format, es: seq<Entry>) {
    && Packable(Sers(format, es))
    && forall i :: 0 <= i < |es| ==> format.deser(format.ser(es[i])) == es[i]
  }

  /** The keys are exactly 0 and the indices of the log. */
  ghost predicate Stands(logs: map<nat, Entry>, dummy: Entry, log: Log<Entry>) {
    && 1 <= log.start
    && (forall k: nat :: k in logs <==> k == 0 || log.Holds(k))
    && logs[0] == dummy
    && forall k :: log.Holds(k) ==> logs[k] == log.At(k)
  }

  function Keys(start: nat, n: nat): (r: set<nat>)
    requires 1 <= start
    ensures |r| == n + 1 && forall k: nat :: k in r <==> k == 0 || start <= k < start + n
  {
    if n == 0 then {0} else Keys(start, n - 1) + {start + n - 1}
  }

  /** So the number of entries tells where the log ends. */
  lemma KeyCount(logs: map<nat, Entry>, dummy: Entry, log: Log<Entry>)
    requires Stands(logs, dummy, log)
    ensures |logs| == |log.entries| + 1
  {
    assert logs.Keys == Keys(log.start, |log.entries|);
  }

  /** Payloads count for their own length here. */
  function Payload(n: nat): nat {
    n
  }

  /** The bytes of all payloads. */
  function Bytes(es: seq<Entry>): nat {
    if es == [] then 0 else Bytes(es[..|es| - 1]) + |es[|es| - 1].payload|
  }

  lemma {:induction false} BytesAre(es: seq<Entry>)
    ensures SizeOf(Payload, Strips(es)) == Bytes(es)
  {
    if es != [] {
      assert Strips(es)[..|es| - 1] == Strips(es[..|es| - 1]);
      BytesAre(es[..|es| - 1]);
    }
  }

  lemma BytesBefore(es: seq<Entry>, n: nat)
    requires n <= |es|
    ensures SizeOf(Payload, Strips(es)[..n]) == Bytes(es[..n])
  {
    BytesAre(es[..n]);
    assert Strips(es)[..n] == Strips(es[..n]);
  }

  /** What the limit says in bytes. */
  lemma LimitedBytes(all: seq<Entry>, hint: int, r: seq<Entry>)
    requires r <= all && Limited(Payload, Strips(all), hint, Strips(r))
    ensures hint <= 0 ==> |r| == |all|
    ensures hint > 0 && |r| < |all| ==> r != [] && Bytes(r) >= hint
    ensures hint > 0 ==> forall n :: 0 < n < |r| ==> Bytes(r[..n]) < hint
  {
    BytesAre(r);
    if hint > 0 {
      forall n | 0 < n < |r| ensures Bytes(r[..n]) < hint {
        BytesBefore(r, n);
      }
    }
  }

  lemma StandsPut(logs: map<nat, Entry>, dummy: Entry, log: Log<Entry>, i: nat, e: Entry)
    requires Stands(logs, dummy, log) && log.start <= i <= log.Next()
    ensures Stands(logs[i := e], dummy, PutAt(log, i, e))
  {
  }

  lemma StandsWriteAt(logs: map<nat, Entry>, dummy: Entry, log: Log<Entry>, i: nat, e: Entry)
    requires Stands(logs, dummy, log) && log.start <= i <= log.Next()
    ensures Stands(Below(logs, i)[i := e], dummy, Apply(log, WriteAt(i, e)))
  {
  }

  /** When a write leaves a log. */
  predicate Writes(start: nat, next: nat, dummy: Entry, i: nat, e: Entry) {
    if i == 0 then e == dummy else start <= i <= next
  }

  function Written(log: Log<Entry>, i: nat, e: Entry): Log<Entry>
    requires i == 0 || log.start <= i <= log.Next()
  {
    if i == 0 then Log(log.start, []) else Apply(log, WriteAt(i, e))
  }

  /** A write elsewhere leaves a log that starts elsewhere than the store says, or none. */
  lemma WriteEffect(logs: map<nat, Entry>, dummy: Entry, log: Log<Entry>, i: nat, e: Entry)
    requires Stands(logs, dummy, log)
    ensures var logs' := Below(logs, i)[i := e];
            if Writes(log.start, log.Next(), dummy, i, e) then Stands(logs', dummy, Written(log, i, e))
            else forall l: Log<Entry> :: Stands(logs', dummy, l) ==> l.start != log.start
  {
    var logs' := Below(logs, i)[i := e];
    if i > 0 && log.start <= i <= log.Next() {
      StandsWriteAt(logs, dummy, log, i, e);
    } else if i > log.Next() && log.entries != [] {
      assert log.start in logs' && log.Next() !in logs';
      HoleIsNoLog(logs', dummy, log.start, log.Next(), i);
    } else if i > 0 {
      forall l: Log<Entry> | Stands(logs', dummy, l) ensures l.start != log.start {
        assert l.Holds(i) && log.start !in logs';
      }
    }
  }

  lemma StandsCompact(logs: map<nat, Entry>, dummy: Entry, log: Log<Entry>, last: nat)
    requires Stands(logs, dummy, log)
    ensures Stands(Without(logs, log.start, last + 1), dummy, Compacted(log, last))
  {
  }

  // ---------- Packs ----------

  /** A pack lands as it should. */
  predicate Lands(log: Log<Entry>, es: seq<Entry>) {
    es != [] || log.entries != [] || log.start == 1
  }

  /** Entries put into the map one after another from index `i` on. */
  function PutAll(m: map<nat, Entry>, i: nat, es: seq<Entry>): map<nat, Entry> {
    if es == [] then m else PutAll(m, i, es[..|es| - 1])[i + |es| - 1 := es[|es| - 1]]
  }

  lemma {:induction false} PutAllMeans(m: map<nat, Entry>, i: nat, es: seq<Entry>, k: nat)
    ensures k in PutAll(m, i, es) <==> k in m || i <= k < i + |es|
    ensures k in PutAll(m, i, es) ==> PutAll(m, i, es)[k] == if i <= k < i + |es| then es[k - i] else m[k]
    decreases |es|
  {
    if es != [] {
      PutAllMeans(m, i, es[..|es| - 1], k);
    }
  }

  lemma PutAllNext(m: map<nat, Entry>, i: nat, es: seq<Entry>, n: nat)
    requires n < |es|
    ensures PutAll(m, i, es[..n + 1]) == PutAll(m, i, es[..n])[i + n := es[n]]
  {
    assert es[..n + 1][..n] == es[..n];
  }

  /** A pack of `n` entries from an index above 0 on leaves no hole: there is nothing in it, or no log to
      meet, or it meets the log from `start` to `next` on either side. */
  predicate Meets(start: nat, next: nat, i: nat, n: nat) {
    n == 0 || start == next || (i <= next && start <= i + n)
  }

  predicate Joins(log: Log<Entry>, i: nat, es: seq<Entry>) {
    Meets(log.start, log.Next(), i, |es|)
  }

  /** The log with the entries of a pack laid over it. An empty log starts over where they start, at 1
      if there are none. */
  function Joined(log: Log<Entry>, i: nat, es: seq<Entry>): Log<Entry>
    requires Joins(log, i, es)
  {
    if es == [] then (if log.entries == [] then Log(1, []) else log)
    else if log.entries == [] then Log(i, es)
    else if i < log.start then Log(i, es + Rest(log, i + |es|))
    else Log(log.start, log.entries[..i - log.start] + es + Rest(log, i + |es|))
  }

  /** The entries from an index on. */
  function Rest(log: Log<Entry>, i: nat): seq<Entry>
    requires log.start <= i
  {
    if i < log.Next() then log.entries[i - log.start..] else []
  }

  /** Every index has what was packed there, or else what was there before. */
  lemma JoinedMeans(log: Log<Entry>, i: nat, es: seq<Entry>, k: nat)
    requires Joins(log, i, es)
    ensures Joined(log, i, es).Lookup(k) == if i <= k < i + |es| then Some(es[k - i]) else log.Lookup(k)
  {
  }

  lemma StandsJoined(logs: map<nat, Entry>, dummy: Entry, log: Log<Entry>, i: nat, es: seq<Entry>)
    requires Stands(logs, dummy, log) && 1 <= i && Joins(log, i, es)
    ensures Stands(PutAll(logs, i, es), dummy, Joined(log, i, es))
  {
    var logs', log' := PutAll(logs, i, es), Joined(log, i, es);
    forall k: nat
      ensures k in logs' <==> k == 0 || log'.Holds(k)
      ensures log'.Holds(k) ==> logs'[k] == log'.At(k)
    {
      PutAllMeans(logs, i, es, k);
      JoinedMeans(log, i, es, k);
      assert log'.Holds(k) <==> log'.Lookup(k).Some?;
    }
    PutAllMeans(logs, i, es, 0);
  }

  /** No log at all has these keys. */
  ghost predicate NoLog(logs: map<nat, Entry>, dummy: Entry) {
    forall l: Log<Entry> :: !Stands(logs, dummy, l)
  }

  /** A hole between two keys. */
  lemma HoleIsNoLog(logs: map<nat, Entry>, dummy: Entry, lo: nat, hole: nat, hi: nat)
    requires 1 <= lo < hole < hi && lo in logs && hi in logs && hole !in logs
    ensures NoLog(logs, dummy)
  {
  }

  lemma ApartIsNoLog(logs: map<nat, Entry>, dummy: Entry, log: Log<Entry>, i: nat, es: seq<Entry>)
    requires Stands(logs, dummy, log) && 1 <= i && !Joins(log, i, es)
    ensures NoLog(PutAll(logs, i, es), dummy)
  {
    var logs' := PutAll(logs, i, es);
    PutAllMeans(logs, i, es, i);
    PutAllMeans(logs, i, es, log.start);
    if i > log.Next() {
      PutAllMeans(logs, i, es, log.Next());
      HoleIsNoLog(logs', dummy, log.start, log.Next(), i);
    } else {
      PutAllMeans(logs, i, es, i + |es|);
      HoleIsNoLog(logs', dummy, i, i + |es|, log.start);
    }
  }

  /** When a pack leaves a log: at index 0 its first entry takes the place of the dummy. */
  predicate FitsAt(start: nat, next: nat, dummy: Entry, i: nat, es: seq<Entry>) {
    if i == 0 && es != [] then es[0] == dummy && Meets(start, next, 1, |es| - 1) else Meets(start, next, i, |es|)
  }

  predicate Fits(log: Log<Entry>, dummy: Entry, i: nat, es: seq<Entry>) {
    FitsAt(log.start, log.Next(), dummy, i, es)
  }

  function Landed(log: Log<Entry>, dummy: Entry, i: nat, es: seq<Entry>): Log<Entry>
    requires Fits(log, dummy, i, es)
  {
    if i == 0 && es != [] then Joined(log, 1, es[1..]) else Joined(log, i, es)
  }

  /** A pack where the plain log allows one always leaves a log: the one it should, unless there is nothing
      in it and the log was emptied elsewhere than at 1. */
  lemma AllowedFits(log: Log<Entry>, dummy: Entry, i: nat, es: seq<Entry>)
    requires 1 <= log.start && Enabled(log, ApplyPack(i, es))
    ensures Fits(log, dummy, i, es)
    ensures Landed(log, dummy, i, es) == Apply(log, ApplyPack(i, es)) <==> Lands(log, es)
  {
  }

  lemma {:induction false} PutAllTail(m: map<nat, Entry>, i: nat, es: seq<Entry>)
    requires es != []
    ensures PutAll(m, i, es) == PutAll(m[i := es[0]], i + 1, es[1..])
    decreases |es|
  {
    if |es| > 1 {
      var n := |es| - 1;
      PutAllTail(m, i, es[..n]);
      assert es[..n][1..] == es[1..][..n - 1];
    } else {
      assert es[..0] == [] && es[1..] == [];
    }
  }

  lemma PackAbove(logs: map<nat, Entry>, dummy: Entry, log: Log<Entry>, i: nat, es: seq<Entry>)
    requires Stands(logs, dummy, log) && 1 <= i
    ensures Joins(log, i, es) ==> Stands(PutAll(logs, i, es), dummy, Joined(log, i, es))
    ensures !Joins(log, i, es) ==> NoLog(PutAll(logs, i, es), dummy)
  {
    if Joins(log, i, es) {
      StandsJoined(logs, dummy, log, i, es);
    } else {
      ApartIsNoLog(logs, dummy, log, i, es);
    }
  }

  lemma PackAtZero(logs: map<nat, Entry>, dummy: Entry, log: Log<Entry>, es: seq<Entry>)
    requires Stands(logs, dummy, log) && es != []
    ensures es[0] == dummy ==> PutAll(logs, 0, es) == PutAll(logs, 1, es[1..])
    ensures es[0] != dummy ==> NoLog(PutAll(logs, 0, es), dummy)
  {
    if es[0] == dummy {
      PutAllTail(logs, 0, es);
      assert logs[0 := es[0]] == logs;
    } else {
      PutAllMeans(logs, 0, es, 0);
    }
  }

  /** The store stands for the log with the entries laid over it if they fit, and for none otherwise. */
  lemma PackEffect(logs: map<nat, Entry>, dummy: Entry, log: Log<Entry>, i: nat, es: seq<Entry>)
    requires Stands(logs, dummy, log)
    ensures Fits(log, dummy, i, es) ==> Stands(PutAll(logs, i, es), dummy, Landed(log, dummy, i, es))
    ensures !Fits(log, dummy, i, es) ==> NoLog(PutAll(logs, i, es), dummy)
  {
    if i == 0 && es != [] {
      PackAtZero(logs, dummy, log, es);
      PackAbove(logs, dummy, log, 1, es[1..]);
    } else {
      PackAbove(logs, dummy, log, if i == 0 then 1 else i, es);
    }
  }

  function Below(m: map<nat, Entry>, i: nat): map<nat, Entry> {
    map k | k in m && k < i :: m[k]
  }

  function Without(m: map<nat, Entry>, lo: nat, hi: nat): map<nat, Entry> {
    map k | k in m && !(lo <= k < hi) :: m[k]
  }

  /** The first iterator at or after key `i`. */
  method LowerBound(m: map<nat, Entry>, i: nat) returns (n: Option<nat>)
    ensures n.None? ==> forall j :: j in m ==> j < i
    ensures n.Some? ==> n.value in m && i <= n.value && forall j :: j in m && i <= j ==> n.value <= j
  {
    if i in m {
      return Some(i);
    }
    n := NextKey(m, i);
  }

  /** Erases every key from `i` on, iterator by iterator. */
  method EraseFrom(m: map<nat, Entry>, i: nat) returns (r: map<nat, Entry>)
    ensures r == Below(m, i)
  {
    r := m;
    var itr := LowerBound(m, i);
    while itr.Some?
      invariant forall k :: k in r ==> k in m && r[k] == m[k]
      invariant forall k :: k in m && k < i ==> k in r
      invariant itr.Some? ==> itr.value in r && i <= itr.value
      invariant forall k :: k in r && i <= k ==> itr.Some? && itr.value <= k
      decreases |r|
    {
      var k := itr.value;
      assert r.Keys == (r - {k}).Keys + {k};
      r := r - {k};
      itr := NextKey(r, k);
    }
  }

  method EraseUpTo(m: map<nat, Entry>, start: nat, last: nat) returns (r: map<nat, Entry>)
    ensures r == Without(m, start, last + 1)
  {
    r := m;
    var ii := start;
    while ii <= last
      invariant ii == start || ii <= last + 1
      invariant start <= ii && r == Without(m, start, ii)
    {
      if ii in r {
        r := r - {ii};
      }
      ii := ii + 1;
    }
    assert r == Without(m, start, last + 1);
  }

  class Store {
    var logs: map<nat, Entry>
    var startIdx: nat
    const dummy: Entry
    const format: Format
    /** The log the store stands for. */
    ghost var log: Log<Entry>

    ghost predicate Valid()
      reads this
    {
      Stands(logs, dummy, log) && startIdx == log.start && dummy.term == 0
    }

    /** The store stands for no log: its keys are not those of any, or not of one that starts where it says. */
    ghost predicate Lost()
      reads this
    {
      forall l: Log<Entry> :: !(Stands(logs, dummy, l) && l.start == startIdx)
    }

    constructor (format: Format, dummyPayload: seq<Byte>)
      ensures Valid() && log == Log(1, []) && this.format == format && dummy == Entry(0, 1, dummyPayload, 0)
    {
      this.format := format;
      dummy := Entry(0, 1, dummyPayload, 0);
      logs := map[0 := Entry(0, 1, dummyPayload, 0)];
      startIdx := 1;
      log := Log(1, []);
    }

    // ---------- Reads ----------

    /** What is always there, also when the store stands for no log. */
    predicate Usable()
      reads this
    {
      0 in logs && 1 <= startIdx
    }

    /** What the map has at an index, or else at 0. */
    function Raw(index: nat): Entry
      requires Usable()
      reads this
    {
      if index in logs then logs[index] else logs[0]
    }

    method NextSlot() returns (next: nat)
      requires Usable()
      ensures next == startIdx + |logs| - 1 && (Valid() ==> next == log.Next())
    {
      if Valid() {
        KeyCount(logs, dummy, log);
      }
      next := startIdx + |logs| - 1;
    }

    method EntryAt(index: nat) returns (e: Entry)
      requires Usable()
      ensures e == Raw(index) && (Valid() ==> e == match log.Lookup(index) case Some(v) => v case None => dummy)
    {
      if index in logs {
        return logs[index];
      }
      return logs[0];
    }

    method TermAt(index: nat) returns (term: nat)
      requires Usable()
      ensures term == Raw(index).term && (Valid() ==> term == if log.Holds(index) then log.At(index).term else 0)
    {
      var e := EntryAt(index);
      return e.term;
    }

    method LastEntry() returns (e: Entry)
      requires Valid()
      ensures e == match log.Last() case Some(v) => v case None => dummy
    {
      var next := NextSlot();
      e := EntryAt(next - 1);
    }

    ghost function Slice(start: nat, end: nat): seq<Entry>
      requires log.start <= start <= end <= log.Next()
      reads this
    {
      log.entries[start - log.start..end - log.start]
    }

    /** A range read of entries the log holds; an empty range may lie anywhere. */
    method LogEntries(start: nat, end: nat) returns (r: seq<Entry>)
      requires Valid() && start <= end && (start < end ==> log.start <= start && end <= log.Next())
      ensures r == if start < end then Slice(start, end) else []
    {
      r := [];
      for ii := start to end
        invariant r == if start < ii then Slice(start, ii) else []
      {
        r := r + [logs[ii]];
      }
    }

    /** A range read with a size hint: nothing for a negative hint, everything for hint 0, else
        the shortest nonempty prefix whose payloads reach the hint, or everything. */
    method LogEntriesExt(start: nat, end: nat, hint: int) returns (r: seq<Entry>)
      requires Valid() && (start < end ==> log.start <= start && end <= log.Next())
      ensures hint < 0 || start >= end ==> r == []
      ensures hint >= 0 && start < end ==>
                r <= Slice(start, end) && Limited(Payload, Strips(Slice(start, end)), hint, Strips(r))
      ensures hint == 0 && start < end ==> |r| == end - start
      ensures hint > 0 && start < end && |r| < end - start ==> r != [] && Bytes(r) >= hint
      ensures hint > 0 ==> forall n :: 0 < n < |r| ==> Bytes(r[..n]) < hint
    {
      r := [];
      if hint < 0 || start >= end {
        return;
      }
      ghost var all := Slice(start, end);
      var accum: nat := 0;
      for ii := start to end
        invariant |r| == ii - start && Taking(Payload, all, hint, r, accum)
      {
        TakeStep(Payload, all, hint, r, accum, logs[ii]);
        r := r + [logs[ii]];
        accum := accum + |logs[ii].payload|;
        if hint != 0 && accum >= hint {
          LimitedBytes(all, hint, r);
          return;
        }
      }
      TakeDone(Payload, all, hint, r, accum);
      LimitedBytes(all, hint, r);
    }

    /** Packs `cnt` entries from an index on. */
    method Pack(index: nat, cnt: nat) returns (pack: seq<Byte>, bufSize: nat)
      requires Valid() && log.start <= index && index + cnt <= log.Next()
      ensures pack == PackOf(Sers(format, Slice(index, index + cnt))) && |pack| == bufSize
    {
      ghost var bs := Sers(format, Slice(index, index + cnt));
      var bufs: seq<seq<Byte>> := [];
      for ii := 0 to cnt
        invariant bufs == bs[..ii]
      {
        bufs := bufs + [format.ser(logs[index + ii])];
      }
      assert bufs == bs;
      pack, bufSize := WritePack(bufs);
    }

    // ---------- Writes ----------

    /** The index is taken from the number of keys, whatever they are. */
    method Append(e: Entry) returns (index: nat)
      requires Usable()
      modifies this
      ensures index == old(startIdx + |logs| - 1)
      ensures Usable() && logs == old(logs)[index := e] && startIdx == old(startIdx)
      ensures old(Valid()) ==> Valid() && index == old(log).Next() && log == Apply(old(log), LogSpec.Append(e))
    {
      index := startIdx + |logs| - 1;
      if Valid() {
        KeyCount(logs, dummy, log);
        StandsPut(logs, dummy, log, index, e);
        log := Apply(log, LogSpec.Append(e));
      }
      logs := logs[index := e];
    }

    /** Discards everything from `index` on and puts the entry there. The store then stands for the log it
        should if the index is one of the log or the next, for the empty log if the dummy is put in its own
        place, and for no log otherwise. */
    method WriteAt(index: nat, e: Entry)
      requires Valid()
      modifies this
      ensures Usable() && logs == Below(old(logs), index)[index := e] && startIdx == old(startIdx)
      ensures Writes(old(log.start), old(log.Next()), dummy, index, e) ==> Valid() && log == Written(old(log), index, e)
      ensures !Writes(old(log.start), old(log.Next()), dummy, index, e) ==> Lost()
    {
      WriteEffect(logs, dummy, log, index, e);
      logs := EraseFrom(logs, index);
      logs := logs[index := e];
      if Writes(log.start, log.Next(), dummy, index, e) {
        log := Written(log, index, e);
      }
    }

    /** Drops everything up to and including `last`; the start moves even when nothing is there. */
    method Compact(last: nat)
      requires Valid()
      modifies this
      ensures Valid() && log == Apply(old(log), LogSpec.Compact(last))
    {
      StandsCompact(logs, dummy, log, last);
      logs := EraseUpTo(logs, startIdx, last);
      if startIdx <= last {
        startIdx := last + 1;
      }
      log := Compacted(log, last);
    }

    /** Puts the entries of a pack into the map one by one. */
    method PutFrames(index: nat, pack: seq<Byte>, ghost es: seq<Entry>)
      requires Carries(format, es) && pack == PackOf(Sers(format, es))
      modifies this`logs
      ensures logs == PutAll(old(logs), index, es)
    {
      ghost var bs, was := Sers(format, es), logs;
      CountAt(bs);
      var num := Int32(FromBytes(pack[..4]));
      var pos := 4;
      for ii := 0 to num
        invariant pos == Offset(bs, ii) && logs == PutAll(was, index, es[..ii])
      {
        var record;
        record, pos := ReadFrame(pack, pos, bs, ii);
        PutAllNext(was, index, es, ii);
        logs := logs[index + ii := format.deser(record)];
      }
      assert es[..num] == es;
    }

    /** Applies a pack from any index on; the start is read off the map afterwards. The store then stands
        for the log with the entries laid over it if they fit, and for no log otherwise. */
    method ApplyPack(index: nat, pack: seq<Byte>, ghost es: seq<Entry>)
      requires Valid() && Carries(format, es) && pack == PackOf(Sers(format, es))
      modifies this
      ensures logs == PutAll(old(logs), index, es) && Usable() && IsFirst(logs, startIdx)
      ensures Fits(old(log), dummy, index, es) ==> Valid() && log == Landed(old(log), dummy, index, es)
      ensures !Fits(old(log), dummy, index, es) ==> NoLog(logs, dummy) && Lost()
    {
      PackEffect(logs, dummy, log, index, es);
      PutAllMeans(logs, index, es, 0);
      PutFrames(index, pack, es);
      var first := NextKey(logs, 0);
      startIdx := if first.Some? then first.value else 1;
      if Fits(log, dummy, index, es) {
        log := Landed(log, dummy, index, es);
        assert log.entries != [] ==> log.start in logs;
      }
    }
  }

  /** The smallest key above 0, or 1. */
  ghost predicate IsFirst(logs: map<nat, Entry>, start: nat) {
    if exists k :: k in logs && k > 0 then start in logs && start > 0 && forall k :: k in logs && k > 0 ==> start <= k
    else start == 1
  }
}
