/** The database-backed log store with its cache. Every operation is proved against the plain
    indexed log. The cache shows in one place only: a size hint cuts a range of one or two entries
    when they are cached and does not when they are not.
 */
module JungleStore {
  import opened Options
  import opened LogSpec
  import opened Serializer
  import opened EntryCodec
  import opened PackFormat
  import opened JungleDb
  import opened LogCache
  import opened MapSum

  /** An entry read back from the database carries no timestamp. */
  function Loaded(r: Rec): Entry {
    Entry(r.term, r.kind, r.payload, 0)
  }

  function Max(a: nat, b: nat): nat {
    if a < b then b else a
  }

  function Min(a: nat, b: nat): nat {
    if a < b then a else b
  }

  function StripOption(e: Option<Entry>): Option<Rec> {
    match e
    case None => None
    case Some(v) => Some(Strip(v))
  }

  /** The cache holds the last entries of the log, from `lo` on. */
  ghost predicate Mirrors(logs: map<nat, Entry>, lo: nat, log: Log<Rec>) {
    && log.start <= lo <= log.Next()
    && Contiguous(logs, lo, log.Next())
    && forall k :: k in logs ==> Strip(logs[k]) == log.At(k)
  }

  /** Putting an entry at the end of the log, or over its last entry, keeps the mirror. */
  lemma MirrorPut(logs: map<nat, Entry>, lo: nat, log: Log<Rec>, i: nat, e: Entry)
    requires Mirrors(logs, lo, log) && log.start <= i && log.Next() <= i + 1 <= log.Next() + 1
    ensures Mirrors(logs[i := e], Min(lo, i), PutAt(log, i, Strip(e)))
  {
    if logs == map[] {
      assert lo !in logs;
    } else {
      assert lo < log.Next();
    }
  }

  /** Cutting the front off the cache keeps the mirror. */
  lemma MirrorCut(logs: map<nat, Entry>, lo: nat, log: Log<Rec>, cut: nat)
    requires Mirrors(logs, lo, log) && lo <= cut <= log.Next()
    ensures Mirrors(From(logs, cut), cut, log)
  {
  }

  lemma MirrorCompact(logs: map<nat, Entry>, lo: nat, log: Log<Rec>, last: nat)
    requires Mirrors(logs, lo, log) && last < log.Next()
    ensures Mirrors(From(logs, last + 1), if lo <= last then last + 1 else lo, Compacted(log, last))
    ensures Mirrors(From(logs, last + 1), if lo <= last then last + 1 else lo, log)
  {
    assert last < lo ==> From(logs, last + 1) == logs;
  }

  /** A range of cached entries is the same range of the log. */
  lemma MirrorRange(logs: map<nat, Entry>, lo: nat, log: Log<Rec>, start: nat, end: nat)
    requires Mirrors(logs, lo, log) && lo <= start <= end <= log.Next()
    ensures Strips(Range(logs, start, end)) == log.entries[start - log.start..end - log.start]
  {
    var r := Range(logs, start, end);
    forall i | 0 <= i < |r| ensures Strip(r[i]) == log.entries[start - log.start + i] {
      assert start + i in logs;
    }
  }

  lemma EmptyMirrors(log: Log<Rec>)
    ensures Mirrors(map[], log.Next(), log)
  {
  }

  // ---------- Where the cached part begins ----------

  /** What cached records count for. */
  function CostSum(size: Container, rs: seq<Rec>): nat {
    if rs == [] then 0 else 16 + size(|rs[0].payload|) + CostSum(size, rs[1..])
  }

  /** The records from index `t` on are within both limits. */
  predicate FitsFrom(lim: Limits, log: Log<Rec>, t: nat)
    requires log.start <= t <= log.Next()
  {
    && CostSum(lim.size, log.entries[t - log.start..]) <= lim.maxCacheSize
    && (t < log.Next() ==> log.Next() <= lim.maxLogsToKeep + t + 1)
  }

  /** The first index, from `t` on, from which on everything can be cached. */
  function FirstFit(lim: Limits, log: Log<Rec>, t: nat): (r: nat)
    requires log.start <= t <= log.Next()
    ensures t <= r <= log.Next()
    decreases log.Next() - t
  {
    if t == log.Next() || FitsFrom(lim, log, t) then t else FirstFit(lim, log, t + 1)
  }

  lemma {:induction false} FirstFitMeans(lim: Limits, log: Log<Rec>, t: nat)
    requires log.start <= t <= log.Next()
    ensures var r := FirstFit(lim, log, t);
            t <= r <= log.Next() && FitsFrom(lim, log, r) && forall u :: t <= u < r ==> !FitsFrom(lim, log, u)
    decreases log.Next() - t
  {
    if t < log.Next() && !FitsFrom(lim, log, t) {
      FirstFitMeans(lim, log, t + 1);
    }
  }

  lemma FromStep(cache: Cache, logs: map<nat, Entry>, t: nat)
    requires t in logs
    ensures cache.Bytes(From(logs, t)) == 16 + cache.size(|logs[t].payload|) + cache.Bytes(From(logs, t + 1))
  {
    assert From(logs, t) - {t} == From(logs, t + 1);
    SumRemove(From(logs, t), t, CostOf(cache.size));
  }

  lemma {:induction false} CostIsSum(cache: Cache, logs: map<nat, Entry>, rs: seq<Rec>, t: nat)
    requires forall k :: k in logs ==> k < t + |rs|
    requires forall k :: t <= k < t + |rs| ==> k in logs && Strip(logs[k]) == rs[k - t]
    ensures cache.Bytes(From(logs, t)) == CostSum(cache.size, rs)
    decreases |rs|
  {
    if rs == [] {
      assert From(logs, t) == map[];
    } else {
      CostIsSum(cache, logs, rs[1..], t + 1);
      FromStep(cache, logs, t);
    }
  }

  lemma FitsAlike(cache: Cache, logs: map<nat, Entry>, lo: nat, log: Log<Rec>, t: nat)
    requires Mirrors(logs, lo, log) && lo <= t <= log.Next()
    ensures cache.Fits(From(logs, t), log.Next()) <==> FitsFrom(cache.Settings(), log, t)
  {
    CostIsSum(cache, logs, log.entries[t - log.start..], t);
    cache.FitsCut(logs, lo, log.Next(), t);
  }

  /** What eviction leaves begins where the limits say. */
  lemma LongestIsFirst(cache: Cache, logs: map<nat, Entry>, lo: nat, log: Log<Rec>, cut: nat)
    requires Mirrors(logs, lo, log) && cache.LongestFitting(logs, lo, log.Next(), cut)
    ensures cut == FirstFit(cache.Settings(), log, lo)
  {
    var r := FirstFit(cache.Settings(), log, lo);
    FirstFitMeans(cache.Settings(), log, lo);
    FitsAlike(cache, logs, lo, log, cut);
    FitsAlike(cache, logs, lo, log, r);
  }

  /** What a write does to a store that stands for a log. */
  lemma WriteKeeps(cache: Cache, db: Db<seq<Byte>>, log: Log<Rec>, logs: map<nat, Entry>, lo: nat, index: nat, e: Entry,
                   cut: nat)
    requires Holds(Encode, db, log) && AllStorable(log.entries) && Mirrors(logs, lo, log) && Storable(Strip(e))
    requires log.start <= index && log.Next() <= index + 1 <= log.Next() + 1
    requires cache.LongestFitting(logs[index := e], Min(lo, index), index + 1, cut)
    ensures var now := PutAt(log, index, Strip(e));
            && Holds(Encode, db.Set(index, Encode(Strip(e))), now) && AllStorable(now.entries)
            && Mirrors(From(logs[index := e], cut), cut, now)
            && cut == FirstFit(cache.Settings(), now, Min(lo, index))
  {
    var now := PutAt(log, index, Strip(e));
    PutStorable(log, index, Strip(e));
    SetPuts(Encode, db, log, index, Strip(e));
    MirrorPut(logs, lo, log, index, e);
    LongestIsFirst(cache, logs[index := e], Min(lo, index), now, cut);
    MirrorCut(logs[index := e], Min(lo, index), now, cut);
  }

  // ---------- A store without a log ----------

  /** The cache holds the last records of the database, whatever else that holds. */
  ghost predicate Echoes(logs: map<nat, Entry>, lo: nat, db: Db<seq<Byte>>) {
    && Contiguous(logs, lo, Top(db))
    && forall k :: k in logs ==> k in db.records && Decode(db.records[k]) == Some(Strip(logs[k]))
  }

  lemma EchoPut(logs: map<nat, Entry>, lo: nat, db: Db<seq<Byte>>, e: Entry, cut: nat)
    requires Echoes(logs, lo, db) && Storable(Strip(e)) && Min(lo, Top(db)) <= cut <= Top(db) + 1
    ensures Contiguous(logs[Top(db) := e], lo, Top(db) + 1)
    ensures Echoes(From(logs[Top(db) := e], cut), cut, db.Set(Top(db), Encode(Strip(e))))
  {
    RoundTrip(Strip(e));
  }

  lemma ReadablePut(db: Db<seq<Byte>>, i: nat, r: Rec)
    requires Readable(db) && Storable(r)
    ensures Readable(db.Set(i, Encode(r)))
  {
    RoundTrip(r);
  }

  /** The outcome of purging the database's log files. */
  datatype PurgeStatus = Done | InProgress | Failed

  /** What a compaction past the end stores before it purges: the text "dummy_value". */
  const DUMMY: seq<Byte> := [100, 117, 109, 109, 121, 95, 118, 97, 108, 117, 101]

  /** The dummy is no encoding: a database that stands for a log does not hold it. */
  lemma NoDummy(db: Db<seq<Byte>>, log: Log<Rec>, i: nat)
    requires Holds(Encode, db, log) && i in db.records
    ensures db.records[i] != DUMMY
  {
    assert |Encode(log.At(i))| >= 13;
  }

  /** What a reader takes the dummy for. */
  const DUMMY_REC := Rec(7238812293023102561, 108, [])

  lemma DecodeDummy()
    ensures Decode(DUMMY) == Some(DUMMY_REC)
  {
    var s := DUMMY[0..8];
    assert s == [100, 117, 109, 109, 121, 95, 118, 97];
    assert FromBytes(s[..2]) == 25717 by { assert FromBytes(s[..2][..1]) == 100 by { assert s[..2][..1][..0] == []; } }
    assert FromBytes(s[..4]) == 1685417325 by { assert s[..4][..3][..2] == s[..2]; }
    assert FromBytes(s[..6]) == 110455509842271 by { assert s[..6][..5][..4] == s[..4]; }
    assert FromBytes(s) == 7238812293023102561 by { assert s[..7][..6] == s[..6]; }
    OneByte(108);
    assert DUMMY[8..9] == [108];
  }

  function Encs(rs: seq<Rec>): (r: seq<seq<Byte>>)
    ensures |r| == |rs| && forall i :: 0 <= i < |rs| ==> r[i] == Encode(rs[i])
  {
    Encoded(Encode, rs)
  }

  /** The database stands for no log at all. */
  ghost predicate NoLog(db: Db<seq<Byte>>) {
    forall l: Log<Rec> :: !Holds(Encode, db, l)
  }

  predicate Readable(db: Db<seq<Byte>>) {
    forall k :: k in db.records ==> Decode(db.records[k]).Some?
  }

  /** What a database has at an index. */
  function ReadFrom(db: Db<seq<Byte>>, i: nat): Option<Rec> {
    if i in db.records then Decode(db.records[i]) else None
  }

  lemma ReadsDummy(db: Db<seq<Byte>>, i: nat)
    requires i in db.records && db.records[i] == DUMMY
    ensures ReadFrom(db, i) == Some(DUMMY_REC)
  {
    DecodeDummy();
  }

  lemma ReadsRecord(db: Db<seq<Byte>>, i: nat, r: Rec)
    requires i in db.records && db.records[i] == Encode(r) && Storable(r)
    ensures ReadFrom(db, i) == Some(r)
  {
    RoundTrip(r);
  }

  predicate AllStorable(rs: seq<Rec>) {
    forall i :: 0 <= i < |rs| ==> Storable(rs[i])
  }

  lemma PutStorable(log: Log<Rec>, i: nat, r: Rec)
    requires log.start <= i <= log.Next() && AllStorable(log.entries) && Storable(r)
    ensures AllStorable(PutAt(log, i, r).entries)
  {
  }

  lemma CompactedStorable(log: Log<Rec>, last: nat)
    requires AllStorable(log.entries)
    ensures AllStorable(Compacted(log, last).entries)
  {
  }

  lemma LogReadable(db: Db<seq<Byte>>, log: Log<Rec>)
    requires Holds(Encode, db, log) && AllStorable(log.entries)
    ensures Readable(db)
  {
    forall k | k in db.records ensures Decode(db.records[k]).Some? {
      ReadsRecord(db, k, log.At(k));
    }
  }

  lemma DummyIsNoLog(db: Db<seq<Byte>>, i: nat)
    requires i in db.records && db.records[i] == DUMMY
    ensures NoLog(db)
  {
    forall l: Log<Rec> ensures !Holds(Encode, db, l) {
      if Holds(Encode, db, l) {
        NoDummy(db, l, i);
      }
    }
  }

  /** With the dummy in it a database stands for no log. */
  lemma DummyStored(db: Db<seq<Byte>>, log: Log<Rec>, last: nat)
    requires Holds(Encode, db, log) && AllStorable(log.entries)
    ensures NoLog(db.Set(last, DUMMY)) && Readable(db.Set(last, DUMMY))
  {
    LogReadable(db, log);
    DecodeDummy();
    DummyIsNoLog(db.Set(last, DUMMY), last);
  }

  lemma PackReadable(db: Db<seq<Byte>>, i: nat, rs: seq<Rec>)
    requires Readable(db) && AllStorable(rs)
    ensures Readable(SetAll(db, i, Encs(rs)))
  {
    if rs != [] {
      SetAllMeans(db, i, Encs(rs));
      var db' := SetAll(db, i, Encs(rs));
      forall k | k in db'.records ensures Decode(db'.records[k]).Some? {
        if i <= k < i + |rs| {
          ReadsRecord(db', k, rs[k - i]);
        } else {
          assert db'.records[k] == db.records[k];
        }
      }
    }
  }

  function Loadeds(rs: seq<Rec>): (r: seq<Entry>)
    ensures |r| == |rs| && forall i :: 0 <= i < |rs| ==> r[i] == Loaded(rs[i])
    ensures Strips(r) == rs
  {
    seq(|rs|, i requires 0 <= i < |rs| => Loaded(rs[i]))
  }

  /** A vector with a slot per entry has no slot left over, cut or not. */
  lemma FullSlots(size: Container, all: seq<Entry>, hint: int, vector: seq<Option<Entry>>, found: seq<Entry>)
    requires Copied(size, all, |all|, hint, vector, found)
    ensures vector == Slots(found)
  {
    assert Strips(found) == Strips(all) ==> |found| == |all|;
  }

  method BufferOf(v: seq<Byte>) returns (buf: array<Byte>)
    ensures fresh(buf) && buf[..] == v
  {
    buf := new Byte[|v|](i requires 0 <= i < |v| => v[i]);
  }

  class Store {
    var db: Db<seq<Byte>>
    const cache: Cache
    /** The log the store stands for, and where the cached part of it begins. */
    ghost var log: Log<Rec>
    ghost var lo: nat

    ghost predicate Valid()
      reads this, cache
    {
      && cache.Valid()
      && Holds(Encode, db, log)
      && AllStorable(log.entries)
      && Mirrors(cache.logs, lo, log)
      && (cache.curStartIdx == 0 || (db.maxSeq.Some? && cache.curStartIdx == db.minSeq))
    }

    /** What is left when the database stands for no log: whatever is cached is the end of it. */
    ghost predicate Loose()
      reads this, cache
    {
      && cache.Valid() && Echoes(cache.logs, lo, db)
      && (cache.curStartIdx == 0 || (db.maxSeq.Some? && cache.curStartIdx == Max(1, db.minSeq)))
      && Readable(db)
    }

    /** What the database has at an index. */
    function Raw(index: nat): Option<Rec>
      reads this
    {
      ReadFrom(db, index)
    }

    constructor (maxCacheSize: nat, maxLogsToKeep: nat, size: Container)
      ensures Valid() && db.maxSeq.None? && log == Log(1, []) && fresh(cache) && lo == 1
      ensures cache.Settings() == Limits(maxCacheSize, maxLogsToKeep, size)
    {
      db := Db(map[], None, 0);
      cache := new Cache(maxCacheSize, maxLogsToKeep, size);
      log := Log(1, []);
      lo := 1;
    }

    // ---------- Reads ----------

    method NextSlot() returns (next: nat)
      requires Valid() || Loose()
      ensures next == Top(db) && (Valid() ==> next == log.Next())
    {
      next := cache.NextSlot(lo, Top(db));
      if next == 0 {
        if db.maxSeq.None? {
          return 1;
        }
        next := db.maxSeq.value + 1;
      }
    }

    method StartIndex() returns (start: nat)
      requires Valid() || Loose()
      modifies cache`curStartIdx
      ensures old(Valid()) ==> Valid() && start == log.start
      ensures old(Loose()) ==> Loose()
      ensures start == if db.maxSeq.None? then 1 else Max(1, db.minSeq)
    {
      if cache.curStartIdx == 0 {
        if db.maxSeq.None? {
          return 1;
        }
        cache.curStartIdx := Max(1, db.minSeq);
      }
      return cache.curStartIdx;
    }

    lemma RawIsEntry(index: nat)
      requires Holds(Encode, db, log) && AllStorable(log.entries)
      ensures Readable(db) && Raw(index) == log.Lookup(index)
    {
      LogReadable(db, log);
      if index in db.records {
        ReadsRecord(db, index, log.At(index));
      }
    }

    /** Reads one record of the database. */
    method Fetch(index: nat) returns (e: Option<Entry>)
      requires Valid() || Loose()
      ensures e == match Raw(index) case Some(r) => Some(Loaded(r)) case None => None
      ensures Valid() ==> e == if log.Holds(index) then Some(Loaded(log.At(index))) else None
      ensures e.Some? ==> e.value.timestamp == 0
    {
      if Valid() {
        RawIsEntry(index);
      }
      if index !in db.records {
        return None;
      }
      var buf := BufferOf(db.records[index]);
      var r := DecodeRecord(buf);
      return Some(Loaded(r.value));
    }

    /** The entry at an index, or the dummy entry, here no entry at all. */
    method EntryAt(index: nat) returns (e: Option<Entry>)
      requires Valid() || Loose()
      ensures Valid() ==> StripOption(e) == log.Lookup(index)
      ensures Loose() ==> StripOption(e) == Raw(index)
    {
      e := cache.Get(index);
      if e.None? {
        e := Fetch(index);
      }
    }

    method TermAt(index: nat) returns (term: nat)
      requires Valid()
      ensures term == if log.Holds(index) then log.At(index).term else 0
    {
      var e := cache.Get(index);
      if e.Some? {
        return e.value.term;
      }
      if index !in db.records {
        return 0;
      }
      DecodeEncoded(log.At(index));
      var buf := BufferOf(db.records[index]);
      term := ReadTerm(buf);
    }

    method LastEntry() returns (e: Option<Entry>)
      requires Valid()
      ensures StripOption(e) == log.Last()
    {
      if db.maxSeq.None? {
        return None;
      }
      e := EntryAt(db.maxSeq.value);
    }

    /** The records at start, start + 1, ..., end - 1. */
    ghost function Slice(start: nat, end: nat): seq<Rec>
      requires log.start <= start <= end <= log.Next()
      reads this
    {
      log.entries[start - log.start..end - log.start]
    }

    /** One more entry of a range read. */
    lemma ReadOne(start: nat, ii: nat, found: seq<Entry>, e: Entry)
      requires log.start <= start <= ii < log.Next() && Strip(e) == log.At(ii) && Strips(found) == Slice(start, ii)
      ensures Slots(found + [e]) == Slots(found) + [Some(e)] && Strips(found + [e]) == Slice(start, ii + 1)
    {
      assert Strips(found + [e]) == Strips(found) + [Strip(e)];
    }

    method PointRead(ii: nat) returns (e: Option<Entry>)
      requires Valid() && log.Holds(ii)
      ensures e.Some? && Strip(e.value) == log.At(ii)
    {
      e := EntryAt(ii);
    }

    /** The point queries of a short range: the size hint plays no part. */
    method PointReads(start: nat, end: nat) returns (vector: seq<Option<Entry>>, found: seq<Entry>)
      requires Valid() && log.start <= start <= end <= log.Next()
      ensures vector == Slots(found) && Strips(found) == Slice(start, end)
    {
      vector, found := [], [];
      for ii := start to end
        invariant vector == Slots(found) && Strips(found) == Slice(start, ii)
      {
        var e := PointRead(ii);
        ReadOne(start, ii, found, e.value);
        vector, found := vector + [e], found + [e.value];
      }
    }

    /** The iterator over the database, cut where the size hint is reached. */
    method Iterate(start: nat, end: nat, hint: int) returns (found: seq<Entry>)
      requires Valid() && log.start <= start <= end <= log.Next()
      ensures Limited(cache.size, Slice(start, end), hint, Strips(found))
    {
      ghost var all := Loadeds(Slice(start, end));
      found := [];
      var curSize: nat := 0;
      for ii := start to end
        invariant |found| == ii - start && Taking(cache.size, all, hint, found, curSize)
      {
        var le := Fetch(ii);
        TakeStep(cache.size, all, hint, found, curSize, le.value);
        found := found + [le.value];
        curSize := curSize + cache.size(|le.value.payload|);
        if hint > 0 && curSize >= hint {
          return;
        }
      }
      TakeDone(cache.size, all, hint, found, curSize);
    }

    lemma CachedIsSlice(start: nat, end: nat)
      requires Mirrors(cache.logs, lo, log) && log.start <= start < end <= log.Next() && lo <= start
      ensures Strips(cache.Cached(start, end, log.Next())) == Slice(start, end)
    {
      MirrorRange(cache.logs, lo, log, start, end);
    }

    /** The cached attempt at a range read. */
    method CachedReads(start: nat, end: nat, hint: int)
      returns (hit: bool, vector: seq<Option<Entry>>, found: seq<Entry>)
      requires Valid() && log.start <= start < end <= log.Next()
      ensures hit <==> start in cache.logs
      ensures hit ==> vector == Slots(found) && Limited(cache.size, Slice(start, end), hint, Strips(found))
    {
      hit, vector, found := cache.Gets(start, end, hint, lo, log.Next());
      if hit {
        ghost var all := cache.Cached(start, end, log.Next());
        CachedIsSlice(start, end);
        FullSlots(cache.size, all, hint, vector, found);
      }
    }

    /** A range read of entries the log holds, from whichever place has them. A hint above zero
        cuts the result where the sizes reach it, except for one or two uncached entries. */
    method LogEntriesExt(start: nat, end: nat, hint: int)
      returns (r: Option<seq<Option<Entry>>>, found: seq<Entry>)
      requires Valid() && (start < end ==> log.start <= start && end <= log.Next())
      ensures r == if start < end then Some(Slots(found)) else None
      ensures start < end && (start in cache.logs || end > start + 2) ==>
                Limited(cache.size, Slice(start, end), hint, Strips(found))
      ensures start < end && start !in cache.logs && end <= start + 2 ==> Strips(found) == Slice(start, end)
    {
      if start >= end {
        return None, [];
      }
      var hit, vector;
      hit, vector, found := CachedReads(start, end, hint);
      if !hit {
        if end <= 2 + start {
          vector, found := PointReads(start, end);
        } else {
          found := Iterate(start, end, hint);
          vector := Slots(found);
        }
      }
      r := Some(vector);
    }

    /** The records of the database from an index on. */
    method Records(index: nat, cnt: nat) returns (records: seq<seq<Byte>>)
      requires Valid() && log.start <= index && index + cnt <= log.Next()
      ensures records == Encs(Slice(index, index + cnt))
    {
      records := [];
      for idx := 0 to cnt
        invariant |records| == idx && forall i :: 0 <= i < idx ==> records[i] == Encode(log.At(index + i))
      {
        records := records + [db.records[index + idx]];
      }
    }

    /** Packs `cnt` records from an index on into a buffer of exactly the size computed for it. */
    method Pack(index: nat, cnt: nat) returns (pack: seq<Byte>, bufSize: nat)
      requires Valid() && cnt >= 1 && log.start <= index && index + cnt <= log.Next()
      requires Packable(Encs(Slice(index, index + cnt)))
      ensures pack == PackOf(Encs(Slice(index, index + cnt))) && |pack| == bufSize
    {
      var records := Records(index, cnt);
      pack, bufSize := WritePack(records);
    }

    // ---------- Writes ----------

    /** Encodes an entry and stores it in the database. */
    method StoreRecord(index: nat, e: Entry)
      modifies this`db
      ensures db == old(db).Set(index, Encode(Strip(e)))
    {
      var buf, ok := EncodeEntry(e);
      db := db.Set(index, buf[..]);
    }

    /** Caches an entry at the end of what is cached, or over the last one. */
    method CacheEntry(index: nat, e: Entry, ghost hi: nat)
      requires cache.Valid() && Contiguous(cache.logs, lo, hi) && hi <= index + 1 <= hi + 1
      modifies this`lo, cache`logs, cache`logsSize
      ensures cache.Valid() && cache.logs == From(old(cache.logs)[index := e], lo)
      ensures cache.LongestFitting(old(cache.logs)[index := e], Min(old(lo), index), index + 1, lo)
    {
      ghost var l := Min(lo, index);
      assert cache.logs != map[] ==> lo in cache.logs;
      lo := cache.Set(index, e, l, index + 1);
    }

    /** Stores an entry at the end of the log or over its last entry; without a log, after the last record
        of the database. */
    method WriteInternal(index: nat, e: Entry)
      requires Storable(Strip(e)) && (Valid() || Loose())
      requires Valid() ==> log.start <= index && log.Next() <= index + 1 <= log.Next() + 1
      requires !Valid() ==> index == Top(db)
      modifies this, cache
      ensures db == old(db).Set(index, Encode(Strip(e)))
      ensures old(Valid()) ==> Valid() && log == PutAt(old(log), index, Strip(e))
      ensures old(Valid()) ==> lo == FirstFit(cache.Settings(), log, Min(old(lo), index))
      ensures old(Loose()) && index == Top(old(db)) ==> Loose()
    {
      ghost var valid, loose, was, logs, l := Valid(), Loose(), db, cache.logs, lo;
      StoreRecord(index, e);
      CacheEntry(index, e, Top(was));
      if loose && index == Top(was) {
        LooseAfter(was, logs, l, e);
      }
      if valid {
        ValidAfter(was, logs, l, index, e);
      }
    }

    /** What is left to say after a write when there was a log before it. */
    ghost method ValidAfter(was: Db<seq<Byte>>, logs: map<nat, Entry>, l: nat, index: nat, e: Entry)
      requires Holds(Encode, was, log) && AllStorable(log.entries) && Mirrors(logs, l, log) && Storable(Strip(e))
      requires log.start <= index && log.Next() <= index + 1 <= log.Next() + 1
      requires cache.LongestFitting(logs[index := e], Min(l, index), index + 1, lo)
      requires db == was.Set(index, Encode(Strip(e))) && cache.Valid() && cache.logs == From(logs[index := e], lo)
      requires cache.curStartIdx == 0 || (was.maxSeq.Some? && cache.curStartIdx == was.minSeq)
      modifies this`log
      ensures Valid() && log == PutAt(old(log), index, Strip(e))
      ensures lo == FirstFit(cache.Settings(), log, Min(l, index))
    {
      WriteKeeps(cache, was, log, logs, l, index, e, lo);
      log := PutAt(log, index, Strip(e));
    }

    /** And when there was none. */
    lemma LooseAfter(was: Db<seq<Byte>>, logs: map<nat, Entry>, l: nat, e: Entry)
      requires Echoes(logs, l, was) && Readable(was) && Storable(Strip(e)) && Min(l, Top(was)) <= lo <= Top(was) + 1
      requires db == was.Set(Top(was), Encode(Strip(e)))
      requires cache.Valid() && cache.logs == From(logs[Top(was) := e], lo)
      requires cache.curStartIdx == 0 || (was.maxSeq.Some? && cache.curStartIdx == Max(1, was.minSeq))
      ensures Loose()
    {
      EchoPut(logs, l, was, e, lo);
      ReadablePut(was, Top(was), Strip(e));
    }

    method Append(e: Entry) returns (index: nat)
      requires Storable(Strip(e)) && (Valid() || Loose())
      modifies this, cache
      ensures index == Top(old(db)) && db == old(db).Set(index, Encode(Strip(e)))
      ensures old(Valid()) ==> Valid() && log == Apply(old(log), LogSpec.Append(Strip(e)))
      ensures old(Valid()) ==> index == old(log).Next() && lo == FirstFit(cache.Settings(), log, old(lo))
      ensures old(Loose()) ==> Loose()
    {
      index := 1;
      if db.maxSeq.Some? {
        index := db.maxSeq.value + 1;
      }
      WriteInternal(index, e);
    }

    /** Drops everything after `to`. */
    method Rollback(to: nat)
      requires Valid() && log.start <= to + 1
      modifies this, cache
      ensures Valid() && log == Truncated(old(log), to) && (db.maxSeq.None? <==> old(db).maxSeq.None?)
      ensures lo == log.Next()
    {
      RollbackTruncates(Encode, db, log, to);
      db := db.Rollback(to);
      cache.Drop();
      log := Truncated(log, to);
      lo := log.Next();
      EmptyMirrors(log);
    }

    /** Overwrites from an index on. */
    method WriteAt(index: nat, e: Entry)
      requires Valid() && Storable(Strip(e)) && Enabled(log, LogSpec.WriteAt(index, Strip(e)))
      modifies this, cache
      ensures Valid() && log == Apply(old(log), LogSpec.WriteAt(index, Strip(e))) && db.maxSeq.Some?
      ensures lo == FirstFit(cache.Settings(), log, if index + 1 < old(log).Next() then index else Min(old(lo), index))
    {
      if db.maxSeq.Some? && db.maxSeq.value != 0 && db.maxSeq.value > index {
        Rollback(index - 1);
      }
      CutAndPut(old(log), index, Strip(e));
      WriteInternal(index, e);
    }

    /** Compacting past the end: a dummy is stored first, so that there is something to purge.
        Unless the purge removes it again the database stands for no log any more. */
    method CompactBeyond(last: nat, purge: PurgeStatus)
      requires Valid() && (db.maxSeq.None? || log.Next() <= last)
      modifies this, cache
      ensures purge == Done ==> Valid() && log == Log(last + 1, []) && db.maxSeq.Some? && lo == last + 1
      ensures purge != Done ==> Loose() && NoLog(db) && db == old(db).Set(last, DUMMY)
    {
      DummyStored(db, log, last);
      PurgeBeyond(Encode, db, log, last, DUMMY);
      db := db.Set(last, DUMMY);
      cache.Drop();
      if purge == Done {
        db := db.Purge(last);
        log := Log(last + 1, []);
        EmptyMirrors(log);
      }
      lo := Top(db);
      cache.curStartIdx := 0;
    }

    /** Compacting within the log. */
    method CompactWithin(last: nat, purge: PurgeStatus)
      requires Valid() && db.maxSeq.Some? && last < log.Next()
      modifies this, cache
      ensures Valid() && log == (if purge == Done then Compacted(old(log), last) else old(log)) && db.maxSeq.Some?
      ensures lo == Max(old(lo), last + 1)
    {
      MirrorCompact(cache.logs, lo, log, last);
      if purge == Done {
        PurgeCompacts(Encode, db, log, last);
        CompactedStorable(log, last);
        db := db.Purge(last);
        log := Compacted(log, last);
      }
      cache.Compact(last);
      lo := if lo <= last then last + 1 else lo;
      cache.curStartIdx := 0;
    }

    /** `last` is past the end: there is nothing to purge up to it. */
    predicate Beyond(last: nat)
      reads this
    {
      db.maxSeq.None? || db.maxSeq.value < last
    }

    /** Purges everything up to and including `last`. The store keeps standing for a log exactly
        when the purge succeeds or `last` was not past the end. */
    method Compact(last: nat, purge: PurgeStatus) returns (ok: bool)
      requires Valid()
      modifies this, cache
      ensures ok <==> purge != Failed
      ensures purge == Done ==> Valid() && log == Compacted(old(log), last) && db.maxSeq.Some?
      ensures purge != Done && !old(Beyond(last)) ==> Valid() && log == old(log) && db.maxSeq.Some?
      ensures purge != Done && old(Beyond(last)) ==> Loose() && NoLog(db) && db == old(db).Set(last, DUMMY)
      ensures purge == Done || !old(Beyond(last)) ==> lo == Max(old(lo), last + 1)
    {
      if db.maxSeq.None? || db.maxSeq.value < last {
        CompactBeyond(last, purge);
      } else {
        CompactWithin(last, purge);
      }
      ok := purge != Failed;
    }

    /** Stores the records of a pack one by one. */
    method StorePack(index: nat, pack: seq<Byte>, ghost rs: seq<Rec>)
      requires Packable(Encs(rs)) && pack == PackOf(Encs(rs))
      modifies this`db
      ensures db == SetAll(old(db), index, Encs(rs))
    {
      ghost var vs, was := Encs(rs), db;
      CountAt(vs);
      var num := Int32(FromBytes(pack[..4]));
      var pos := 4;
      for ii := 0 to num
        invariant pos == Offset(vs, ii)
        invariant db == SetFirst(was, index, vs, ii)
      {
        var record;
        record, pos := ReadFrame(pack, pos, vs, ii);
        SetFirstNext(was, index, vs, ii);
        db := db.Set(index + ii, record);
      }
    }

    /** Applies a pack from an index on. The store keeps standing for a log exactly when there is
        nothing in it or it continues the log there is. */
    method ApplyPack(index: nat, pack: seq<Byte>, ghost rs: seq<Rec>)
      requires Valid() && Packable(Encs(rs)) && pack == PackOf(Encs(rs)) && AllStorable(rs)
      modifies this, cache
      ensures db == SetAll(old(db), index, Encs(rs)) && lo == Top(db)
      ensures rs == [] ==> Valid() && log == old(log)
      ensures rs != [] && Continues(old(db), old(log), index) ==>
                Valid() && log == Packed(old(log), index, rs) && db.maxSeq.Some?
      ensures rs != [] && !Continues(old(db), old(log), index) ==> Loose() && NoLog(db)
    {
      ghost var fits := rs == [] || Continues(db, log, index);
      PackEffect(index, rs);
      LogReadable(db, log);
      PackReadable(db, index, rs);
      StorePack(index, pack, rs);
      cache.Drop();
      if fits {
        log := if rs == [] then log else Packed(log, index, rs);
        EmptyMirrors(log);
      }
      lo := Top(db);
    }

    lemma PackEffect(index: nat, rs: seq<Rec>)
      requires Holds(Encode, db, log) && AllStorable(log.entries) && AllStorable(rs)
      ensures var db' := SetAll(db, index, Encs(rs));
              if rs == [] then db' == db
              else if Continues(db, log, index)
              then Holds(Encode, db', Packed(log, index, rs)) && AllStorable(Packed(log, index, rs).entries)
              else NoLog(db')
      ensures rs != [] ==>
                var db' := SetAll(db, index, Encs(rs));
                db'.maxSeq.Some? && (db.maxSeq.Some? ==> db'.minSeq == db.minSeq)
    {
      if rs != [] {
        SetAllMeans(db, index, Encs(rs));
        if Continues(db, log, index) {
          SetAllPacks(Encode, db, log, index, rs);
        } else {
          MisplacedPack(Encode, db, log, index, Encs(rs));
        }
      }
    }
  }
}
