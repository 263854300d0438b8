/** Whole runs of the database-backed store, seen from outside. */
module JungleRuns {
  import opened Options
  import opened LogSpec
  import opened Serializer
  import opened EntryCodec
  import opened PackFormat
  import opened JungleDb
  import opened LogCache
  import opened JungleStore

  /** A call of the store's interface that changes the log. How a purge ends is up to the database. */
  datatype Call =
    | DoAppend(e: Entry)
    | DoWriteAt(index: nat, e: Entry)
    | DoApplyPack(index: nat, rs: seq<Rec>)
    | DoCompact(last: nat, purge: PurgeStatus)
    | DoRollback(to: nat)

  /** The log a store stands for, and whether nothing was ever stored in it. */
  datatype Image = Image(log: Log<Rec>, blank: bool)

  const BLANK := Image(Log(1, []), true)

  // ---------- The calls on the plain log ----------

  /** What the entry format can carry. */
  predicate Carries(call: Call) {
    match call
    case DoAppend(e) => Storable(Strip(e))
    case DoWriteAt(_, e) => Storable(Strip(e))
    case DoApplyPack(_, rs) => Packable(Encs(rs)) && AllStorable(rs)
    case _ => true
  }

  /** What a caller owes: an index of the log, or the one after it. */
  predicate Proper(im: Image, call: Call) {
    match call
    case DoWriteAt(i, _) => im.log.start <= i <= im.log.Next()
    case DoRollback(to) => im.log.start <= to + 1
    case _ => true
  }

  /** The calls after which the store still stands for a log: a pack must continue the log, and a purge
      that fails must not have been past the end. */
  predicate FitsAt(blank: bool, start: nat, next: nat, call: Call) {
    match call
    case DoApplyPack(i, rs) => rs == [] || if blank then 1 <= i else start <= i <= next
    case DoCompact(last, purge) => purge == Done || (!blank && last < next)
    case _ => true
  }

  predicate Fits(im: Image, call: Call) {
    FitsAt(im.blank, im.log.start, im.log.Next(), call)
  }

  function After(im: Image, call: Call): Image
    requires Proper(im, call) && Fits(im, call)
  {
    match call
    case DoAppend(e) => Image(Apply(im.log, Append(Strip(e))), false)
    case DoWriteAt(i, e) => Image(Apply(im.log, WriteAt(i, Strip(e))), false)
    case DoApplyPack(i, rs) => if rs == [] then im else Packs(im, i, rs)
    case DoCompact(last, purge) => if purge == Done then Image(Compacted(im.log, last), false) else im
    case DoRollback(to) => Image(Truncated(im.log, to), im.blank)
  }

  /** A blank store takes its start from the first pack. */
  function Packs(im: Image, i: nat, rs: seq<Rec>): Image
    requires im.blank || im.log.start <= i <= im.log.Next()
  {
    Image(if im.blank then Log(i, rs) else Packed(im.log, i, rs), false)
  }

  /** Callers keep to what they owe for as long as there is a log. */
  predicate ProperRun(im: Image, calls: seq<Call>)
    decreases |calls|
  {
    calls == [] ||
    (Carries(calls[0]) && Proper(im, calls[0]) && (Fits(im, calls[0]) ==> ProperRun(After(im, calls[0]), calls[1..])))
  }

  /** The log after all the calls, unless one of them does not fit. */
  function Final(im: Image, calls: seq<Call>): Option<Image>
    requires ProperRun(im, calls)
    decreases |calls|
  {
    if calls == [] then Some(im)
    else if Fits(im, calls[0]) then Final(After(im, calls[0]), calls[1..])
    else None
  }

  // ---------- Where the cached part of the log begins ----------

  /** Writes cache what they write and evict from the front; compaction drops the front; rolling back and
      packs empty the cache. */
  function Begins(lim: Limits, im: Image, lo: nat, call: Call): (r: nat)
    requires Proper(im, call) && Fits(im, call) && im.log.start <= lo <= im.log.Next()
    ensures After(im, call).log.start <= r <= After(im, call).log.Next()
  {
    var log := After(im, call).log;
    match call
    case DoAppend(_) => FirstFit(lim, log, lo)
    case DoWriteAt(i, _) => FirstFit(lim, log, if i + 1 < im.log.Next() then i else Min(lo, i))
    case DoApplyPack(_, _) => log.Next()
    case DoCompact(last, _) => Max(lo, last + 1)
    case DoRollback(_) => log.Next()
  }

  function CachedFrom(lim: Limits, im: Image, lo: nat, calls: seq<Call>): nat
    requires ProperRun(im, calls) && Final(im, calls).Some? && im.log.start <= lo <= im.log.Next()
    decreases |calls|
  {
    if calls == [] then lo else CachedFrom(lim, After(im, calls[0]), Begins(lim, im, lo, calls[0]), calls[1..])
  }

  // ---------- The calls on the store ----------

  ghost function ImageOf(store: Store): Image
    reads store
  {
    Image(store.log, store.db.maxSeq.None?)
  }

  lemma BlankLog(store: Store)
    requires store.Valid() && store.db.maxSeq.None?
    ensures store.log == Log(1, [])
  {
  }

  /** What a call leaves: the log that the plain call leaves, cached from where the limits say, or none. */
  twostate predicate Did(store: Store, call: Call)
    requires old(store.Valid()) && Proper(old(ImageOf(store)), call)
    reads store, store.cache
  {
    if Fits(old(ImageOf(store)), call)
    then
      && store.Valid() && ImageOf(store) == After(old(ImageOf(store)), call)
      && store.lo == Begins(store.cache.Settings(), old(ImageOf(store)), old(store.lo), call)
    else store.Loose() && NoLog(store.db)
  }

  method DoPack(store: Store, i: nat, rs: seq<Rec>)
    requires store.Valid() && Packable(Encs(rs)) && AllStorable(rs)
    modifies store, store.cache
    ensures Did(store, DoApplyPack(i, rs))
  {
    if store.db.maxSeq.None? {
      BlankLog(store);
    }
    store.ApplyPack(i, PackOf(Encs(rs)), rs);
  }

  method Do(store: Store, call: Call)
    requires store.Valid() && Carries(call) && Proper(ImageOf(store), call)
    modifies store, store.cache
    ensures Did(store, call)
  {
    match call
    case DoAppend(e) => var _ := store.Append(e);
    case DoWriteAt(i, e) => store.WriteAt(i, e);
    case DoApplyPack(i, rs) => DoPack(store, i, rs);
    case DoCompact(last, purge) => var _ := store.Compact(last, purge);
    case DoRollback(to) => store.Rollback(to);
  }

  /** Makes the calls, up to and including the first that does not fit. The store then stands for the
      same log as the plain run, cached from where the limits say, or for none. */
  method RunCalls(store: Store, calls: seq<Call>) returns (kept: bool)
    requires store.Valid() && ProperRun(ImageOf(store), calls)
    modifies store, store.cache
    ensures match Final(old(ImageOf(store)), calls)
            case Some(im) =>
              && kept && store.Valid() && ImageOf(store) == im
              && store.lo == CachedFrom(store.cache.Settings(), old(ImageOf(store)), old(store.lo), calls)
            case None => !kept && store.Loose() && NoLog(store.db)
  {
    var rest := calls;
    ghost var all := Final(ImageOf(store), calls);
    ghost var lim := store.cache.Settings();
    ghost var from := if all.Some? then CachedFrom(lim, ImageOf(store), store.lo, calls) else 0;
    while rest != []
      invariant store.Valid() && ProperRun(ImageOf(store), rest) && Final(ImageOf(store), rest) == all
      invariant all.Some? ==> CachedFrom(lim, ImageOf(store), store.lo, rest) == from
      decreases |rest|
    {
      var fits := FitsAt(store.db.maxSeq.None?, Bottom(store.db), Top(store.db), rest[0]);
      Do(store, rest[0]);
      if !fits {
        return false;
      }
      rest := rest[1..];
    }
    kept := true;
  }

  // ---------- What a reader sees ----------

  /** The answers of every read. */
  datatype Seen = Seen(next: nat, start: nat, entry: Option<Entry>, term: nat, last: Option<Entry>,
                       range: Option<seq<Entry>>)

  /** Everything but the range is what the plain log holds. */
  predicate Shows(log: Log<Rec>, q: Query, seen: Seen) {
    && seen.next == log.Next() && seen.start == log.start
    && StripOption(seen.entry) == log.Lookup(q.i) && StripOption(seen.last) == log.Last()
    && seen.term == if log.Holds(q.i) then log.At(q.i).term else 0
  }

  /** How much of a range comes back: a hint cuts it unless it is short and not cached. */
  function Shown(size: Container, all: seq<Rec>, hint: int, cached: bool): seq<Rec> {
    var n := Taken(size, all, hint);
    if n <= |all| && (cached || |all| > 2) then all[..n] else all
  }

  predicate ShowsRange(size: Container, log: Log<Rec>, q: Query, range: Option<seq<Entry>>, cached: bool)
    requires Asks(log, q)
  {
    if q.from >= q.to then range == None
    else range.Some? && Strips(range.value) == Shown(size, RangeOf(log, q), q.hint, cached)
  }

  method LookRange(store: Store, q: Query) returns (range: Option<seq<Entry>>)
    requires store.Valid() && Asks(store.log, q)
    ensures ShowsRange(store.cache.size, store.log, q, range, store.lo <= q.from)
  {
    if q.from >= q.to {
      return None;
    }
    var r, found := store.LogEntriesExt(q.from, q.to, q.hint);
    range := Some(found);
    RangeShown(store.cache.size, RangeOf(store.log, q), q.hint, found, store.lo <= q.from);
  }

  lemma RangeShown(size: Container, all: seq<Rec>, hint: int, found: seq<Entry>, cached: bool)
    requires if cached || |all| > 2 then Limited(size, all, hint, Strips(found)) else Strips(found) == all
    ensures Strips(found) == Shown(size, all, hint, cached)
  {
    if cached || |all| > 2 {
      LimitedIsTaken(size, all, hint, Strips(found));
    }
  }

  method Look(store: Store, q: Query) returns (seen: Seen)
    requires store.Valid() && Asks(store.log, q)
    modifies store.cache`curStartIdx
    ensures Shows(store.log, q, seen) && ShowsRange(store.cache.size, store.log, q, seen.range, store.lo <= q.from)
  {
    var range := LookRange(store, q);
    var next := store.NextSlot();
    var entry := store.EntryAt(q.i);
    var term := store.TermAt(q.i);
    var last := store.LastEntry();
    var start := store.StartIndex();
    seen := Seen(next, start, entry, term, last, range);
  }

  /** The index from which on the log of a new store is cached after a run. */
  function CachedAfter(lim: Limits, calls: seq<Call>): nat
    requires ProperRun(BLANK, calls) && Final(BLANK, calls).Some?
  {
    CachedFrom(lim, BLANK, 1, calls)
  }

  /** After any run from a new store every read returns what the plain log holds, whatever the limits
      of the cache are; only how much of a short range comes back depends on them, through where the
      cached part begins. */
  method Observe(lim: Limits, calls: seq<Call>, q: Query) returns (seen: Option<Seen>)
    requires ProperRun(BLANK, calls) && (Final(BLANK, calls).Some? ==> Asks(Final(BLANK, calls).value.log, q))
    ensures match Final(BLANK, calls)
            case Some(im) =>
              && seen.Some? && Shows(im.log, q, seen.value)
              && ShowsRange(lim.size, im.log, q, seen.value.range, CachedAfter(lim, calls) <= q.from)
            case None => seen == None
  {
    var store := new Store(lim.maxCacheSize, lim.maxLogsToKeep, lim.size);
    assert ImageOf(store) == BLANK && store.cache.Settings() == lim;
    var kept := RunCalls(store, calls);
    if !kept {
      return None;
    }
    var s := Look(store, q);
    seen := Some(s);
  }

  // ---------- When the cache shows ----------

  predicate SameRange(a: Seen, b: Seen) {
    if a.range.None? || b.range.None? then a.range == b.range else Strips(a.range.value) == Strips(b.range.value)
  }

  /** The range has two entries and the first alone reaches the hint. */
  predicate CutInTwo(size: Container, log: Log<Rec>, q: Query)
    requires Asks(log, q)
  {
    q.hint > 0 && q.to == q.from + 2 && size(|log.At(q.from).payload|) >= q.hint
  }

  /** A limited read of one or two entries. */
  lemma ShortRange(size: Container, all: seq<Rec>, hint: int)
    requires 1 <= |all| <= 2
    ensures Shown(size, all, hint, true) ==
            if hint > 0 && |all| == 2 && size(|all[0].payload|) >= hint then [all[0]] else all
  {
    var one := all[..1];
    assert one[..0] == [] && one[0] == all[0];
    assert SizeOf(size, one) == size(|all[0].payload|);
    TakenIsLimited(size, all, hint);
    assert all[..|all|] == all;
  }

  /** Two readers of the same log get the same range, except for one of two entries whose first alone
      reaches the hint, cached for one of them only. */
  lemma CacheShows(size: Container, log: Log<Rec>, q: Query, a: Seen, b: Seen, cached: bool, cached': bool)
    requires Asks(log, q) && ShowsRange(size, log, q, a.range, cached) && ShowsRange(size, log, q, b.range, cached')
    ensures SameRange(a, b) <==> !(CutInTwo(size, log, q) && cached != cached')
  {
    if q.from < q.to <= q.from + 2 {
      ShortRange(size, RangeOf(log, q), q.hint);
    }
  }

  /** The same calls under two settings of the cache's limits give the same answers, except for a range of
      two entries whose first alone reaches the hint and which is cached under one setting only. */
  method Compare(lim: Limits, lim': Limits, calls: seq<Call>, q: Query) returns (a: Option<Seen>, b: Option<Seen>)
    requires lim.size == lim'.size
    requires ProperRun(BLANK, calls) && (Final(BLANK, calls).Some? ==> Asks(Final(BLANK, calls).value.log, q))
    ensures match Final(BLANK, calls)
            case None => a == None && b == None
            case Some(im) =>
              && a.Some? && b.Some? && Shows(im.log, q, a.value) && Shows(im.log, q, b.value)
              && (SameRange(a.value, b.value) <==>
                    !(CutInTwo(lim.size, im.log, q) &&
                      (CachedAfter(lim, calls) <= q.from) != (CachedAfter(lim', calls) <= q.from)))
  {
    a := Observe(lim, calls, q);
    b := Observe(lim', calls, q);
    if a.Some? {
      CacheShows(lim.size, Final(BLANK, calls).value.log, q, a.value, b.value,
                 CachedAfter(lim, calls) <= q.from, CachedAfter(lim', calls) <= q.from);
    }
  }

  lemma TwoAppends(lim: Limits, e: Entry, e': Entry)
    requires Storable(Strip(e)) && Storable(Strip(e'))
    ensures var calls, r, r' := [DoAppend(e), DoAppend(e')], Strip(e), Strip(e');
            && ProperRun(BLANK, calls) && Final(BLANK, calls) == Some(Image(Log(1, [r, r']), false))
            && CachedAfter(lim, calls) == FirstFit(lim, Log(1, [r, r']), FirstFit(lim, Log(1, [r]), 1))
  {
    var r, r', calls := Strip(e), Strip(e'), [DoAppend(e), DoAppend(e')];
    var one, two := Image(Log(1, [r]), false), Image(Log(1, [r, r']), false);
    assert [] + [r] == [r] && [r] + [r'] == [r, r'];
    var rest := calls[1..];
    assert rest == [DoAppend(e')] && rest[1..] == [];
    assert After(BLANK, calls[0]) == one && After(one, rest[0]) == two;
    assert ProperRun(two, rest[1..]) && Final(two, rest[1..]) == Some(two);
    assert ProperRun(one, rest) && Final(one, rest) == Some(two);
    var lo := FirstFit(lim, one.log, 1);
    var lo' := FirstFit(lim, two.log, lo);
    assert Begins(lim, BLANK, 1, calls[0]) == lo && Begins(lim, one, lo, rest[0]) == lo';
    assert CachedFrom(lim, one, lo, rest) == CachedFrom(lim, two, lo', rest[1..]);
  }

  /** The case that shows does occur: two entries appended to a new store, with room in the cache for both
      or for none. */
  lemma CutHappens(size: Container, e: Entry, e': Entry)
    requires Storable(Strip(e)) && Storable(Strip(e')) && size(|e.payload|) >= 1
    ensures var calls, q, log := [DoAppend(e), DoAppend(e')], Query(1, 1, 3, 1), Log(1, [Strip(e), Strip(e')]);
            && ProperRun(BLANK, calls) && Final(BLANK, calls) == Some(Image(log, false))
            && Asks(log, q) && CutInTwo(size, log, q)
            && CachedAfter(Limits(32 + size(|e.payload|) + size(|e'.payload|), 2, size), calls) <= q.from
            && CachedAfter(Limits(0, 2, size), calls) > q.from
  {
    TwoAppends(Limits(32 + size(|e.payload|) + size(|e'.payload|), 2, size), e, e');
    TwoAppends(Limits(0, 2, size), e, e');
    FitsBoth(size, Strip(e), Strip(e'));
    FitsNone(size, Strip(e), Strip(e'));
  }

  method CachedRangeIsCut(size: Container, e: Entry, e': Entry) returns (cached: seq<Entry>, uncached: seq<Entry>)
    requires Storable(Strip(e)) && Storable(Strip(e')) && size(|e.payload|) >= 1
    ensures Strips(cached) == [Strip(e)] && Strips(uncached) == [Strip(e), Strip(e')]
  {
    var calls, q := [DoAppend(e), DoAppend(e')], Query(1, 1, 3, 1);
    CutHappens(size, e, e');
    var a := Observe(Limits(32 + size(|e.payload|) + size(|e'.payload|), 2, size), calls, q);
    var b := Observe(Limits(0, 2, size), calls, q);
    cached, uncached := a.value.range.value, b.value.range.value;
    ghost var all := [Strip(e), Strip(e')];
    assert RangeOf(Log(1, all), q) == all;
    ShortRange(size, all, 1);
  }

  lemma TwoCosts(size: Container, r: Rec, r': Rec)
    ensures CostSum(size, [r]) == 16 + size(|r.payload|)
    ensures CostSum(size, [r, r']) == 32 + size(|r.payload|) + size(|r'.payload|)
  {
    assert [r][1..] == [] && [r, r'][1..] == [r'] && [r'][1..] == [];
  }

  lemma FitsBoth(size: Container, r: Rec, r': Rec)
    ensures var roomy := Limits(32 + size(|r.payload|) + size(|r'.payload|), 2, size);
            FirstFit(roomy, Log(1, [r]), 1) == 1 && FirstFit(roomy, Log(1, [r, r']), 1) == 1
  {
    TwoCosts(size, r, r');
    assert [r][0..] == [r] && [r, r'][0..] == [r, r'];
  }

  lemma FitsNone(size: Container, r: Rec, r': Rec)
    ensures FirstFit(Limits(0, 2, size), Log(1, [r]), 1) == 2 && FirstFit(Limits(0, 2, size), Log(1, [r, r']), 2) == 3
  {
    TwoCosts(size, r, r);
    TwoCosts(size, r', r');
    assert [r][0..] == [r] && [r, r'][1..] == [r'];
  }

  // ---------- How a store loses its log ----------

  /** A pack that leaves a gap after a purge: the store claims an index at which it has nothing. */
  method PackAfterPurge(lim: Limits, last: nat, index: nat, rs: seq<Rec>)
    returns (db: Db<seq<Byte>>, next: nat, start: nat, entry: Option<Entry>)
    requires last + 1 < index && rs != [] && Packable(Encs(rs)) && AllStorable(rs)
    ensures start == last + 1 && next == index + |rs| && entry == None && NoLog(db)
  {
    var store := new Store(lim.maxCacheSize, lim.maxLogsToKeep, lim.size);
    var _ := store.Compact(last, Done);
    assert store.db.maxSeq == Some(last) && store.db.minSeq == last + 1 && last + 1 !in store.db.records;
    SetAllMeans(store.db, index, Encs(rs));
    store.ApplyPack(index, PackOf(Encs(rs)), rs);
    next := store.NextSlot();
    entry := store.EntryAt(last + 1);
    start := store.StartIndex();
    db := store.db;
  }

  /** A store that has lost its log goes on: every append goes behind the last record of the database and
      is read back from there, and nothing else changes. */
  method AppendsGoOn(store: Store, es: seq<Entry>)
    requires store.Loose() && AllStorable(Strips(es))
    modifies store, store.cache
    ensures store.Loose() && store.db == SetAll(old(store.db), old(Top(store.db)), Encs(Strips(es)))
  {
    ghost var was, top, vs := store.db, Top(store.db), Encs(Strips(es));
    for n := 0 to |es|
      invariant store.Loose() && Top(store.db) == top + n && store.db == SetFirst(was, top, vs, n)
    {
      ghost var cur := store.db;
      AppendNth(store, es, n, vs[n]);
      SetFirstNext(was, top, vs, n);
      assert store.db == cur.Set(top + n, vs[n]);
    }
  }

  method AppendNth(store: Store, es: seq<Entry>, n: nat, ghost v: seq<Byte>)
    requires store.Loose() && AllStorable(Strips(es)) && n < |es| && v == Encs(Strips(es))[n]
    modifies store, store.cache
    ensures store.Loose() && store.db == old(store.db).Set(old(Top(store.db)), v)
    ensures Top(store.db) == old(Top(store.db)) + 1
  {
    ghost var r := Strips(es)[n];
    assert Storable(r) && v == Encode(r);
    var _ := store.Append(es[n]);
  }

  /** The database after a failed compaction past the end of an empty log, and appends. */
  lemma DummyInFront(last: nat, es: seq<Entry>, i: nat, db: Db<seq<Byte>>)
    requires AllStorable(Strips(es))
    requires db == SetAll(Db(map[last := DUMMY], Some(last), last), last + 1, Encs(Strips(es)))
    ensures NoLog(db) && Top(db) == last + 1 + |es| && db.maxSeq.Some? && db.minSeq == last
    ensures ReadFrom(db, i) == if i == last then Some(DUMMY_REC)
                               else if last < i <= last + |es| then Some(Strip(es[i - (last + 1)])) else None
  {
    var was: Db<seq<Byte>> := Db(map[last := DUMMY], Some(last), last);
    BehindFirst(was, last, Encs(Strips(es)), i);
    DummyIsNoLog(db, last);
    if i == last {
      ReadsDummy(db, i);
    } else if last < i <= last + |es| {
      ReadsRecord(db, i, Strips(es)[i - (last + 1)]);
    }
  }

  method FailedCompaction(lim: Limits, last: nat, purge: PurgeStatus) returns (store: Store, ok: bool)
    requires purge != Done
    ensures fresh(store) && fresh(store.cache) && (ok <==> purge == InProgress)
    ensures store.Loose() && store.db == Db(map[last := DUMMY], Some(last), last)
  {
    store := new Store(lim.maxCacheSize, lim.maxLogsToKeep, lim.size);
    assert store.db.records == map[];
    ok := store.Compact(last, purge);
  }

  method LookLoose(store: Store, i: nat) returns (next: nat, start: nat, entry: Option<Entry>)
    requires store.Loose()
    modifies store.cache`curStartIdx
    ensures next == Top(store.db) && StripOption(entry) == ReadFrom(store.db, i)
    ensures start == if store.db.maxSeq.None? then 1 else Max(1, store.db.minSeq)
  {
    next := store.NextSlot();
    entry := store.EntryAt(i);
    start := store.StartIndex();
  }

  /** A compaction past the end whose purge does not succeed: the call may still return true, and then
      readers get an entry that nobody wrote, in front of everything appended later. */
  method CompactionLeavesDummy(lim: Limits, last: nat, purge: PurgeStatus, es: seq<Entry>, i: nat)
    returns (db: Db<seq<Byte>>, ok: bool, next: nat, start: nat, entry: Option<Entry>)
    requires 1 <= last && purge != Done && AllStorable(Strips(es))
    ensures (ok <==> purge == InProgress) && NoLog(db)
    ensures start == last && next == last + 1 + |es|
    ensures StripOption(entry) == if i == last then Some(DUMMY_REC)
                                  else if last < i < next then Some(Strip(es[i - (last + 1)])) else None
  {
    var store;
    store, ok := FailedCompaction(lim, last, purge);
    AppendsGoOn(store, es);
    db := store.db;
    next, start, entry := LookLoose(store, i);
    DummyInFront(last, es, i, db);
  }

  /** Packing entries of one store and applying them at the same index of a store that was
      never written gives the second store exactly those entries. */
  method Transfer(from: Store, to: Store, index: nat, cnt: nat)
    requires from != to && from.cache != to.cache && from.Valid() && to.Valid() && to.db.maxSeq.None?
    requires cnt >= 1 && from.log.start <= index && index + cnt <= from.log.Next()
    requires Packable(Encs(from.Slice(index, index + cnt)))
    modifies to, to.cache
    ensures to.Valid() && to.log == Log(index, from.Slice(index, index + cnt))
  {
    var pack, _ := from.Pack(index, cnt);
    to.ApplyPack(index, pack, from.Slice(index, index + cnt));
  }
}
