/** Whole runs of the in-memory store, seen from outside. */
module InMemRuns {
  import opened Options
  import opened LogSpec
  import opened Serializer
  import opened EntryCodec
  import opened PackFormat
  import opened LogCache
  import opened InMemStore

  // ---------- The calls on the plain log ----------

  ghost predicate CarriesOp(format: Format, op: Op<Entry>) {
    op.ApplyPack? ==> Carries(format, op.pack)
  }

  /** The calls after which the store still stands for a log. */
  predicate KeepsAt(start: nat, next: nat, dummy: Entry, op: Op<Entry>) {
    match op
    case WriteAt(i, e) => Writes(start, next, dummy, i, e)
    case ApplyPack(i, es) => FitsAt(start, next, dummy, i, es)
    case _ => true
  }

  predicate Keeps(log: Log<Entry>, dummy: Entry, op: Op<Entry>) {
    KeepsAt(log.start, log.Next(), dummy, op)
  }

  function After(log: Log<Entry>, dummy: Entry, op: Op<Entry>): Log<Entry>
    requires Keeps(log, dummy, op)
  {
    match op
    case Append(e) => Apply(log, op)
    case WriteAt(i, e) => Written(log, i, e)
    case ApplyPack(i, es) => Landed(log, dummy, i, es)
    case Compact(last) => Apply(log, op)
  }

  /** A call the plain log allows keeps the log and does to it what it should, unless it is an empty pack on
      a log emptied elsewhere than at 1. */
  lemma AllowedKeeps(log: Log<Entry>, dummy: Entry, op: Op<Entry>)
    requires 1 <= log.start && Enabled(log, op)
    ensures Keeps(log, dummy, op)
    ensures After(log, dummy, op) == Apply(log, op) <==> (op.ApplyPack? ==> Lands(log, op.pack))
  {
    if op.ApplyPack? {
      AllowedFits(log, dummy, op.index, op.pack);
    }
  }

  /** The log after all the calls, unless one of them does not keep it. */
  function Final(log: Log<Entry>, dummy: Entry, ops: seq<Op<Entry>>): Option<Log<Entry>>
    decreases |ops|
  {
    if ops == [] then Some(log)
    else if Keeps(log, dummy, ops[0]) then Final(After(log, dummy, ops[0]), dummy, ops[1..])
    else None
  }

  // ---------- The calls on the store ----------

  method Do(store: Store, op: Op<Entry>)
    requires store.Valid() && CarriesOp(store.format, op)
    modifies store
    ensures old(Keeps(store.log, store.dummy, op)) ==>
              store.Valid() && store.log == After(old(store.log), store.dummy, op)
    ensures !old(Keeps(store.log, store.dummy, op)) ==> store.Usable() && store.Lost()
  {
    match op
    case Append(e) => var _ := store.Append(e);
    case WriteAt(i, e) => store.WriteAt(i, e);
    case ApplyPack(i, es) => store.ApplyPack(i, PackOf(Sers(store.format, es)), es);
    case Compact(last) => store.Compact(last);
  }

  /** Makes the calls, up to and including the first that does not keep the log. The store then stands for
      the same log as the plain run, or for none. */
  method RunOps(store: Store, ops: seq<Op<Entry>>) returns (kept: bool)
    requires store.Valid() && forall k :: 0 <= k < |ops| ==> CarriesOp(store.format, ops[k])
    modifies store
    ensures match Final(old(store.log), store.dummy, ops)
            case Some(log) => kept && store.Valid() && store.log == log
            case None => !kept && store.Usable() && store.Lost()
  {
    var rest := ops;
    ghost var all := Final(store.log, store.dummy, ops);
    while rest != []
      invariant store.Valid() && Final(store.log, store.dummy, rest) == all
      invariant forall k :: 0 <= k < |rest| ==> CarriesOp(store.format, rest[k])
      decreases |rest|
    {
      var next := store.NextSlot();
      var keeps := KeepsAt(store.startIdx, next, store.dummy, rest[0]);
      Do(store, rest[0]);
      if !keeps {
        return false;
      }
      rest := rest[1..];
    }
    kept := true;
  }

  // ---------- What a reader sees ----------

  /** The answers of every read, and the keys of the map. */
  datatype Seen = Seen(next: nat, start: nat, entry: Entry, term: nat, last: Entry, entries: seq<Entry>,
                       range: seq<Entry>, keys: set<nat>)

  function OrDummy(e: Option<Entry>, dummy: Entry): Entry {
    match e
    case Some(v) => v
    case None => dummy
  }

  /** Every read returns what the plain log holds; a range read with a hint as much of it as payload sizes
      allow, and nothing for a negative hint. */
  ghost predicate Shows(log: Log<Entry>, dummy: Entry, q: Query, seen: Seen)
    requires Asks(log, q)
  {
    && seen.next == log.Next() && seen.start == log.start
    && seen.entry == OrDummy(log.Lookup(q.i), dummy) && seen.last == OrDummy(log.Last(), dummy)
    && seen.term == (if log.Holds(q.i) then log.At(q.i).term else 0)
    && seen.entries == (if q.from < q.to then RangeOf(log, q) else [])
    && seen.range == Shown(log, q)
    && forall k: nat :: k in seen.keys <==> k == 0 || log.Holds(k)
  }

  function Shown(log: Log<Entry>, q: Query): seq<Entry>
    requires Asks(log, q)
  {
    if q.from >= q.to || q.hint < 0 then []
    else
      var all := RangeOf(log, q);
      var n := Taken(Payload, Strips(all), q.hint);
      if n <= |all| then all[..n] else all
  }

  lemma RangeShown(all: seq<Entry>, hint: int, r: seq<Entry>)
    requires r <= all && Limited(Payload, Strips(all), hint, Strips(r))
    ensures Taken(Payload, Strips(all), hint) <= |all| && r == all[..Taken(Payload, Strips(all), hint)]
  {
    LimitedIsTaken(Payload, Strips(all), hint, Strips(r));
  }

  method LookEntries(store: Store, q: Query) returns (entries: seq<Entry>)
    requires store.Valid() && Asks(store.log, q)
    ensures entries == if q.from < q.to then RangeOf(store.log, q) else []
  {
    entries := store.LogEntries(q.from, if q.from < q.to then q.to else q.from);
  }

  method LookRange(store: Store, q: Query) returns (range: seq<Entry>)
    requires store.Valid() && Asks(store.log, q)
    ensures range == Shown(store.log, q)
  {
    range := store.LogEntriesExt(q.from, q.to, q.hint);
    if q.from < q.to && q.hint >= 0 {
      RangeShown(RangeOf(store.log, q), q.hint, range);
    }
  }

  method Look(store: Store, q: Query) returns (seen: Seen)
    requires store.Valid() && Asks(store.log, q)
    ensures Shows(store.log, store.dummy, q, seen)
  {
    var next := store.NextSlot();
    var entry := store.EntryAt(q.i);
    var term := store.TermAt(q.i);
    var last := store.LastEntry();
    var entries := LookEntries(store, q);
    var range := LookRange(store, q);
    seen := Seen(next, store.startIdx, entry, term, last, entries, range, store.logs.Keys);
  }

  /** After any run from a new store that keeps the log every read returns what the plain log holds, and the
      keys are exactly 0 and the indices of the log. */
  method Observe(format: Format, payload: seq<Byte>, ops: seq<Op<Entry>>, q: Query) returns (seen: Option<Seen>)
    requires forall k :: 0 <= k < |ops| ==> CarriesOp(format, ops[k])
    requires var end := Final(Log(1, []), Entry(0, 1, payload, 0), ops); end.Some? ==> Asks(end.value, q)
    ensures match Final(Log(1, []), Entry(0, 1, payload, 0), ops)
            case Some(log) => seen.Some? && Shows(log, Entry(0, 1, payload, 0), q, seen.value)
            case None => seen == None
  {
    var store := new Store(format, payload);
    var kept := RunOps(store, ops);
    if !kept {
      return None;
    }
    var s := Look(store, q);
    seen := Some(s);
  }

  // ---------- How a store loses its log ----------

  lemma {:induction false} PutAllCount(m: map<nat, Entry>, i: nat, es: seq<Entry>)
    requires forall k :: i <= k < i + |es| ==> k !in m
    ensures |PutAll(m, i, es)| == |m| + |es|
    decreases |es|
  {
    if es != [] {
      var n := |es| - 1;
      PutAllCount(m, i, es[..n]);
      PutAllMeans(m, i, es[..n], i + n);
      OneMore(PutAll(m, i, es[..n]), i + n, es[n]);
    }
  }

  lemma OneMore(m: map<nat, Entry>, k: nat, e: Entry)
    requires k !in m
    ensures |m[k := e]| == |m| + 1
  {
    assert m[k := e].Keys == m.Keys + {k};
  }

  /** After a pack behind a gap the number of keys no longer tells where the log ends. */
  lemma GapNext(logs: map<nat, Entry>, dummy: Entry, log: Log<Entry>, i: nat, es: seq<Entry>, start: nat)
    requires Stands(logs, dummy, log) && log.entries != [] && es != [] && log.Next() < i
    requires IsFirst(PutAll(logs, i, es), start)
    ensures start + |PutAll(logs, i, es)| - 1 == log.Next() + |es|
    ensures var next := log.Next() + |es|;
            if i <= next then next in PutAll(logs, i, es) && PutAll(logs, i, es)[next] == es[next - i]
            else next !in PutAll(logs, i, es)
  {
    KeyCount(logs, dummy, log);
    PutAllCount(logs, i, es);
    PutAllMeans(logs, i, es, log.start);
    PutAllMeans(logs, i, es, start);
    PutAllMeans(logs, i, es, log.Next() + |es|);
  }

  method GapPack(store: Store, index: nat, es: seq<Entry>)
    requires store.Valid() && store.log.entries != [] && Carries(store.format, es)
    requires es != [] && store.log.Next() < index
    modifies store
    ensures store.Usable() && store.Lost() && store.startIdx + |store.logs| - 1 == old(store.log.Next()) + |es|
    ensures var next := old(store.log.Next()) + |es|;
            store.Raw(next) == if index <= next then es[next - index] else store.dummy
  {
    GapZero(store.logs, store.dummy, store.log, index, es);
    ghost var log, logs := store.log, store.logs;
    store.ApplyPack(index, PackOf(Sers(store.format, es)), es);
    GapNext(logs, store.dummy, log, index, es, store.startIdx);
  }

  lemma GapZero(logs: map<nat, Entry>, dummy: Entry, log: Log<Entry>, i: nat, es: seq<Entry>)
    requires Stands(logs, dummy, log) && log.entries != [] && es != [] && log.Next() < i
    ensures 0 in PutAll(logs, i, es) && PutAll(logs, i, es)[0] == dummy && !Fits(log, dummy, i, es)
  {
    PutAllMeans(logs, i, es, 0);
  }

  /** A pack behind a gap, and an append: the next slot is below the end of the packed entries, and unless the
      gap is longer than they are the append takes the place of one of them. */
  method PackBehindGap(store: Store, index: nat, es: seq<Entry>, e: Entry)
    returns (next: nat, before: Entry, at: nat, after: Entry)
    requires store.Valid() && store.log.entries != [] && Carries(store.format, es)
    requires es != [] && store.log.Next() < index
    modifies store
    ensures at == next == old(store.log.Next()) + |es| < index + |es| && after == e
    ensures before == if index <= next then es[next - index] else store.dummy
  {
    GapPack(store, index, es);
    next := store.NextSlot();
    before := store.EntryAt(next);
    at := store.Append(e);
    after := store.EntryAt(at);
  }

  /** One entry at 1, two packed at 3: the entry appended next takes the place of the last one. */
  method EntryLost(format: Format, a: Entry, x: Entry, y: Entry, z: Entry)
    returns (at: nat, before: Entry, after: Entry)
    requires Carries(format, [x, y])
    ensures at == 4 && before == y && after == z
  {
    var store := new Store(format, []);
    var _ := store.Append(a);
    var next;
    next, before, at, after := PackBehindGap(store, 3, [x, y], z);
  }

  /** A pack at index 0: whatever is not there reads as its first entry. */
  method PackOverDummy(store: Store, es: seq<Entry>, i: nat) returns (entry: Entry, term: nat)
    requires store.Valid() && Carries(store.format, es) && es != [] && |es| <= i && !store.log.Holds(i)
    modifies store
    ensures entry == es[0] && term == es[0].term && (es[0] != store.dummy ==> store.Lost())
  {
    PutAllMeans(store.logs, 0, es, 0);
    PutAllMeans(store.logs, 0, es, i);
    store.ApplyPack(0, PackOf(Sers(store.format, es)), es);
    entry := store.EntryAt(i);
    term := store.TermAt(i);
  }

  /** An empty pack on a log that was compacted past its end: the store forgets where its log ended and
      starts over at 1. */
  method EmptyPackForgets(format: Format, last: nat) returns (store: Store, before: nat)
    requires 1 <= last
    ensures fresh(store) && store.Valid() && before == last + 1
    ensures store.log == Log(1, []) && store.startIdx == 1 && store.logs.Keys == {0}
  {
    store := new Store(format, []);
    store.Compact(last);
    before := store.NextSlot();
    store.ApplyPack(last + 1, PackOf(Sers(format, [])), []);
    assert store.logs.Keys == {0};
  }

  /** Packing entries of one store and applying them at the same index of an empty store gives
      the second store exactly those entries. */
  method Transfer(from: Store, to: Store, index: nat, cnt: nat)
    requires from != to && from.Valid() && to.Valid() && to.log.entries == [] && from.format == to.format
    requires cnt >= 1 && from.log.start <= index && index + cnt <= from.log.Next()
    requires Carries(from.format, from.Slice(index, index + cnt))
    modifies to
    ensures to.Valid() && to.log == Log(index, from.Slice(index, index + cnt))
  {
    var pack, _ := from.Pack(index, cnt);
    to.ApplyPack(index, pack, from.Slice(index, index + cnt));
  }
}
