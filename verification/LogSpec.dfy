/** The indexed log that every Raft log store is meant to be: a start index and the entries
    from there on. Both stores of the repository are proved to refine it.
 */
module LogSpec {
  import opened Options

  datatype Log<T> = Log(start: nat, entries: seq<T>) {
    /** The first free index. */
    function Next(): nat {
      start + |entries|
    }

    predicate Holds(i: nat) {
      start <= i < Next()
    }

    function At(i: nat): T
      requires Holds(i)
    {
      entries[i - start]
    }

    function Lookup(i: nat): Option<T> {
      if Holds(i) then Some(At(i)) else None
    }

    /** The last entry, if there is one. */
    function Last(): Option<T> {
      if entries == [] then None else Some(entries[|entries| - 1])
    }
  }

  /** What a run is made of. */
  datatype Op<T> =
    | Append(e: T)
    | WriteAt(index: nat, e: T)
    | ApplyPack(index: nat, pack: seq<T>)
    | Compact(last: nat)

  /** Replaces the entries from position `k` on by `es`, keeping what lies beyond them. */
  function Overlay<T>(entries: seq<T>, k: nat, es: seq<T>): seq<T>
    requires k <= |entries|
  {
    entries[..k] + es + (if k + |es| < |entries| then entries[k + |es|..] else [])
  }

  predicate Enabled<T>(log: Log<T>, op: Op<T>) {
    match op
    case Append(_) => true
    case WriteAt(i, _) => log.start <= i <= log.Next()
    case ApplyPack(i, es) => es == [] || if log.entries == [] then 1 <= i else log.start <= i <= log.Next()
    case Compact(_) => true
  }

  function Apply<T>(log: Log<T>, op: Op<T>): Log<T>
    requires Enabled(log, op)
  {
    match op
    case Append(e) => Log(log.start, log.entries + [e])
    case WriteAt(i, e) => Log(log.start, log.entries[..i - log.start] + [e])
    case ApplyPack(i, es) => Packed(log, i, es)
    case Compact(last) => Compacted(log, last)
  }

  /** A nonempty pack moves the start of an empty log to its own index. */
  function Packed<T>(log: Log<T>, i: nat, es: seq<T>): Log<T>
    requires es == [] || log.entries == [] || log.start <= i <= log.Next()
  {
    if es == [] then log
    else if log.entries == [] then Log(i, es)
    else Log(log.start, Overlay(log.entries, i - log.start, es))
  }

  /** Drops everything up to and including `last`, even past the end. */
  function Compacted<T>(log: Log<T>, last: nat): Log<T> {
    if last < log.start then log
    else if last < log.Next() then Log(last + 1, log.entries[last + 1 - log.start..])
    else Log(last + 1, [])
  }

  /** Cuts the log after `to`. */
  function Truncated<T>(log: Log<T>, to: nat): Log<T>
    requires log.start <= to + 1
  {
    if to < log.Next() then Log(log.start, log.entries[..to + 1 - log.start]) else log
  }

  predicate EnabledRun<T>(log: Log<T>, ops: seq<Op<T>>)
    decreases |ops|
  {
    ops == [] || (Enabled(log, ops[0]) && EnabledRun(Apply(log, ops[0]), ops[1..]))
  }

  function Run<T>(log: Log<T>, ops: seq<Op<T>>): Log<T>
    requires EnabledRun(log, ops)
    decreases |ops|
  {
    if ops == [] then log else Run(Apply(log, ops[0]), ops[1..])
  }

  /** The log after an entry was put at an index from its start to its end. */
  function PutAt<R>(log: Log<R>, i: nat, r: R): Log<R>
    requires log.start <= i <= log.Next()
  {
    if i == log.Next() then Log(log.start, log.entries + [r]) else Log(log.start, log.entries[i - log.start := r])
  }

  /** Overwriting is cutting the log before the index, if it goes on after it, and putting the entry there. */
  lemma CutAndPut<R>(log: Log<R>, i: nat, r: R)
    requires 1 <= log.start <= i <= log.Next()
    ensures PutAt(if i + 1 < log.Next() then Truncated(log, i - 1) else log, i, r) == Apply(log, WriteAt(i, r))
  {
  }

  /** A pack may be applied at `i`. */
  predicate Applicable<R>(log: Log<R>, i: nat) {
    log.entries != [] ==> log.start <= i <= log.Next()
  }

  /** Applying one more record of a pack. */
  lemma PackedSnoc<R>(log: Log<R>, i: nat, rs: seq<R>, n: nat)
    requires n < |rs| && Applicable(log, i)
    ensures var before, after := Packed(log, i, rs[..n]), Packed(log, i, rs[..n + 1]);
            && (n == 0 && log.entries == [] ==> after == Log(i, [rs[0]]))
            && (n > 0 || log.entries != [] ==>
                  before.start <= i + n <= before.Next() && after == PutAt(before, i + n, rs[n]))
  {
    assert rs[..n + 1] == rs[..n] + [rs[n]];
    var before, after := Packed(log, i, rs[..n]), Packed(log, i, rs[..n + 1]);
    if n > 0 || log.entries != [] {
      assert after.entries == PutAt(before, i + n, rs[n]).entries;
    }
  }

  // ---------- Queries ----------

  /** What a reader asks for: one index, and a range with a size hint. */
  datatype Query = Query(i: nat, from: nat, to: nat, hint: int)

  /** The range is empty or within the log. */
  predicate Asks<T>(log: Log<T>, q: Query) {
    q.from < q.to ==> log.start <= q.from && q.to <= log.Next()
  }

  function RangeOf<T>(log: Log<T>, q: Query): seq<T>
    requires q.from < q.to && Asks(log, q)
  {
    log.entries[q.from - log.start..q.to - log.start]
  }

  // ---------- What the specification means ----------

  /** Compaction keeps every surviving entry at its index. */
  lemma CompactedKeeps<T>(log: Log<T>, last: nat, i: nat)
    ensures Compacted(log, last).Lookup(i) == if i <= last then None else log.Lookup(i)
    ensures Compacted(log, last).start == if log.start <= last then last + 1 else log.start
    ensures Compacted(log, last).Next() == if log.Next() <= last then last + 1 else log.Next()
  {
  }

  /** Overwriting keeps what is below, replaces the entry and cuts what is above. */
  lemma WriteAtMeans<T>(log: Log<T>, i: nat, e: T, j: nat)
    requires Enabled(log, WriteAt(i, e))
    ensures Apply(log, WriteAt(i, e)).start == log.start && Apply(log, WriteAt(i, e)).Next() == i + 1
    ensures Apply(log, WriteAt(i, e)).Lookup(j) == if j < i then log.Lookup(j) else if j == i then Some(e) else None
  {
  }

  /** Appending adds one entry at the first free index. */
  lemma AppendMeans<T>(log: Log<T>, e: T, j: nat)
    ensures Apply(log, Append(e)).start == log.start && Apply(log, Append(e)).Next() == log.Next() + 1
    ensures Apply(log, Append(e)).Lookup(j) == if j == log.Next() then Some(e) else log.Lookup(j)
  {
  }

  /** Cutting keeps the entries up to an index and no others. */
  lemma TruncatedMeans<T>(log: Log<T>, to: nat, j: nat)
    requires log.start <= to + 1
    ensures Truncated(log, to).start == log.start
    ensures Truncated(log, to).Next() == if to + 1 < log.Next() then to + 1 else log.Next()
    ensures Truncated(log, to).Lookup(j) == if j <= to then log.Lookup(j) else None
  {
  }

  /** A pack lands at its indices and leaves every other entry alone; only an empty log starts elsewhere
      after it. */
  lemma PackedMeans<T>(log: Log<T>, i: nat, es: seq<T>, j: nat)
    requires es == [] || log.entries == [] || log.start <= i <= log.Next()
    ensures Packed(log, i, es).start == if log.entries == [] && es != [] then i else log.start
    ensures Packed(log, i, es).Next() == if es != [] && (log.entries == [] || log.Next() < i + |es|) then i + |es|
                                         else log.Next()
    ensures Packed(log, i, es).Lookup(j) == if i <= j < i + |es| then Some(es[j - i]) else log.Lookup(j)
  {
  }
}
