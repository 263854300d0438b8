/** The bounded in-memory cache in front of the log database. */
module LogCache {
  import opened Options
  import opened EntryCodec
  import opened MapSum

  /** The size of the container of a payload, given the payload's length. */
  type Container = nat -> nat

  // ---------- Ordered maps ----------

  /** The part of `m` from key `t` on. */
  function From(m: map<nat, Entry>, t: nat): map<nat, Entry> {
    map k | k in m && t <= k :: m[k]
  }

  /** The keys of `m` are exactly lo, lo + 1, ..., hi - 1. */
  ghost predicate Contiguous(m: map<nat, Entry>, lo: nat, hi: nat) {
    lo <= hi && forall k: nat :: k in m <==> lo <= k < hi
  }

  lemma FromErase(m: map<nat, Entry>, k: nat)
    requires k in m && forall j :: j in m ==> k <= j
    ensures m - {k} == From(m, k + 1)
  {
  }

  lemma FromFrom(m: map<nat, Entry>, s: nat, t: nat)
    requires s <= t
    ensures From(From(m, s), t) == From(m, t)
  {
  }

  method MinKey(m: map<nat, Entry>) returns (k: nat)
    requires m != map[]
    ensures k in m && forall j :: j in m ==> k <= j
  {
    k :| k in m;
    var rest := m.Keys - {k};
    while rest != {}
      invariant k in m && rest <= m.Keys
      invariant forall j :: j in m && j !in rest ==> k <= j
    {
      var j :| j in rest;
      if j < k {
        k := j;
      }
      rest := rest - {j};
    }
  }

  method MaxKey(m: map<nat, Entry>) returns (k: nat)
    requires m != map[]
    ensures k in m && forall j :: j in m ==> j <= k
  {
    k :| k in m;
    var rest := m.Keys - {k};
    while rest != {}
      invariant k in m && rest <= m.Keys
      invariant forall j :: j in m && j !in rest ==> j <= k
    {
      var j :| j in rest;
      if k < j {
        k := j;
      }
      rest := rest - {j};
    }
  }

  /** The iterator after the one at key `k`. */
  method NextKey(m: map<nat, Entry>, k: nat) returns (n: Option<nat>)
    ensures n.None? ==> forall j :: j in m ==> j <= k
    ensures n.Some? ==> n.value in m && k < n.value && forall j :: j in m && k < j ==> n.value <= j
  {
    var above := From(m, k + 1);
    if above == map[] {
      forall j | j in m ensures j <= k {
        assert j !in above;
      }
      return None;
    }
    var v := MinKey(above);
    forall j | j in m && k < j ensures v <= j {
      assert j in above;
    }
    return Some(v);
  }

  /** Stepping an iterator over a contiguous map. */
  method NextIn(m: map<nat, Entry>, k: nat, ghost lo: nat, ghost hi: nat) returns (n: Option<nat>)
    requires Contiguous(m, lo, hi) && k in m
    ensures n == if k + 1 < hi then Some(k + 1) else None
  {
    n := NextKey(m, k);
    if k + 1 < hi {
      assert k + 1 in m;
    }
  }

  method FirstIn(m: map<nat, Entry>, ghost lo: nat, ghost hi: nat) returns (min: nat)
    requires Contiguous(m, lo, hi)
    ensures min == if lo < hi then lo else 0
  {
    if m == map[] {
      assert lo !in m;
      return 0;
    }
    min := MinKey(m);
    assert lo in m;
  }

  // ---------- Range reads with a size hint ----------

  function SizeOf(size: Container, es: seq<Rec>): nat {
    if es == [] then 0 else SizeOf(size, es[..|es| - 1]) + size(|es[|es| - 1].payload|)
  }

  /** With a positive hint `r` is the shortest nonempty prefix of `es` that reaches the hint, or
      all of `es` when none does; without one it is all of `es`. */
  ghost predicate Limited(size: Container, es: seq<Rec>, hint: int, r: seq<Rec>) {
    && r <= es
    && (hint <= 0 ==> r == es)
    && (hint > 0 ==>
          && (r == es || (r != [] && SizeOf(size, r) >= hint))
          && forall n :: 0 < n < |r| ==> SizeOf(size, r[..n]) < hint)
  }

  lemma LongerIsNotLimited(size: Container, es: seq<Rec>, hint: int, r: seq<Rec>, r': seq<Rec>)
    requires Limited(size, es, hint, r) && r' <= es && |r| < |r'|
    ensures !Limited(size, es, hint, r')
  {
    assert r == r'[..|r|];
  }

  /** The limit determines the result, whichever path computes it. */
  lemma LimitedUnique(size: Container, es: seq<Rec>, hint: int, r: seq<Rec>, r': seq<Rec>)
    requires Limited(size, es, hint, r) && Limited(size, es, hint, r')
    ensures r == r'
  {
    if |r| < |r'| {
      LongerIsNotLimited(size, es, hint, r, r');
    } else if |r'| < |r| {
      LongerIsNotLimited(size, es, hint, r', r);
    }
  }

  /** How many entries a read takes that has taken `n` of them without meeting the hint. */
  function Reach(size: Container, es: seq<Rec>, hint: int, n: nat): nat
    requires n <= |es|
    decreases |es| - n
  {
    if n == |es| || (n > 0 && SizeOf(size, es[..n]) >= hint) then n else Reach(size, es, hint, n + 1)
  }

  /** How many entries a read with a hint takes; without one it takes all. */
  function Taken(size: Container, es: seq<Rec>, hint: int): nat {
    if hint <= 0 then |es| else Reach(size, es, hint, 0)
  }

  lemma {:induction false} ReachMeans(size: Container, es: seq<Rec>, hint: int, n: nat)
    requires n <= |es|
    ensures var r := Reach(size, es, hint, n);
            && n <= r <= |es| && (r == |es| || (r > 0 && SizeOf(size, es[..r]) >= hint))
            && forall m :: n <= m < r && m > 0 ==> SizeOf(size, es[..m]) < hint
    decreases |es| - n
  {
    if n < |es| && !(n > 0 && SizeOf(size, es[..n]) >= hint) {
      ReachMeans(size, es, hint, n + 1);
    }
  }

  lemma TakenIsLimited(size: Container, es: seq<Rec>, hint: int)
    ensures Taken(size, es, hint) <= |es| && Limited(size, es, hint, es[..Taken(size, es, hint)])
  {
    var n := Taken(size, es, hint);
    if hint <= 0 {
      assert es[..n] == es;
    } else {
      ReachMeans(size, es, hint, 0);
      var r := es[..n];
      assert n == |es| ==> r == es;
      forall m | 0 < m < n ensures SizeOf(size, r[..m]) < hint {
        assert r[..m] == es[..m];
      }
    }
  }

  /** A limited read takes that many entries and no others. */
  lemma LimitedIsTaken(size: Container, es: seq<Rec>, hint: int, r: seq<Rec>)
    requires Limited(size, es, hint, r)
    ensures Taken(size, es, hint) <= |es| && r == es[..Taken(size, es, hint)]
  {
    TakenIsLimited(size, es, hint);
    LimitedUnique(size, es, hint, r, es[..Taken(size, es, hint)]);
  }

  /** A read that has taken `n` entries of `es`, `acc` bytes in all, and has not met the hint. */
  ghost predicate Reading(size: Container, es: seq<Rec>, hint: int, n: nat, acc: nat) {
    && n <= |es| && acc == SizeOf(size, es[..n])
    && (hint > 0 ==> forall m :: 0 < m <= n ==> SizeOf(size, es[..m]) < hint)
  }

  lemma ReadStep(size: Container, es: seq<Rec>, hint: int, n: nat, acc: nat, acc': nat)
    requires Reading(size, es, hint, n, acc) && n < |es| && acc' == acc + size(|es[n].payload|)
    ensures if hint > 0 && acc' >= hint
            then Limited(size, es, hint, es[..n + 1]) && acc' == SizeOf(size, es[..n + 1])
            else Reading(size, es, hint, n + 1, acc')
  {
    var r := es[..n + 1];
    assert r[..n] == es[..n] && SizeOf(size, r) == acc';
    forall m | 0 < m < |r| ensures r[..m] == es[..m] {
    }
  }

  lemma ReadDone(size: Container, es: seq<Rec>, hint: int, acc: nat)
    requires Reading(size, es, hint, |es|, acc)
    ensures Limited(size, es, hint, es)
    ensures hint > 0 && es != [] ==> SizeOf(size, es) < hint
  {
    assert es[..|es|] == es;
  }

  /** The entries of `m` at s, s + 1, ..., e - 1. */
  function Range(m: map<nat, Entry>, s: nat, e: nat): (r: seq<Entry>)
    requires s <= e && forall k :: s <= k < e ==> k in m
    ensures |r| == e - s && forall i :: 0 <= i < e - s ==> r[i] == m[s + i]
  {
    seq(e - s, i requires 0 <= i < e - s => m[s + i])
  }

  /** A vector slot per entry. */
  function Slots(es: seq<Entry>): (r: seq<Option<Entry>>)
    ensures |r| == |es| && forall i :: 0 <= i < |es| ==> r[i] == Some(es[i])
  {
    seq(|es|, i requires 0 <= i < |es| => Some(es[i]))
  }

  function Nulls(n: nat): (r: seq<Option<Entry>>)
    ensures |r| == n && forall i :: 0 <= i < n ==> r[i] == None
  {
    seq(n, i => None)
  }

  function Strips(es: seq<Entry>): (r: seq<Rec>)
    ensures |r| == |es| && forall i :: 0 <= i < |es| ==> r[i] == Strip(es[i])
  {
    seq(|es|, i requires 0 <= i < |es| => Strip(es[i]))
  }

  /** `all` was copied into a vector of n slots until the hint was reached, where the vector was
      cut; slots beyond the copied entries stay null. */
  ghost predicate Copied(size: Container, all: seq<Entry>, n: nat, hint: int, vector: seq<Option<Entry>>,
                         found: seq<Entry>) {
    && found <= all && |all| <= n && Limited(size, Strips(all), hint, Strips(found))
    && vector == if hint > 0 && found != [] && SizeOf(size, Strips(found)) >= hint then Slots(found)
                 else Slots(found) + Nulls(n - |found|)
  }

  /** A read that has taken `r`, the first entries of `all`, `acc` bytes in all. */
  ghost predicate Taking(size: Container, all: seq<Entry>, hint: int, r: seq<Entry>, acc: nat) {
    r <= all && Reading(size, Strips(all), hint, |r|, acc)
  }

  lemma TakeStep(size: Container, all: seq<Entry>, hint: int, r: seq<Entry>, acc: nat, e: Entry)
    requires Taking(size, all, hint, r, acc) && |r| < |all| && e == all[|r|]
    ensures r + [e] <= all
    ensures var acc' := acc + size(|e.payload|);
            if hint > 0 && acc' >= hint
            then Limited(size, Strips(all), hint, Strips(r + [e])) && acc' == SizeOf(size, Strips(r + [e]))
            else Taking(size, all, hint, r + [e], acc')
  {
    ReadStep(size, Strips(all), hint, |r|, acc, acc + size(|e.payload|));
    StripsPrefix(all, r + [e]);
  }

  lemma StripsPrefix(all: seq<Entry>, r: seq<Entry>)
    requires r <= all
    ensures Strips(r) == Strips(all)[..|r|]
  {
  }

  lemma TakeDone(size: Container, all: seq<Entry>, hint: int, r: seq<Entry>, acc: nat)
    requires Taking(size, all, hint, r, acc) && |r| == |all|
    ensures r == all && Limited(size, Strips(all), hint, Strips(all))
    ensures hint > 0 && all != [] ==> SizeOf(size, Strips(all)) < hint
  {
    ReadDone(size, Strips(all), hint, acc);
  }

  /** The copying loop of a range query: the slots of the vector are filled in order, and the
      vector is cut where the hint is reached. */
  method Copy(logs: map<nat, Entry>, size: Container, start: nat, end: nat, hint: int, ghost lo: nat, ghost hi: nat,
              ghost all: seq<Entry>)
    returns (vector: seq<Option<Entry>>, found: seq<Entry>)
    requires start <= end && Contiguous(logs, lo, hi) && lo <= start
    requires start + |all| <= end && (start + |all| == end || start + |all| >= hi)
    requires all != [] ==> start + |all| <= hi
    requires forall i :: 0 <= i < |all| ==> all[i] == logs[start + i]
    ensures Copied(size, all, end - start, hint, vector, found)
  {
    found := [];
    var curSize: nat := 0;
    var itr := if start in logs then Some(start) else None;
    while itr.Some? && |found| + start < end
      invariant Taking(size, all, hint, found, curSize)
      invariant itr.Some? <==> |found| + start < hi
      invariant itr.Some? ==> itr.value == start + |found|
      decreases end - start - |found|
    {
      var le := logs[itr.value];
      TakeStep(size, all, hint, found, curSize, le);
      found := found + [le];
      itr := NextIn(logs, itr.value, lo, hi);
      curSize := curSize + size(|le.payload|);
      if hint > 0 && curSize >= hint {
        return Slots(found), found;
      }
    }
    TakeDone(size, all, hint, found, curSize);
    vector := Slots(found) + Nulls(end - start - |found|);
  }

  /** How much is cached: bytes, the span of indices, and what a payload counts for. */
  datatype Limits = Limits(maxCacheSize: nat, maxLogsToKeep: nat, size: Container)

  /** What a cached entry counts for. */
  function CostOf(size: Container): Entry -> nat {
    (e: Entry) => 16 + size(|e.payload|)
  }

  class Cache {
    const maxCacheSize: nat
    const maxLogsToKeep: nat
    const size: Container

    var logs: map<nat, Entry>
    var logsSize: nat
    var curStartIdx: nat

    constructor (maxCacheSize: nat, maxLogsToKeep: nat, size: Container)
      ensures Valid() && logs == map[] && curStartIdx == 0
      ensures this.maxCacheSize == maxCacheSize && this.maxLogsToKeep == maxLogsToKeep && this.size == size
    {
      this.maxCacheSize := maxCacheSize;
      this.maxLogsToKeep := maxLogsToKeep;
      this.size := size;
      logs := map[];
      logsSize := 0;
      curStartIdx := 0;
    }

    function Settings(): Limits {
      Limits(maxCacheSize, maxLogsToKeep, size)
    }

    /** The byte count is the sum of the cached entries' costs. */
    ghost predicate Valid()
      reads this
    {
      logsSize == Bytes(logs)
    }

    ghost function Bytes(m: map<nat, Entry>): nat {
      Sum(m, CostOf(size))
    }

    /** Both limits hold of `m`, all of whose keys are below `hi`. */
    ghost predicate Fits(m: map<nat, Entry>, hi: nat) {
      Bytes(m) <= maxCacheSize && forall k :: k in m ==> hi <= maxLogsToKeep + k + 1
    }

    /** `m` cut at `t` is the longest suffix of `m` that fits. */
    ghost predicate LongestFitting(m: map<nat, Entry>, lo: nat, hi: nat, t: nat) {
      && lo <= t <= hi
      && Fits(From(m, t), hi)
      && forall t' :: lo <= t' < t ==> !Fits(From(m, t'), hi)
    }

    /** For a contiguous map the two limits are tests on its cut and its byte count. */
    lemma FitsCut(m: map<nat, Entry>, lo: nat, hi: nat, t: nat)
      requires Contiguous(m, lo, hi) && lo <= t <= hi
      ensures Fits(From(m, t), hi) <==> Bytes(From(m, t)) <= maxCacheSize && (t < hi ==> hi <= maxLogsToKeep + t + 1)
      ensures t == hi ==> From(m, t) == map[] && Bytes(From(m, t)) == 0
    {
      if t < hi {
        assert t in From(m, t);
      } else {
        assert From(m, t) == map[];
      }
    }

    /** Erases the smallest key. */
    method EraseFirst() returns (k: nat)
      requires Valid() && logs != map[]
      modifies this`logs, this`logsSize
      ensures Valid() && k in old(logs) && (forall j :: j in old(logs) ==> k <= j)
      ensures logs == old(logs) - {k} == From(old(logs), k + 1)
    {
      k := MinKey(logs);
      SumRemove(logs, k, CostOf(size));
      FromErase(logs, k);
      logsSize := logsSize - (16 + size(|logs[k].payload|));
      logs := logs - {k};
    }

    method Insert(idx: nat, e: Entry)
      requires Valid()
      modifies this`logs, this`logsSize
      ensures Valid() && logs == old(logs)[idx := e]
    {
      SumSet(logs, idx, e, CostOf(size));
      if idx in logs {
        SumRemove(logs, idx, CostOf(size));
        logsSize := logsSize - (16 + size(|logs[idx].payload|));
        logs := logs - {idx};
      }
      logs := logs[idx := e];
      logsSize := logsSize + 16 + size(|e.payload|);
      assert logs == old(logs)[idx := e];
    }

    /** No cut between `lo` and `t` fits. */
    ghost predicate NoneFits(m: map<nat, Entry>, lo: nat, hi: nat, t: nat) {
      forall t' :: lo <= t' <= t ==> !Fits(From(m, t'), hi)
    }

    /** One round of eviction on a contiguous map moves the cut by one, and the loop's test then
        tells whether the rest fits. */
    lemma CutMoves(m: map<nat, Entry>, lo: nat, hi: nat, was: nat, k: nat, bytes: nat)
      requires Contiguous(m, lo, hi) && lo <= was <= hi && NoneFits(m, lo, hi, was)
      requires k in m && was <= k && forall j :: j in m && was <= j ==> k <= j
      requires bytes == Bytes(From(m, k + 1))
      ensures k == was && was < hi
      ensures if hi <= maxLogsToKeep + k + 2 && bytes <= maxCacheSize
              then LongestFitting(m, lo, hi, k + 1) else NoneFits(m, lo, hi, k + 1)
    {
      assert was in m;
      FitsCut(m, lo, hi, k + 1);
    }

    lemma EmptyFits(hi: nat)
      ensures Fits(map[], hi)
    {
    }

    /** Erases the smallest key of what is left of `base` after a cut. */
    method EvictFirst(ghost base: map<nat, Entry>, ghost cut: nat) returns (k: nat)
      requires Valid() && logs == From(base, cut) && logs != map[]
      modifies this`logs, this`logsSize
      ensures Valid() && logs == From(base, k + 1) && |logs| < |old(logs)|
      ensures k in base && cut <= k && forall j :: j in base && cut <= j ==> k <= j
    {
      k := EraseFirst();
      FromFrom(base, cut, k + 1);
      forall j | j in base && cut <= j ensures k <= j {
        assert j in From(base, cut);
      }
    }

    /** The eviction loop, entered when a limit is exceeded. */
    method Evict(min: nat, max: nat, ghost base: map<nat, Entry>) returns (ghost cut: nat)
      requires Valid() && logs == base && min in base
      requires forall k :: k in base ==> min <= k <= max
      requires max > maxLogsToKeep + min || logsSize > maxCacheSize
      modifies this`logs, this`logsSize
      ensures Valid() && logs == From(base, cut)
      ensures Contiguous(base, min, max + 1) ==> LongestFitting(base, min, max + 1, cut)
    {
      ghost var run := Contiguous(base, min, max + 1);
      cut := min;
      assert logs == From(base, min);
      if run {
        FitsCut(base, min, max + 1, min);
      }
      EmptyFits(max + 1);
      var count := 0;
      while logs != map[]
        invariant Valid() && logs == From(base, cut)
        invariant run ==> cut == min + count <= max + 1 && NoneFits(base, min, max + 1, cut)
        decreases |logs|
      {
        var k := EvictFirst(base, cut);
        if run {
          CutMoves(base, min, max + 1, cut, k, logsSize);
        }
        cut := k + 1;
        count := count + 1;
        if count + min + maxLogsToKeep >= max && logsSize <= maxCacheSize {
          return;
        }
      }
    }

    /** Caches an entry and evicts from the front. A contiguous cache is left with exactly the
        longest suffix that meets both limits, untouched when it meets them already. */
    method Set(idx: nat, e: Entry, ghost lo: nat, ghost hi: nat) returns (ghost cut: nat)
      requires Valid()
      modifies this`logs, this`logsSize
      ensures Valid() && logs == From(old(logs)[idx := e], cut)
      ensures Contiguous(old(logs)[idx := e], lo, hi) ==> LongestFitting(old(logs)[idx := e], lo, hi, cut)
    {
      Insert(idx, e);
      assert idx in logs;
      var min := MinKey(logs);
      var max := MaxKey(logs);
      if Contiguous(logs, lo, hi) {
        assert min in logs && max in logs && lo in logs && hi - 1 in logs;
      }
      if max > maxLogsToKeep + min || logsSize > maxCacheSize {
        cut := Evict(min, max, logs);
      } else {
        cut := min;
        assert logs == From(logs, min);
        if Contiguous(logs, lo, hi) {
          FitsCut(logs, lo, hi, lo);
        }
      }
    }

    /** The index after the largest cached one, or 0 for an empty cache. */
    method NextSlot(ghost lo: nat, ghost hi: nat) returns (next: nat)
      requires Contiguous(logs, lo, hi)
      ensures next == if lo < hi && 1 < hi then hi else 0
    {
      if logs == map[] {
        assert lo !in logs;
        return 0;
      }
      var max := MaxKey(logs);
      assert hi - 1 in logs;
      if max != 0 {
        return max + 1;
      }
      return 0;
    }

    /** Purges everything up to and including `upto`. */
    method Compact(upto: nat)
      requires Valid()
      modifies this`logs, this`logsSize
      ensures Valid() && logs == From(old(logs), upto + 1)
    {
      ghost var base, cut := logs, 0;
      assert logs == From(base, 0);
      while logs != map[]
        invariant Valid() && logs == From(base, cut) && cut <= upto + 1
        decreases |logs|
      {
        var first := MinKey(logs);
        if first > upto {
          break;
        }
        var k := EvictFirst(base, cut);
        cut := k + 1;
      }
      assert logs == From(base, upto + 1);
    }

    /** Point query. */
    method Get(idx: nat) returns (e: Option<Entry>)
      ensures e == if idx in logs then Some(logs[idx]) else None
    {
      if idx !in logs {
        return None;
      }
      return Some(logs[idx]);
    }

    method Drop()
      modifies this`logs, this`logsSize
      ensures Valid() && logs == map[]
    {
      logs := map[];
      logsSize := 0;
    }

    /** The cached entries of a range, up to the end of the cache. */
    ghost function Cached(start: nat, end: nat, hi: nat): seq<Entry>
      requires start <= end && forall k :: start <= k < hi ==> k in logs
      reads this
    {
      Range(logs, start, if start >= hi then start else if end < hi then end else hi)
    }

    /** Range query. A request that starts before the cache misses. */
    method Gets(start: nat, end: nat, hint: int, ghost lo: nat, ghost hi: nat)
      returns (hit: bool, vector: seq<Option<Entry>>, found: seq<Entry>)
      requires start <= end && Contiguous(logs, lo, hi)
      ensures hit <==> 0 < lo < hi && lo <= start
      ensures !hit ==> vector == Nulls(end - start)
      ensures hit ==> Copied(size, Cached(start, end, hi), end - start, hint, vector, found)
    {
      var min := FirstIn(logs, lo, hi);
      if min == 0 || min > start {
        return false, Nulls(end - start), [];
      }
      hit := true;
      vector, found := Copy(logs, size, start, end, hint, lo, hi, Cached(start, end, hi));
    }
  }
}
