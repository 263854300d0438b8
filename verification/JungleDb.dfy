/** The sequence-numbered database behind the log store, as the store relies on it: a map from
    sequence numbers to values that remembers its largest number even when purged empty.
 */
module JungleDb {
  import opened Options
  import opened LogSpec

  datatype Db<V> = Db(records: map<nat, V>, maxSeq: Option<nat>, minSeq: nat) {
    function Set(i: nat, v: V): Db<V> {
      match maxSeq
      case None => Db(records[i := v], Some(i), i)
      case Some(m) => Db(records[i := v], Some(if m < i then i else m), minSeq)
    }

    /** Makes `to` the largest number again; nothing happens when it is not below it. */
    function Rollback(to: nat): Db<V> {
      match maxSeq
      case None => this
      case Some(m) => if m <= to then this else Db(map k | k in records && k <= to :: records[k], Some(to), minSeq)
    }

    /** Forgets everything up to and including `upto`. */
    function Purge(upto: nat): Db<V> {
      if upto < minSeq then this
      else Db(map k | k in records && upto < k :: records[k], maxSeq, upto + 1)
    }
  }

  /** The index after the largest number, or 1. */
  function Top<V>(db: Db<V>): nat {
    match db.maxSeq
    case None => 1
    case Some(m) => m + 1
  }

  function Bottom<V>(db: Db<V>): nat {
    if db.maxSeq.None? then 1 else db.minSeq
  }

  /** The database holds one value for each index from its bottom to its top. */
  ghost predicate Dense<V>(db: Db<V>) {
    && 1 <= Bottom(db) <= Top(db)
    && forall k: nat :: k in db.records <==> Bottom(db) <= k < Top(db)
  }

  /** The database stands for the log `log`, each of whose entries it holds as `enc` of it. */
  ghost predicate Holds<R, V>(enc: R -> V, db: Db<V>, log: Log<R>) {
    && Dense(db) && log.start == Bottom(db) && log.Next() == Top(db)
    && forall k: nat :: k in db.records ==> db.records[k] == enc(log.At(k))
  }

  lemma SetPuts<R, V>(enc: R -> V, db: Db<V>, log: Log<R>, i: nat, r: R)
    requires Holds(enc, db, log) && Bottom(db) <= i <= Top(db) && (db.maxSeq.None? ==> i == 1)
    ensures Holds(enc, db.Set(i, enc(r)), PutAt(log, i, r))
  {
  }

  /** The first write settles where the log starts. */
  lemma FirstSet<R, V>(enc: R -> V, db: Db<V>, log: Log<R>, i: nat, r: R)
    requires Holds(enc, db, log) && db.maxSeq.None? && 1 <= i
    ensures Holds(enc, db.Set(i, enc(r)), Log(i, [r]))
  {
  }

  lemma RollbackTruncates<R, V>(enc: R -> V, db: Db<V>, log: Log<R>, to: nat)
    requires Holds(enc, db, log) && Bottom(db) <= to + 1
    ensures Holds(enc, db.Rollback(to), Truncated(log, to))
  {
  }

  lemma PurgeCompacts<R, V>(enc: R -> V, db: Db<V>, log: Log<R>, last: nat)
    requires Holds(enc, db, log) && db.maxSeq.Some? && last < Top(db)
    ensures Holds(enc, db.Purge(last), Compacted(log, last))
  {
  }

  /** Compacting past the end: whatever was stored at `last` to get there is purged with the rest. */
  lemma PurgeBeyond<R, V>(enc: R -> V, db: Db<V>, log: Log<R>, last: nat, v: V)
    requires Holds(enc, db, log) && (db.maxSeq.None? || Top(db) <= last)
    ensures Holds(enc, db.Set(last, v).Purge(last), Log(last + 1, []))
  {
    var db' := db.Set(last, v).Purge(last);
    assert db'.records == map[];
  }

  // ---------- Packs ----------

  /** The first `n` values stored one after another from index `i` on. */
  function SetFirst<V>(db: Db<V>, i: nat, vs: seq<V>, n: nat): Db<V>
    requires n <= |vs|
  {
    if n == 0 then db else SetFirst(db, i, vs, n - 1).Set(i + n - 1, vs[n - 1])
  }

  lemma SetFirstNext<V>(db: Db<V>, i: nat, vs: seq<V>, n: nat)
    requires n < |vs|
    ensures SetFirst(db, i, vs, n + 1) == SetFirst(db, i, vs, n).Set(i + n, vs[n])
  {
  }

  function SetAll<V>(db: Db<V>, i: nat, vs: seq<V>): Db<V> {
    SetFirst(db, i, vs, |vs|)
  }

  function Encoded<R, V>(enc: R -> V, rs: seq<R>): (vs: seq<V>)
    ensures |vs| == |rs| && forall k :: 0 <= k < |rs| ==> vs[k] == enc(rs[k])
  {
    seq(|rs|, k requires 0 <= k < |rs| => enc(rs[k]))
  }

  /** Where a pack continues the log: anywhere from 1 on if nothing was ever stored, otherwise within
      the log or right after it, also when the log was purged empty. */
  predicate Continues<R, V>(db: Db<V>, log: Log<R>, i: nat) {
    if db.maxSeq.None? then 1 <= i else log.start <= i <= log.Next()
  }

  /** One more record of a pack. */
  lemma SetNext<R, V>(enc: R -> V, db: Db<V>, now: Db<V>, i: nat, r: R, before: Log<R>, after: Log<R>)
    requires Holds(enc, db, before) && now == db.Set(i, enc(r))
    requires if db.maxSeq.None? then 1 <= i && after == Log(i, [r])
             else before.start <= i <= before.Next() && after == PutAt(before, i, r)
    ensures Holds(enc, now, after) && now.maxSeq.Some?
  {
    if db.maxSeq.None? {
      FirstSet(enc, db, before, i, r);
    } else {
      SetPuts(enc, db, before, i, r);
    }
  }

  /** The database after the first `n` records of a pack. */
  ghost predicate PackedUpTo<R, V>(enc: R -> V, db: Db<V>, db': Db<V>, log: Log<R>, i: nat, rs: seq<R>, n: nat)
    requires n <= |rs| && Applicable(log, i)
  {
    Holds(enc, db', Packed(log, i, rs[..n])) && (db'.maxSeq.None? <==> db.maxSeq.None? && n == 0)
  }

  lemma PackedNext<R, V>(enc: R -> V, db: Db<V>, db': Db<V>, now: Db<V>, log: Log<R>, i: nat, rs: seq<R>, n: nat)
    requires Holds(enc, db, log) && Continues(db, log, i) && n < |rs|
    requires PackedUpTo(enc, db, db', log, i, rs, n) && now == db'.Set(i + n, enc(rs[n]))
    ensures PackedUpTo(enc, db, now, log, i, rs, n + 1)
  {
    PackedSnoc(log, i, rs, n);
    SetNext(enc, db', now, i + n, rs[n], Packed(log, i, rs[..n]), Packed(log, i, rs[..n + 1]));
  }

  lemma {:induction false} SetFirstPacks<R, V>(enc: R -> V, db: Db<V>, log: Log<R>, i: nat, rs: seq<R>, n: nat)
    requires Holds(enc, db, log) && Continues(db, log, i) && n <= |rs|
    ensures PackedUpTo(enc, db, SetFirst(db, i, Encoded(enc, rs), n), log, i, rs, n)
  {
    if n == 0 {
      assert rs[..0] == [];
    } else {
      var vs, m := Encoded(enc, rs), n - 1;
      SetFirstPacks(enc, db, log, i, rs, m);
      SetFirstNext(db, i, vs, m);
      PackedNext(enc, db, SetFirst(db, i, vs, m), SetFirst(db, i, vs, m + 1), log, i, rs, m);
    }
  }

  lemma SetAllPacks<R, V>(enc: R -> V, db: Db<V>, log: Log<R>, i: nat, rs: seq<R>)
    requires Holds(enc, db, log) && Continues(db, log, i)
    ensures Holds(enc, SetAll(db, i, Encoded(enc, rs)), Packed(log, i, rs))
    ensures SetAll(db, i, Encoded(enc, rs)).maxSeq.None? <==> db.maxSeq.None? && rs == []
  {
    SetFirstPacks(enc, db, log, i, rs, |rs|);
    assert rs[..|rs|] == rs;
  }

  /** Which number is the largest then, and which the smallest. */
  lemma {:induction false} SetFirstEnds<V>(db: Db<V>, i: nat, vs: seq<V>, n: nat)
    requires 1 <= n <= |vs|
    ensures var db' := SetFirst(db, i, vs, n);
            && db'.maxSeq == Some(match db.maxSeq case None => i + n - 1
                                                  case Some(m) => if m < i + n - 1 then i + n - 1 else m)
            && db'.minSeq == if db.maxSeq.None? then i else db.minSeq
  {
    if n > 1 {
      SetFirstEnds(db, i, vs, n - 1);
    } else {
      assert SetFirst(db, i, vs, 0) == db;
    }
  }

  lemma {:induction false} SetFirstAt<V>(db: Db<V>, i: nat, vs: seq<V>, n: nat, k: nat)
    requires n <= |vs|
    ensures k in SetFirst(db, i, vs, n).records <==> k in db.records || i <= k < i + n
    ensures i <= k < i + n ==> SetFirst(db, i, vs, n).records[k] == vs[k - i]
    ensures k in db.records && !(i <= k < i + n) ==> SetFirst(db, i, vs, n).records[k] == db.records[k]
  {
    if n > 0 {
      SetFirstAt(db, i, vs, n - 1, k);
    }
  }

  /** What storing a pack does to any database. */
  lemma SetAllMeans<V>(db: Db<V>, i: nat, vs: seq<V>)
    requires vs != []
    ensures var db' := SetAll(db, i, vs);
            && db'.maxSeq == Some(match db.maxSeq case None => i + |vs| - 1
                                                  case Some(m) => if m < i + |vs| - 1 then i + |vs| - 1 else m)
            && db'.minSeq == (if db.maxSeq.None? then i else db.minSeq)
            && (forall k: nat :: k in db'.records <==> k in db.records || i <= k < i + |vs|)
            && forall k :: k in db'.records ==>
                             db'.records[k] == if i <= k < i + |vs| then vs[k - i] else db.records[k]
  {
    SetFirstEnds(db, i, vs, |vs|);
    forall k: nat
      ensures k in SetAll(db, i, vs).records <==> k in db.records || i <= k < i + |vs|
      ensures k in SetAll(db, i, vs).records ==>
                SetAll(db, i, vs).records[k] == if i <= k < i + |vs| then vs[k - i] else db.records[k]
    {
      SetFirstAt(db, i, vs, |vs|, k);
    }
  }

  /** Values stored behind the only one of a database. */
  lemma BehindFirst<V>(db: Db<V>, last: nat, vs: seq<V>, i: nat)
    requires db.maxSeq == Some(last) && last in db.records && (i in db.records <==> i == last)
    ensures var db' := SetAll(db, last + 1, vs);
            && Top(db') == last + 1 + |vs| && db'.maxSeq.Some? && db'.minSeq == db.minSeq
            && last in db'.records && db'.records[last] == db.records[last]
            && (i in db'.records <==> last <= i <= last + |vs|)
            && (last < i <= last + |vs| ==> db'.records[i] == vs[i - (last + 1)])
  {
    if vs != [] {
      SetFirstEnds(db, last + 1, vs, |vs|);
    }
    SetFirstAt(db, last + 1, vs, |vs|, last);
    SetFirstAt(db, last + 1, vs, |vs|, i);
  }

  /** A pack that does not continue the log leaves a database that stands for none: there is a hole
      before it, or a record in front of the start. */
  lemma MisplacedPack<R(!new), V>(enc: R -> V, db: Db<V>, log: Log<R>, i: nat, vs: seq<V>)
    requires Holds(enc, db, log) && !Continues(db, log, i) && vs != []
    ensures forall l: Log<R> :: !Holds(enc, SetAll(db, i, vs), l)
  {
    SetAllMeans(db, i, vs);
    var db' := SetAll(db, i, vs);
    if db.maxSeq.Some? && i > log.Next() {
      assert log.Next() !in db'.records && Bottom(db') <= log.Next() < Top(db');
    } else {
      assert i in db'.records;
    }
    assert !Dense(db');
  }
}
