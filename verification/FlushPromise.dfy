/** What `end_of_append_batch` promises: when it returns, the records of the batch are on disk. The
    promise is kept as long as no batch is announced whose last index is synced already while one of
    its records was overwritten since, and no rollback undoes what the flush thread takes for
    durable or what an answered call has not reported yet.
 */
module FlushPromise {
  import opened FlushProtocol

  // ---------- What always holds of the database ----------

  ghost predicate DbOk(db: Db) {
    && (forall i: Index :: i in db.versions <==> 1 <= i <= db.written)
    && db.synced <= db.written && (forall i: Index :: 1 <= i <= db.synced ==> i in db.disk)
    && (forall i :: i in db.disk ==> i in db.versions && db.disk[i] <= db.versions[i])
    && (forall i :: i in db.versions ==> db.versions[i] < db.clock)
  }

  /** A batch remembers writes that were made, and none younger than what is there now. */
  ghost predicate Remembered(db: Db, e: Elem) {
    && (forall i :: i in e.want ==> 1 <= i <= e.desired && e.want[i] < db.clock)
    && (forall i :: i in e.want && i in db.versions ==> e.want[i] <= db.versions[i])
  }

  lemma PutOk(db: Db, i: Index)
    requires DbOk(db) && 1 <= i <= db.written + 1
    ensures DbOk(db.Put(i))
  {
  }

  lemma SyncOk(db: Db, to: Index)
    requires DbOk(db) && db.synced <= to <= db.written
    ensures DbOk(db.Sync(to))
  {
  }

  lemma RollbackOk(db: Db, to: Index)
    requires DbOk(db)
    ensures DbOk(db.Rollback(to))
  {
  }

  lemma StepDbOk(s: State, ev: Event)
    requires DbOk(s.db) && Step(s, ev).Some?
    ensures DbOk(Step(s, ev).value.db)
  {
    match ev
    case Write => PutOk(s.db, s.db.written + 1);
    case Overwrite(i) => PutOk(s.db, i);
    case Rollback(to) => RollbackOk(s.db, to);
    case Sync(_, to, ok) => if ok { SyncOk(s.db, to); }
    case _ => assert Step(s, ev).value.db == s.db;
  }

  lemma {:induction false} RunDbOk(s: State, evs: seq<Event>)
    requires DbOk(s.db) && Run(s, evs).Some?
    ensures DbOk(Run(s, evs).value.db)
    decreases |evs|
  {
    if evs != [] {
      StepDbOk(s, evs[0]);
      RunDbOk(Step(s, evs[0]).value, evs[1..]);
    }
  }

  /** In every run, a batch that is announced is about every record that is written from its first to its
      last index, as it was written last, and about no other. */
  lemma BatchWants(evs: seq<Event>, r: Req, first: Index, last: Index, i: Index)
    requires Run(INITIAL, evs).Some? && Step(Run(INITIAL, evs).value, Enqueue(r, first, last)).Some?
    ensures var s := Run(INITIAL, evs).value;
            var s' := Step(s, Enqueue(r, first, last)).value;
            && r !in s.elems && s'.elems.Keys == s.elems.Keys + {r} && s'.queue == s.queue + [r]
            && s'.elems[r].desired == last && !s'.elems[r].done && s'.db == s.db
            && (i in s'.elems[r].want <==> 1 <= i <= s.db.written && first <= i <= last)
            && (i in s'.elems[r].want ==> i in s.db.versions && s'.elems[r].want[i] == s.db.versions[i])
  {
    RunDbOk(INITIAL, evs);
  }

  /** A sync that reaches the last record of a batch brings the batch to disk, and no sync takes
      anything off it. */
  lemma SyncBrings(db: Db, to: Index, e: Elem)
    requires DbOk(db) && Remembered(db, e) && db.synced <= to <= db.written
    ensures e.desired <= to || db.OnDisk(e.want) ==> db.Sync(to).OnDisk(e.want)
    ensures Remembered(db.Sync(to), e)
  {
  }

  lemma PutKeeps(db: Db, i: Index, e: Elem)
    requires DbOk(db) && Remembered(db, e) && 1 <= i <= db.written + 1
    ensures Remembered(db.Put(i), e) && (db.OnDisk(e.want) ==> db.Put(i).OnDisk(e.want))
  {
  }

  lemma RollbackKeeps(db: Db, to: Index, e: Elem)
    requires DbOk(db) && Remembered(db, e)
    ensures Remembered(db.Rollback(to), e)
    ensures db.Rollback(to).OnDisk(e.want) <==> db.OnDisk(e.want) && Within(e, to)
  {
    var db' := db.Rollback(to);
    if db'.OnDisk(e.want) {
      forall i | i in e.want ensures i in db.disk && db.disk[i] >= e.want[i] && i <= to {
        assert i in db'.disk;
      }
    }
  }

  /** Every record of the batch lies at or below `to`. */
  predicate Within(e: Elem, to: Index) {
    forall i :: i in e.want ==> i <= to
  }

  // ---------- The two dangers ----------

  /** A batch may be announced: its last record is not synced yet, or all its records are on disk as
      they are now. */
  predicate Safe(db: Db, first: Index, last: Index) {
    last > db.synced || db.OnDisk(db.Records(first, last))
  }

  /** What the flush thread takes for durable when it answers next, unless someone else stores before:
      the durable mark, or what its own call of `flush` is about to store there. */
  function Mark(s: State): Index {
    if FLUSH_THREAD in s.flushers && s.flushers[FLUSH_THREAD].AtStore? && s.flushers[FLUSH_THREAD].seen.Some?
    then s.flushers[FLUSH_THREAD].seen.value else s.lastDurable
  }

  /** The flush thread's mark, and whatever another call of `flush` is about to store, is at most `to`. */
  predicate MarkedUpTo(s: State, to: Index) {
    && Mark(s) <= to
    && forall t :: t in s.flushers && s.flushers[t].AtStore? && s.flushers[t].seen.Some? ==>
                     s.flushers[t].seen.value <= to
  }

  /** No answered call that has not returned yet has a record above `to`. */
  predicate AnsweredUpTo(s: State, to: Index) {
    forall r :: r in s.elems && s.elems[r].done && r !in s.returned ==> Within(s.elems[r], to)
  }

  /** Events that endanger no promise. Once the flush thread has stopped nothing is answered any more. */
  predicate Harmless(s: State, ev: Event) {
    match ev
    case Enqueue(_, first, last) => s.thread.Stopped? || Safe(s.db, first, last)
    case Rollback(to) => AnsweredUpTo(s, to) && (s.thread.Stopped? || MarkedUpTo(s, to))
    case _ => true
  }

  // ---------- The invariant ----------

  /** The flush thread's own call of `flush` runs only while the thread waits for it. */
  predicate Coherent(s: State) {
    && (FLUSH_THREAD in s.flushers ==> s.thread.Flushing?)
    && (s.thread.Scanning? || s.thread.Answering? ==> s.thread.i <= |s.thread.batch|)
  }

  /** An unanswered request is still to be synced or on disk; an answered one is on disk until its
      call returns. */
  ghost predicate Kept(s: State, r: Req)
    requires r in s.elems
  {
    var e := s.elems[r];
    if e.done then r in s.returned || s.db.OnDisk(e.want)
    else s.thread.Stopped? || e.desired > s.db.synced || s.db.OnDisk(e.want)
  }

  ghost predicate Inv(s: State) {
    && DbOk(s.db) && Placed(s) && Coherent(s)
    && (s.thread.Stopped? || MarkedUpTo(s, s.db.synced))
    && (forall r :: r in s.elems ==> Remembered(s.db, s.elems[r]) && Kept(s, r))
    && s.broken == {}
  }

  /** A step of the database alone. */
  lemma DbStepInv(s: State, db': Db)
    requires Inv(s) && DbOk(db') && (s.thread.Stopped? || MarkedUpTo(s, db'.synced))
    requires forall r :: r in s.elems ==> Remembered(db', s.elems[r]) && Kept(s.(db := db'), r)
    ensures Inv(s.(db := db'))
  {
    MovePlaced(s, s.(db := db'));
  }

  lemma PutInv(s: State, i: Index)
    requires Inv(s) && 1 <= i <= s.db.written + 1
    ensures Inv(s.(db := s.db.Put(i)))
  {
    PutOk(s.db, i);
    forall r | r in s.elems ensures Remembered(s.db.Put(i), s.elems[r]) && Kept(s.(db := s.db.Put(i)), r) {
      PutKeeps(s.db, i, s.elems[r]);
      assert Kept(s, r);
    }
    DbStepInv(s, s.db.Put(i));
  }

  lemma RollbackInv(s: State, to: Index)
    requires Inv(s) && Harmless(s, Rollback(to))
    ensures Inv(s.(db := s.db.Rollback(to)))
  {
    RollbackOk(s.db, to);
    forall r | r in s.elems ensures Remembered(s.db.Rollback(to), s.elems[r]) && Kept(s.(db := s.db.Rollback(to)), r) {
      RollbackKeeps(s.db, to, s.elems[r]);
      assert Kept(s, r);
    }
    DbStepInv(s, s.db.Rollback(to));
  }

  lemma EnqueueInv(s: State, r: Req, first: Index, last: Index)
    requires Inv(s) && r !in s.elems && Harmless(s, Enqueue(r, first, last))
    ensures Inv(Step(s, Enqueue(r, first, last)).value)
  {
    EnqueuePlaced(s, r, first, last);
    var s' := Step(s, Enqueue(r, first, last)).value;
    forall q | q in s'.elems ensures Remembered(s'.db, s'.elems[q]) && Kept(s', q) {
      assert q != r ==> Kept(s, q);
    }
  }

  lemma ReturnInv(s: State, r: Req)
    requires Inv(s) && Step(s, Return(r)).Some?
    ensures Inv(Step(s, Return(r)).value)
  {
    ReturnPlaced(s, r);
    assert Kept(s, r);
    var s' := Step(s, Return(r)).value;
    forall q | q in s'.elems ensures Kept(s', q) {
      assert Kept(s, q);
    }
  }

  // ---------- Calls of flush ----------

  /** A step that leaves the database and the requests alone. */
  lemma QuietInv(s: State, s': State)
    requires Inv(s) && Coherent(s') && s'.db == s.db && s'.elems == s.elems && Pending(s') == Pending(s)
    requires s'.returned == s.returned && s'.broken == s.broken && (s.thread.Stopped? ==> s'.thread.Stopped?)
    requires s'.thread.Stopped? || MarkedUpTo(s', s.db.synced)
    ensures Inv(s')
  {
    MovePlaced(s, s');
    forall r | r in s'.elems ensures Kept(s', r) {
      assert Kept(s, r);
    }
  }

  lemma SyncInv(s: State, t: Tid, to: Index, ok: bool)
    requires Inv(s) && FlushStep(s, Sync(t, to, ok)).Some?
    ensures Inv(FlushStep(s, Sync(t, to, ok)).value)
  {
    var s1 := s.(flushers := s.flushers[t := AtRead]);
    QuietInv(s, s1);
    if ok {
      SyncOk(s.db, to);
      forall r | r in s1.elems ensures Remembered(s.db.Sync(to), s1.elems[r]) && Kept(s1.(db := s.db.Sync(to)), r) {
        SyncBrings(s.db, to, s.elems[r]);
        assert Kept(s, r);
      }
      DbStepInv(s1, s.db.Sync(to));
    }
  }

  lemma CallFlushInv(s: State, t: Tid)
    requires Inv(s) && FlushStep(s, CallFlush(t)).Some?
    ensures Inv(FlushStep(s, CallFlush(t)).value)
  {
    QuietInv(s, FlushStep(s, CallFlush(t)).value);
  }

  lemma ReadInv(s: State, t: Tid, ok: bool)
    requires Inv(s) && FlushStep(s, Read(t, ok)).Some?
    ensures Inv(FlushStep(s, Read(t, ok)).value)
  {
    QuietInv(s, FlushStep(s, Read(t, ok)).value);
  }

  /** A store moves no mark above what was about to be stored. */
  lemma StoreMarks(s: State, t: Tid, to: Index)
    requires Coherent(s) && FlushStep(s, Store(t)).Some?
    ensures Coherent(FlushStep(s, Store(t)).value)
    ensures MarkedUpTo(s, to) ==> MarkedUpTo(FlushStep(s, Store(t)).value, to)
    ensures var s' := FlushStep(s, Store(t)).value;
            s' == s.(flushers := s'.flushers, lastDurable := s'.lastDurable)
  {
  }

  lemma StoreInv(s: State, t: Tid)
    requires Inv(s) && FlushStep(s, Store(t)).Some?
    ensures Inv(FlushStep(s, Store(t)).value)
  {
    StoreMarks(s, t, s.db.synced);
    QuietInv(s, FlushStep(s, Store(t)).value);
  }

  // ---------- The flush thread ----------

  /** A step of the flush thread moves no mark. */
  lemma ThreadMarks(s: State, ev: Event, to: Index)
    requires Coherent(s) && ThreadStep(s, ev).Some?
    ensures Coherent(ThreadStep(s, ev).value)
    ensures MarkedUpTo(s, to) ==> MarkedUpTo(ThreadStep(s, ev).value, to)
  {
  }

  lemma TakeInv(s: State)
    requires Inv(s) && ThreadStep(s, Take).Some?
    ensures Inv(ThreadStep(s, Take).value)
  {
    var s' := ThreadStep(s, Take).value;
    ThreadMarks(s, Take, s.db.synced);
    assert Pending(s') == Pending(s);
    QuietInv(s, s');
  }

  /** The other steps of the flush thread that answer nothing. */
  lemma MovePending(s: State, ev: Event)
    requires (ev.Scan? || ev.Resume? || ev.Stop?) && ThreadStep(s, ev).Some?
    ensures var s' := ThreadStep(s, ev).value;
            && s' == s.(thread := s'.thread, flushers := s'.flushers) && Batch(s'.thread) == Batch(s.thread)
            && !s.thread.Stopped?
  {
  }

  lemma MoveInv(s: State, ev: Event)
    requires Inv(s) && (ev.Scan? || ev.Resume? || ev.Stop?) && ThreadStep(s, ev).Some?
    ensures Inv(ThreadStep(s, ev).value)
  {
    MovePending(s, ev);
    ThreadMarks(s, ev, s.db.synced);
    QuietInv(s, ThreadStep(s, ev).value);
  }

  /** What is answered is on disk. */
  lemma AnswerKept(s: State, r: Req)
    requires Inv(s) && ThreadStep(s, Answer).Some? && r in s.elems
    ensures var s' := ThreadStep(s, Answer).value;
            r in s'.elems && Remembered(s'.db, s'.elems[r]) && Kept(s', r)
  {
    assert Kept(s, r) && Mark(s) <= s.db.synced;
  }

  /** What an answer leaves alone. */
  lemma AnswerFrame(s: State)
    requires ThreadStep(s, Answer).Some?
    ensures var s' := ThreadStep(s, Answer).value;
            && s'.db == s.db && s'.broken == s.broken && s'.returned == s.returned && s'.elems.Keys == s.elems.Keys
            && !s'.thread.Stopped? && !s.thread.Stopped?
  {
    var s' := ThreadStep(s, Answer).value;
    assert forall r :: r in s'.elems <==> r in s.elems;
  }

  lemma AnswerInv(s: State)
    requires Inv(s) && ThreadStep(s, Answer).Some?
    ensures Inv(ThreadStep(s, Answer).value)
  {
    AnswerPlaced(s);
    AnswerFrame(s);
    ThreadMarks(s, Answer, s.db.synced);
    var s' := ThreadStep(s, Answer).value;
    forall r | r in s'.elems ensures Remembered(s'.db, s'.elems[r]) && Kept(s', r) {
      assert r in s.elems.Keys;
      AnswerKept(s, r);
    }
  }

  lemma FlushInv(s: State, ev: Event)
    requires Inv(s) && FlushStep(s, ev).Some?
    ensures Inv(FlushStep(s, ev).value)
  {
    match ev
    case CallFlush(t) => CallFlushInv(s, t);
    case Sync(t, to, ok) => SyncInv(s, t, to, ok);
    case Read(t, ok) => ReadInv(s, t, ok);
    case Store(t) => StoreInv(s, t);
  }

  lemma ThreadInv(s: State, ev: Event)
    requires Inv(s) && ThreadStep(s, ev).Some?
    ensures Inv(ThreadStep(s, ev).value)
  {
    match ev
    case Take => TakeInv(s);
    case Answer => AnswerInv(s);
    case _ => MoveInv(s, ev);
  }

  /** Harmless events keep the invariant, and so every promise. */
  lemma StepInv(s: State, ev: Event)
    requires Inv(s) && Step(s, ev).Some? && Harmless(s, ev)
    ensures Inv(Step(s, ev).value)
  {
    match ev
    case Write => PutInv(s, s.db.written + 1);
    case Overwrite(i) => PutInv(s, i);
    case Rollback(to) => RollbackInv(s, to);
    case Enqueue(r, first, last) => EnqueueInv(s, r, first, last);
    case Return(r) => ReturnInv(s, r);
    case Take => ThreadInv(s, ev);
    case Scan => ThreadInv(s, ev);
    case Resume => ThreadInv(s, ev);
    case Answer => ThreadInv(s, ev);
    case Stop => ThreadInv(s, ev);
    case _ => FlushInv(s, ev);
  }

  // ---------- Runs ----------

  /** Every event of a run is harmless when it happens. */
  predicate Careful(s: State, evs: seq<Event>)
    requires Run(s, evs).Some?
    decreases |evs|
  {
    evs == [] || (Harmless(s, evs[0]) && Careful(Step(s, evs[0]).value, evs[1..]))
  }

  lemma {:induction false} CarefulInv(s: State, evs: seq<Event>)
    requires Inv(s) && Run(s, evs).Some? && Careful(s, evs)
    ensures Inv(Run(s, evs).value)
    decreases |evs|
  {
    if evs != [] {
      StepInv(s, evs[0]);
      CarefulInv(Step(s, evs[0]).value, evs[1..]);
    }
  }

  /** In every run of harmless events each call of `end_of_append_batch` returned with its records on
      disk, and each one that is not answered waits in exactly one of the queue and the current batch. */
  lemma Protocol(evs: seq<Event>, r: Req)
    requires Run(INITIAL, evs).Some? && Careful(INITIAL, evs)
    ensures var s := Run(INITIAL, evs).value;
            && s.broken == {}
            && (r in s.elems && !s.elems[r].done ==>
                  multiset(s.queue)[r] + multiset(Batch(s.thread))[r] == 1 && r !in s.returned)
  {
    CarefulInv(INITIAL, evs);
    var s := Run(INITIAL, evs).value;
    assert Pending(s)[r] == multiset(s.queue)[r] + multiset(Batch(s.thread))[r];
  }

  // ---------- Appending only ----------

  predicate Appends(evs: seq<Event>) {
    forall i :: 0 <= i < |evs| ==> !evs[i].Overwrite? && !evs[i].Rollback?
  }

  /** Nothing on disk has been overwritten since. */
  ghost predicate Clean(db: Db) {
    forall i :: i in db.disk ==> i in db.versions && db.disk[i] == db.versions[i]
  }

  lemma CleanIsSafe(db: Db, first: Index, last: Index)
    requires DbOk(db) && Clean(db)
    ensures Safe(db, first, last)
  {
  }

  lemma CleanStep(s: State, ev: Event)
    requires DbOk(s.db) && Clean(s.db) && Step(s, ev).Some? && !ev.Overwrite? && !ev.Rollback?
    ensures Clean(Step(s, ev).value.db)
  {
  }

  lemma {:induction false} AppendsCareful(s: State, evs: seq<Event>)
    requires Inv(s) && Clean(s.db) && Run(s, evs).Some? && Appends(evs)
    ensures Careful(s, evs)
    decreases |evs|
  {
    if evs != [] {
      var ev := evs[0];
      if ev.Enqueue? {
        CleanIsSafe(s.db, ev.first, ev.last);
      }
      CleanStep(s, ev);
      StepInv(s, ev);
      AppendsCareful(Step(s, ev).value, evs[1..]);
    }
  }

  /** Without overwriting and rolling back, no call returns before its records are on disk. */
  lemma AppendsKeepPromises(evs: seq<Event>)
    requires Run(INITIAL, evs).Some? && Appends(evs)
    ensures Run(INITIAL, evs).value.broken == {}
  {
    AppendsCareful(INITIAL, evs);
    CarefulInv(INITIAL, evs);
  }

  // ---------- Answers and the synced index ----------

  /** All marks, and the last index of every answered batch, are at most the synced index. */
  ghost predicate Reached(s: State) {
    && s.lastDurable <= s.db.synced <= s.db.written
    && (forall t :: t in s.flushers && s.flushers[t].AtStore? && s.flushers[t].seen.Some? ==>
                      s.flushers[t].seen.value <= s.db.synced)
    && forall r :: r in s.elems && s.elems[r].done ==> s.elems[r].desired <= s.db.synced
  }

  lemma ReachedThread(s: State, ev: Event)
    requires Reached(s) && ThreadStep(s, ev).Some?
    ensures Reached(ThreadStep(s, ev).value)
  {
  }

  lemma ReachedFlush(s: State, ev: Event)
    requires Reached(s) && FlushStep(s, ev).Some?
    ensures Reached(FlushStep(s, ev).value)
  {
  }

  lemma ReachedStep(s: State, ev: Event)
    requires Reached(s) && Step(s, ev).Some? && !ev.Rollback?
    ensures Reached(Step(s, ev).value)
  {
    if ThreadStep(s, ev).Some? {
      ReachedThread(s, ev);
    } else if FlushStep(s, ev).Some? {
      ReachedFlush(s, ev);
    }
  }

  /** Whatever is overwritten, without a rollback no request is answered before the synced index has
      reached its last record. */
  lemma {:induction false} ReachedRun(s: State, evs: seq<Event>)
    requires Reached(s) && Run(s, evs).Some? && forall i :: 0 <= i < |evs| ==> !evs[i].Rollback?
    ensures Reached(Run(s, evs).value)
    decreases |evs|
  {
    if evs != [] {
      ReachedStep(s, evs[0]);
      ReachedRun(Step(s, evs[0]).value, evs[1..]);
    }
  }
}
