/** The promise of `end_of_append_batch` is kept by harmless events and by no others: any other event
    can be followed, by harmless events alone, by the return of a call whose records are not on disk.
 */
module FlushExact {
  import opened Options
  import opened FlushProtocol
  import opened FlushPromise
  import opened FlushProgress

  // ---------- Reaching a state by harmless events ----------

  ghost predicate Reaches(s: State, s': State) {
    exists evs :: Run(s, evs) == Some(s') && Careful(s, evs)
  }

  lemma Stays(s: State)
    ensures Reaches(s, s)
  {
    assert Run(s, []) == Some(s) && Careful(s, []);
  }

  lemma Goes(s: State, ev: Event, s': State, end: State)
    requires Step(s, ev) == Some(s') && Harmless(s, ev) && Reaches(s', end)
    ensures Reaches(s, end)
  {
    var rest :| Run(s', rest) == Some(end) && Careful(s', rest);
    First(s, ev, s', rest, end);
    assert ([ev] + rest)[1..] == rest;
    assert Careful(s, [ev] + rest);
  }

  lemma {:induction false} RunReaches(s: State, evs: seq<Event>, mid: State, end: State)
    requires Run(s, evs) == Some(mid) && Careful(s, evs) && Reaches(mid, end)
    ensures Reaches(s, end)
    decreases |evs|
  {
    if evs != [] {
      var s' := Step(s, evs[0]).value;
      RunReaches(s', evs[1..], mid, end);
      Goes(s, evs[0], s', end);
    }
  }

  /** A broken promise can be reached. */
  ghost predicate Doomed(s: State) {
    exists end :: Reaches(s, end) && end.broken != {}
  }

  lemma DoomedBefore(s: State, ev: Event)
    requires Step(s, ev).Some? && Harmless(s, ev) && Doomed(Step(s, ev).value)
    ensures Doomed(s)
  {
    var end :| Reaches(Step(s, ev).value, end) && end.broken != {};
    Goes(s, ev, Step(s, ev).value, end);
  }

  // ---------- How promises break ----------

  /** An answered call whose records are not on disk returns. */
  lemma ReturnBreaks(s: State, r: Req)
    requires r in s.elems && s.elems[r].done && r !in s.returned && !s.db.OnDisk(s.elems[r].want)
    ensures Doomed(s)
  {
    var s' := Step(s, Return(r)).value;
    Stays(s');
    assert r in s'.broken;
    Goes(s, Return(r), s', s');
  }

  /** A request at or below the thread's mark is answered without a sync. */
  lemma AnswerBreaks(s: State, r: Req)
    requires Due(s, r, false) && !s.db.OnDisk(s.elems[r].want)
    ensures Doomed(s)
  {
    assert r !in s.returned;
    var evs, mid := Served(s, r, false);
    SoloCareful(s, evs, false);
    ReturnBreaks(mid, r);
    var end :| Reaches(mid, end) && end.broken != {};
    RunReaches(s, evs, mid, end);
  }

  /** The thread's own call of `flush`, if there is one, has ended without reaching the disk. */
  function Settled(s: State): State {
    s.(flushers := s.flushers - {FLUSH_THREAD}, lastDurable := Mark(s))
  }

  lemma StoreSettles(s: State)
    requires FLUSH_THREAD in s.flushers && s.flushers[FLUSH_THREAD].AtStore? && Doomed(Settled(s))
    ensures Doomed(s)
  {
    assert Step(s, Store(FLUSH_THREAD)) == Some(Settled(s));
    DoomedBefore(s, Store(FLUSH_THREAD));
  }

  lemma ReadSettles(s: State)
    requires FLUSH_THREAD in s.flushers && s.flushers[FLUSH_THREAD].AtRead? && Doomed(Settled(s))
    ensures Doomed(s)
  {
    var s' := s.(flushers := s.flushers[FLUSH_THREAD := AtStore(None)]);
    assert Step(s, Read(FLUSH_THREAD, false)) == Some(s');
    assert s'.flushers - {FLUSH_THREAD} == s.flushers - {FLUSH_THREAD};
    StoreSettles(s');
    DoomedBefore(s, Read(FLUSH_THREAD, false));
  }

  lemma SyncSettles(s: State)
    requires FLUSH_THREAD in s.flushers && s.flushers[FLUSH_THREAD].AtSync? && Doomed(Settled(s))
    requires s.db.synced <= s.db.written
    ensures Doomed(s)
  {
    var s' := s.(flushers := s.flushers[FLUSH_THREAD := AtRead]);
    assert Step(s, Sync(FLUSH_THREAD, s.db.synced, false)) == Some(s');
    assert s'.flushers - {FLUSH_THREAD} == s.flushers - {FLUSH_THREAD};
    ReadSettles(s');
    DoomedBefore(s, Sync(FLUSH_THREAD, s.db.synced, false));
  }

  lemma Settles(s: State)
    requires Doomed(Settled(s)) && s.db.synced <= s.db.written
    ensures Doomed(s)
  {
    if FLUSH_THREAD !in s.flushers {
      assert s.flushers - {FLUSH_THREAD} == s.flushers;
      assert Settled(s) == s;
    } else if s.flushers[FLUSH_THREAD].AtSync? {
      SyncSettles(s);
    } else if s.flushers[FLUSH_THREAD].AtRead? {
      ReadSettles(s);
    } else {
      StoreSettles(s);
    }
  }

  /** Ids are never used up. */
  lemma Unused(used: set<nat>) returns (x: nat)
    ensures forall y :: y in used ==> y < x
  {
    if used == {} {
      x := 0;
    } else {
      var y :| y in used;
      var z := Unused(used - {y});
      x := Max(z, y + 1);
      forall w | w in used ensures w < x {
        assert w == y || w in used - {y};
      }
    }
  }

  // ---------- An unsafe batch ----------

  /** A call of `flush` at the given point, by a caller that makes no other. */
  function With(s: State, t: Tid, pc: FlushPc): State {
    s.(flushers := s.flushers[t := pc])
  }

  lemma WithSteps(s: State, t: Tid)
    requires t !in s.flushers && t != FLUSH_THREAD && 1 <= s.db.synced <= s.db.written
    ensures Step(s, CallFlush(t)) == Some(With(s, t, AtSync))
    ensures Step(With(s, t, AtSync), Sync(t, s.db.synced, false)) == Some(With(s, t, AtRead))
    ensures Step(With(s, t, AtRead), Read(t, true)) == Some(With(s, t, AtStore(Some(s.db.synced))))
    ensures Step(With(s, t, AtStore(Some(s.db.synced))), Store(t)) == Some(s.(lastDurable := s.db.synced))
  {
    assert s.flushers[t := AtSync][t := AtRead] == s.flushers[t := AtRead];
    assert s.flushers[t := AtRead][t := AtStore(Some(s.db.synced))] == s.flushers[t := AtStore(Some(s.db.synced))];
    assert s.flushers[t := AtStore(Some(s.db.synced))] - {t} == s.flushers;
  }

  /** Another call of `flush` whose sync fails reads the synced index all the same and stores it. */
  lemma RaiseMark(s: State)
    requires 1 <= s.db.synced <= s.db.written && Doomed(s.(lastDurable := s.db.synced))
    ensures Doomed(s)
  {
    var t := Unused(s.flushers.Keys + {FLUSH_THREAD});
    assert t !in s.flushers && t != FLUSH_THREAD;
    WithSteps(s, t);
    DoomedBefore(With(s, t, AtStore(Some(s.db.synced))), Store(t));
    DoomedBefore(With(s, t, AtRead), Read(t, true));
    DoomedBefore(With(s, t, AtSync), Sync(t, s.db.synced, false));
    DoomedBefore(s, CallFlush(t));
  }

  /** A request that is not synced although the synced index has reached its last record. */
  lemma StaleBreaks(s: State, r: Req)
    requires Placed(s) && Coherent(s) && !s.thread.Stopped? && 1 <= s.db.synced <= s.db.written
    requires r in s.elems && !s.elems[r].done && s.elems[r].desired <= s.db.synced && !s.db.OnDisk(s.elems[r].want)
    ensures Doomed(s)
  {
    var s1 := Settled(s);
    var s2 := s1.(lastDurable := s.db.synced);
    MovePlaced(s, s2);
    AnswerBreaks(s2, r);
    RaiseMark(s1);
    Settles(s);
  }

  lemma UnsafeEnqueue(s: State, r: Req, first: Index, last: Index)
    requires Inv(s) && r !in s.elems && !Harmless(s, Enqueue(r, first, last))
    ensures Doomed(Step(s, Enqueue(r, first, last)).value)
  {
    EnqueuePlaced(s, r, first, last);
    StaleBreaks(Step(s, Enqueue(r, first, last)).value, r);
  }

  // ---------- A harmful rollback ----------

  /** A record that is not synced although the durable mark has reached it is answered for at once. */
  lemma MarkedBreaks(s: State, i: Index)
    requires Placed(s) && Coherent(s) && !s.thread.Stopped? && FLUSH_THREAD !in s.flushers
    requires s.db.synced < i <= s.db.written && i <= s.lastDurable && i in s.db.versions && i !in s.db.disk
    ensures Doomed(s)
  {
    var r := Unused(s.elems.Keys);
    assert r !in s.elems;
    EnqueuePlaced(s, r, i, i);
    var s' := Step(s, Enqueue(r, i, i)).value;
    assert i in s'.elems[r].want;
    AnswerBreaks(s', r);
    DoomedBefore(s, Enqueue(r, i, i));
  }

  /** The durable mark is above what the database holds: the next record is below the mark. */
  lemma HighMarkBreaks(s: State)
    requires DbOk(s.db) && Placed(s) && Coherent(s) && !s.thread.Stopped? && FLUSH_THREAD !in s.flushers
    requires s.db.synced == s.db.written < s.lastDurable
    ensures Doomed(s)
  {
    var s' := Step(s, Write).value;
    MovePlaced(s, s');
    MarkedBreaks(s', s.db.written + 1);
    DoomedBefore(s, Write);
  }

  /** An answered call loses a record before it returns. */
  lemma RollbackUnderAnswer(s: State, to: Index, r: Req)
    requires Inv(s) && r in s.elems && s.elems[r].done && r !in s.returned && !Within(s.elems[r], to)
    ensures Doomed(s.(db := s.db.Rollback(to)))
  {
    RollbackKeeps(s.db, to, s.elems[r]);
    ReturnBreaks(s.(db := s.db.Rollback(to)), r);
  }

  lemma RollbackUnderMark(s: State, to: Index)
    requires Inv(s) && !s.thread.Stopped? && Mark(s) > to
    ensures Doomed(s.(db := s.db.Rollback(to)))
  {
    var s1 := s.(db := s.db.Rollback(to));
    RollbackOk(s.db, to);
    MovePlaced(s, Settled(s1));
    HighMarkBreaks(Settled(s1));
    Settles(s1);
  }

  /** Another call of `flush` read the synced index before the rollback and stores it afterwards. */
  lemma RollbackUnderStore(s: State, to: Index, t: Tid)
    requires Inv(s) && !s.thread.Stopped? && t in s.flushers && t != FLUSH_THREAD
    requires s.flushers[t].AtStore? && s.flushers[t].seen.Some? && s.flushers[t].seen.value > to
    ensures Doomed(s.(db := s.db.Rollback(to)))
  {
    var s1 := Settled(s.(db := s.db.Rollback(to)));
    RollbackOk(s.db, to);
    var s2 := Step(s1, Store(t)).value;
    MovePlaced(s, s2);
    HighMarkBreaks(s2);
    DoomedBefore(s1, Store(t));
    Settles(s.(db := s.db.Rollback(to)));
  }

  lemma HarmfulRollback(s: State, to: Index)
    requires Inv(s) && !Harmless(s, Rollback(to))
    ensures Doomed(Step(s, Rollback(to)).value)
  {
    if !AnsweredUpTo(s, to) {
      var r :| r in s.elems && s.elems[r].done && r !in s.returned && !Within(s.elems[r], to);
      RollbackUnderAnswer(s, to, r);
    } else if Mark(s) > to {
      RollbackUnderMark(s, to);
    } else {
      var t :| t in s.flushers && s.flushers[t].AtStore? && s.flushers[t].seen.Some? && s.flushers[t].seen.value > to;
      RollbackUnderStore(s, to, t);
    }
  }

  // ---------- Exactly the harmless events ----------

  /** As long as every promise stands: an event endangers none, whatever harmless events follow, if
      and only if it is harmless. */
  lemma Exact(s: State, ev: Event)
    requires Inv(s) && Step(s, ev).Some?
    ensures Harmless(s, ev) <==> forall end :: Reaches(Step(s, ev).value, end) ==> end.broken == {}
  {
    if Harmless(s, ev) {
      StepInv(s, ev);
      forall end | Reaches(Step(s, ev).value, end) ensures end.broken == {} {
        var evs :| Run(Step(s, ev).value, evs) == Some(end) && Careful(Step(s, ev).value, evs);
        CarefulInv(Step(s, ev).value, evs);
      }
    } else if ev.Enqueue? {
      UnsafeEnqueue(s, ev.r, ev.first, ev.last);
    } else {
      HarmfulRollback(s, ev.to);
    }
  }

  // ---------- Two runs that break a promise ----------

  /** The thread answers a batch of one request that its mark has reached. */
  lemma OneAnswered(s: State, r: Req, e: Elem)
    requires s.thread == Scanning([r], 0) && r in s.elems && s.elems[r] == e && !e.done && r !in s.returned
    requires FLUSH_THREAD !in s.flushers && e.desired <= s.lastDurable
    ensures var end := Run(s, [Scan, Scan, Answer, Return(r)]);
            end.Some? && (r in end.value.broken <==> r in s.broken || !s.db.OnDisk(e.want))
  {
    var s1 := s.(thread := Scanning([r], 1));
    var s2 := s.(thread := Answering([r], 0));
    var s3 := s.(thread := Answering([r], 1), elems := s.elems[r := e.(done := true)]);
    var s4 := Step(s3, Return(r)).value;
    assert Run(s4, []) == Some(s4);
    First(s3, Return(r), s4, [], s4);
    First(s2, Answer, s3, [Return(r)], s4);
    First(s1, Scan, s2, [Answer, Return(r)], s4);
    First(s, Scan, s1, [Scan, Answer, Return(r)], s4);
  }

  /** An idle thread whose mark has reached the batch answers it without a sync. */
  lemma AnsweredAtOnce(s: State, r: Req, first: Index, last: Index)
    requires s.thread.Idle? && s.queue == [] && r !in s.elems && r !in s.returned
    requires FLUSH_THREAD !in s.flushers && last <= s.lastDurable
    ensures var end := Run(s, [Enqueue(r, first, last), Take, Scan, Scan, Answer, Return(r)]);
            end.Some? && (r in end.value.broken <==> r in s.broken || !s.db.OnDisk(s.db.Records(first, last)))
  {
    var e := Elem(last, s.db.Records(first, last), false);
    var s1 := s.(elems := s.elems[r := e], queue := [r]);
    var s2 := s1.(queue := [], thread := Scanning([r], 0));
    assert s.queue + [r] == [r];
    OneAnswered(s2, r, e);
    var end := Run(s2, [Scan, Scan, Answer, Return(r)]).value;
    First(s1, Take, s2, [Scan, Scan, Answer, Return(r)], end);
    First(s, Enqueue(r, first, last), s1, [Take, Scan, Scan, Answer, Return(r)], end);
  }

  lemma {:induction false} RunThen(s: State, a: seq<Event>, b: seq<Event>)
    requires Run(s, a).Some?
    ensures Run(s, a + b) == Run(Run(s, a).value, b)
    decreases |a|
  {
    if a == [] {
      assert a + b == b;
    } else {
      assert (a + b)[1..] == a[1..] + b;
      RunThen(Step(s, a[0]).value, a[1..], b);
    }
  }

  /** A call of `flush` that succeeds undisturbed makes all that is written durable. */
  lemma UndisturbedFlush(s: State, t: Tid)
    requires t !in s.flushers && t != FLUSH_THREAD && 1 <= s.db.written && s.db.synced <= s.db.written
    ensures Run(s, [CallFlush(t), Sync(t, s.db.written, true), Read(t, true), Store(t)])
         == Some(s.(db := s.db.Sync(s.db.written), lastDurable := s.db.written))
  {
    var to := s.db.written;
    var synced := s.(db := s.db.Sync(to));
    var end := synced.(lastDurable := to);
    WithSteps(synced, t);
    First(With(synced, t, AtStore(Some(to))), Store(t), end, [], end);
    First(With(synced, t, AtRead), Read(t, true), With(synced, t, AtStore(Some(to))), [Store(t)], end);
    assert s.flushers[t := AtSync][t := AtRead] == s.flushers[t := AtRead];
    First(With(s, t, AtSync), Sync(t, to, true), With(synced, t, AtRead), [Read(t, true), Store(t)], end);
    First(s, CallFlush(t), With(s, t, AtSync), [Sync(t, to, true), Read(t, true), Store(t)], end);
  }

  /** One record is appended and a call of `flush` brings it to disk. */
  const APPEND_AND_FLUSH: seq<Event> := [Write, CallFlush(1), Sync(1, 1, true), Read(1, true), Store(1)]

  const FLUSHED := INITIAL.(db := Db(1, map[1 := 0], 1, 1, map[1 := 0]), lastDurable := 1)

  lemma Flushed()
    ensures Run(INITIAL, APPEND_AND_FLUSH) == Some(FLUSHED)
  {
    var s := INITIAL.(db := Db(1, map[1 := 0], 1, 0, map[]));
    UndisturbedFlush(s, 1);
    assert s.db.Sync(1).disk == map[1 := 0];
    First(INITIAL, Write, s, [CallFlush(1), Sync(1, 1, true), Read(1, true), Store(1)], FLUSHED);
  }

  lemma OneMore(evs: seq<Event>, s: State, ev: Event, s': State)
    requires Run(INITIAL, evs) == Some(s) && Step(s, ev) == Some(s')
    ensures Run(INITIAL, evs + [ev]) == Some(s')
  {
    RunThen(INITIAL, evs, [ev]);
    First(s, ev, s', [], s');
  }

  /** The batch that holds the record at index 1 is announced, and answered. */
  const ANNOUNCE: seq<Event> := [Enqueue(2, 1, 1), Take, Scan, Scan, Answer, Return(2)]

  lemma Announced(evs: seq<Event>, s: State)
    requires Run(INITIAL, evs) == Some(s) && s.thread.Idle? && s.queue == [] && s.elems == map[] && s.returned == {}
    requires FLUSH_THREAD !in s.flushers && 1 <= s.lastDurable && !s.db.OnDisk(s.db.Records(1, 1))
    ensures Run(INITIAL, evs + ANNOUNCE).Some? && 2 in Run(INITIAL, evs + ANNOUNCE).value.broken
  {
    RunThen(INITIAL, evs, ANNOUNCE);
    AnsweredAtOnce(s, 2, 1, 1);
  }

  /** The flushed record is replaced and its batch announced: the call returns though only the old
      record is on disk. */
  lemma OverwriteBreaksThePromise()
    ensures var end := Run(INITIAL, APPEND_AND_FLUSH + [Overwrite(1)] + ANNOUNCE);
            end.Some? && 2 in end.value.broken
  {
    Flushed();
    var s := FLUSHED.(db := Db(1, map[1 := 1], 2, 1, map[1 := 0]));
    assert map[1 := 0][1 := 1] == map[1 := 1];
    OneMore(APPEND_AND_FLUSH, FLUSHED, Overwrite(1), s);
    assert 1 in s.db.Records(1, 1);
    Announced(APPEND_AND_FLUSH + [Overwrite(1)], s);
  }

  /** The flushed record is rolled back, another one takes its place and its batch is announced: the
      call returns though nothing is on disk. */
  lemma RollbackBreaksThePromise()
    ensures var end := Run(INITIAL, APPEND_AND_FLUSH + [Rollback(0)] + [Write] + ANNOUNCE);
            end.Some? && 2 in end.value.broken
  {
    Flushed();
    var s1 := FLUSHED.(db := Db(0, map[], 1, 0, map[]));
    var s2 := FLUSHED.(db := Db(1, map[1 := 1], 2, 0, map[]));
    assert FLUSHED.db.Rollback(0) == s1.db;
    OneMore(APPEND_AND_FLUSH, FLUSHED, Rollback(0), s1);
    OneMore(APPEND_AND_FLUSH + [Rollback(0)], s1, Write, s2);
    assert 1 in s2.db.Records(1, 1);
    Announced(APPEND_AND_FLUSH + [Rollback(0)] + [Write], s2);
  }
}
