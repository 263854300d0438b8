/** The flush thread can always go on. Whatever state it is in, its own steps answer every request
    whose last record is written, when its syncs succeed, and every request at or below the durable
    mark even when they fail.
 */
module FlushProgress {
  import opened Options
  import opened FlushProtocol
  import opened FlushPromise

  /** The flush thread's next step if nobody else moves, with a disk that works or one that fails. */
  function Next(s: State, works: bool): Event
    requires !s.thread.Stopped?
  {
    match s.thread
    case Idle => Take
    case Scanning(_, _) => Scan
    case Answering(_, _) => Answer
    case Flushing(_) =>
      if FLUSH_THREAD !in s.flushers then Resume
      else
        match s.flushers[FLUSH_THREAD]
        case AtSync => Sync(FLUSH_THREAD, if works then s.db.written else s.db.synced, works)
        case AtRead => Read(FLUSH_THREAD, works)
        case AtStore(_) => Store(FLUSH_THREAD)
  }

  /** A run of the flush thread alone. */
  predicate Solo(s: State, evs: seq<Event>, works: bool)
    requires Run(s, evs).Some?
    decreases |evs|
  {
    evs == [] ||
    (!s.thread.Stopped? && evs[0] == Next(s, works) && Solo(Step(s, evs[0]).value, evs[1..], works))
  }

  /** The durable mark after the thread's own call of `flush`. */
  function Future(s: State, works: bool): Index {
    if FLUSH_THREAD !in s.flushers then s.lastDurable
    else
      match s.flushers[FLUSH_THREAD]
      case AtSync => if works && s.db.written != 0 then s.db.written else s.lastDurable
      case AtRead => if works && s.db.synced != 0 then s.db.synced else s.lastDurable
      case AtStore(seen) => if seen.Some? then seen.value else s.lastDurable
  }

  // ---------- How far a request is from its answer ----------

  /** The request is unanswered, and high enough a mark can be had. */
  predicate Waits(s: State, r: Req, works: bool) {
    && Coherent(s) && !s.thread.Stopped? && s.db.synced <= s.db.written
    && r in s.elems && !s.elems[r].done
    && s.elems[r].desired <= if works then s.db.written else Mark(s)
  }

  ghost predicate Due(s: State, r: Req, works: bool) {
    Placed(s) && Waits(s, r, works)
  }

  /** The request is in the batch and will be answered in this round. */
  predicate InHand(s: State, r: Req, works: bool)
    requires r in s.elems
  {
    var last := s.elems[r].desired;
    match s.thread
    case Scanning(batch, i) =>
      i <= |batch| && r in batch && (last <= s.lastDurable || (works && last <= s.db.written && r in batch[i..]))
    case Flushing(batch) => r in batch && last <= Future(s, works)
    case Answering(batch, i) => i <= |batch| && r in batch[i..] && last <= s.lastDurable
    case _ => false
  }

  /** Requests that will be put back into the queue are farthest away. */
  function Level(s: State, r: Req, works: bool): nat
    requires r in s.elems
  {
    if InHand(s, r, works) then 0 else if r in s.queue then 1 else 2
  }

  function Phase(thread: Thread): nat {
    match thread
    case Scanning(_, _) => 3
    case Flushing(_) => 2
    case Answering(_, _) => 1
    case _ => 0
  }

  /** The steps left in the phase. */
  function Left(s: State): nat {
    match s.thread
    case Scanning(batch, i) => if i <= |batch| then |batch| - i else 0
    case Answering(batch, i) => if i <= |batch| then |batch| - i else 0
    case Flushing(_) =>
      if FLUSH_THREAD !in s.flushers then 0
      else if s.flushers[FLUSH_THREAD].AtSync? then 3
      else if s.flushers[FLUSH_THREAD].AtRead? then 2
      else 1
    case _ => 0
  }

  predicate Closer(s: State, s': State, r: Req, works: bool)
    requires r in s.elems && r in s'.elems
  {
    || Level(s', r, works) < Level(s, r, works)
    || (Level(s', r, works) == Level(s, r, works) &&
        (Phase(s'.thread) < Phase(s.thread) || (Phase(s'.thread) == Phase(s.thread) && Left(s') < Left(s))))
  }

  /** What a step of the thread leaves alone. */
  predicate Apart(s: State, s': State, r: Req, works: bool)
    requires r in s.elems
  {
    && s'.returned == s.returned && s'.broken == s.broken && s'.db.written == s.db.written
    && (works || s'.db == s.db)
    && r in s'.elems && s'.elems[r] == s.elems[r].(done := s'.elems[r].done)
  }

  // ---------- One step ----------

  lemma Where(s: State, r: Req)
    requires Placed(s) && Coherent(s) && r in s.elems && !s.elems[r].done
    ensures (r in s.queue && r !in Batch(s.thread)) || (r !in s.queue && r in Batch(s.thread))
  {
    assert Pending(s)[r] == 1;
    assert r in s.queue <==> multiset(s.queue)[r] > 0;
    assert r in Batch(s.thread) <==> multiset(Batch(s.thread))[r] > 0;
  }

  lemma KnownMember(s: State, r: Req)
    requires Placed(s) && r in Batch(s.thread)
    ensures r in s.elems
  {
    assert multiset(Batch(s.thread))[r] > 0;
    assert Pending(s)[r] > 0;
  }

  predicate OneStep(s: State, s': State, r: Req, works: bool)
    requires r in s.elems
  {
    && Apart(s, s', r, works)
    && (s'.elems[r].done || (Waits(s', r, works) && Closer(s, s', r, works)))
  }

  lemma TakeNext(s: State, r: Req, works: bool)
    requires Waits(s, r, works) && s.thread.Idle? && r in s.queue
    ensures OneStep(s, ThreadStep(s, Take).value, r, works)
  {
  }

  lemma ScanNext(s: State, r: Req, works: bool)
    requires Waits(s, r, works) && s.thread.Scanning?
    requires s.thread.i < |s.thread.batch| ==> s.thread.batch[s.thread.i] in s.elems
    ensures ThreadStep(s, Scan).Some? && OneStep(s, ThreadStep(s, Scan).value, r, works)
  {
    var batch, i := s.thread.batch, s.thread.i;
    assert i < |batch| ==> batch[i..] == [batch[i]] + batch[i + 1..];
  }

  lemma ResumeNext(s: State, r: Req, works: bool)
    requires Waits(s, r, works) && s.thread.Flushing? && FLUSH_THREAD !in s.flushers
    ensures ThreadStep(s, Resume).Some? && OneStep(s, ThreadStep(s, Resume).value, r, works)
  {
  }

  lemma SyncNext(s: State, r: Req, works: bool)
    requires Waits(s, r, works) && FLUSH_THREAD in s.flushers && s.flushers[FLUSH_THREAD].AtSync?
    ensures FlushStep(s, Next(s, works)).Some? && OneStep(s, FlushStep(s, Next(s, works)).value, r, works)
  {
  }

  lemma ReadNext(s: State, r: Req, works: bool)
    requires Waits(s, r, works) && FLUSH_THREAD in s.flushers && s.flushers[FLUSH_THREAD].AtRead?
    ensures FlushStep(s, Next(s, works)).Some? && OneStep(s, FlushStep(s, Next(s, works)).value, r, works)
  {
  }

  lemma StoreNext(s: State, r: Req, works: bool)
    requires Waits(s, r, works) && FLUSH_THREAD in s.flushers && s.flushers[FLUSH_THREAD].AtStore?
    ensures FlushStep(s, Next(s, works)).Some? && OneStep(s, FlushStep(s, Next(s, works)).value, r, works)
  {
  }

  /** The end of a round. */
  lemma EndNext(s: State, r: Req, works: bool)
    requires Waits(s, r, works) && s.thread.Answering? && s.thread.i == |s.thread.batch| && r in s.queue
    ensures ThreadStep(s, Answer).Some? && OneStep(s, ThreadStep(s, Answer).value, r, works)
  {
  }

  lemma AnswerNext(s: State, r: Req, works: bool)
    requires Waits(s, r, works) && s.thread.Answering? && s.thread.i < |s.thread.batch|
    requires s.thread.batch[s.thread.i] in s.elems && (s.thread.batch[s.thread.i] == r ==> r !in s.queue)
    ensures ThreadStep(s, Answer).Some? && OneStep(s, ThreadStep(s, Answer).value, r, works)
  {
    var batch, i := s.thread.batch, s.thread.i;
    assert batch[i..] == [batch[i]] + batch[i + 1..];
  }

  lemma FlushNext(s: State, r: Req, works: bool)
    requires Waits(s, r, works) && s.thread.Flushing?
    ensures Step(s, Next(s, works)).Some? && OneStep(s, Step(s, Next(s, works)).value, r, works)
  {
    if FLUSH_THREAD !in s.flushers {
      ResumeNext(s, r, works);
    } else if s.flushers[FLUSH_THREAD].AtSync? {
      SyncNext(s, r, works);
    } else if s.flushers[FLUSH_THREAD].AtRead? {
      ReadNext(s, r, works);
    } else {
      StoreNext(s, r, works);
    }
  }

  lemma BatchNext(s: State, r: Req, works: bool)
    requires Due(s, r, works) && (s.thread.Scanning? || s.thread.Answering?)
    ensures Step(s, Next(s, works)).Some? && OneStep(s, Step(s, Next(s, works)).value, r, works)
  {
    var batch, i := s.thread.batch, s.thread.i;
    Where(s, r);
    if i < |batch| {
      assert s.thread.Answering? ==> batch[i] == batch[i..][0];
      KnownMember(s, batch[i]);
    }
    if s.thread.Scanning? {
      ScanNext(s, r, works);
    } else if i < |batch| {
      AnswerNext(s, r, works);
    } else {
      EndNext(s, r, works);
    }
  }

  /** Every step of the thread answers the request or brings its answer closer. */
  lemma NextCloser(s: State, r: Req, works: bool)
    requires Due(s, r, works)
    ensures Step(s, Next(s, works)).Some? && Placed(Step(s, Next(s, works)).value)
    ensures OneStep(s, Step(s, Next(s, works)).value, r, works)
  {
    if s.thread.Idle? {
      Where(s, r);
      TakeNext(s, r, works);
    } else if s.thread.Flushing? {
      FlushNext(s, r, works);
    } else {
      BatchNext(s, r, works);
    }
    StepPlaced(s, Next(s, works));
  }

  // ---------- Whole runs ----------

  /** From any state the thread alone answers any request that is due. */
  lemma {:induction false} Served(s: State, r: Req, works: bool) returns (evs: seq<Event>, end: State)
    requires Due(s, r, works)
    ensures Run(s, evs) == Some(end) && Solo(s, evs, works)
    ensures Apart(s, end, r, works) && end.elems[r].done
    decreases Level(s, r, works), Phase(s.thread), Left(s)
  {
    NextCloser(s, r, works);
    var ev := Next(s, works);
    var s' := Step(s, ev).value;
    if s'.elems[r].done {
      evs, end := [ev], s';
    } else {
      var rest;
      rest, end := Served(s', r, works);
      evs := [ev] + rest;
      First(s, ev, s', rest, end);
      assert evs[1..] == rest;
    }
  }

  lemma {:induction false} SoloCareful(s: State, evs: seq<Event>, works: bool)
    requires Run(s, evs).Some? && Solo(s, evs, works)
    ensures Careful(s, evs)
    decreases |evs|
  {
    if evs != [] {
      SoloCareful(Step(s, evs[0]).value, evs[1..], works);
    }
  }

  /** When every promise stands so far, the thread alone keeps any other: it syncs and answers every
      request whose records are written, whoever else was interrupted and wherever the thread was. */
  lemma Progress(s: State, r: Req) returns (evs: seq<Event>, end: State)
    requires Inv(s) && !s.thread.Stopped? && r in s.elems && !s.elems[r].done && s.elems[r].desired <= s.db.written
    ensures Run(s, evs) == Some(end) && Solo(s, evs, true)
    ensures r in end.elems && end.elems[r] == s.elems[r].(done := true) && end.db.OnDisk(s.elems[r].want)
  {
    evs, end := Served(s, r, true);
    SoloCareful(s, evs, true);
    CarefulInv(s, evs);
    assert Kept(end, r) && r !in s.returned;
  }

  // ---------- Returning ----------

  /** A call returns once it is answered and if it has not, and its promise is broken exactly if a record of
      its batch, or a later one in its place, is not on disk then. */
  lemma ReturnMeans(s: State, r: Req)
    ensures Step(s, Return(r)).Some? <==> r in s.elems && s.elems[r].done && r !in s.returned
    ensures Step(s, Return(r)).Some? ==>
              var s' := Step(s, Return(r)).value;
              && s'.(returned := s.returned, broken := s.broken) == s && s'.returned == s.returned + {r}
              && (r in s'.broken <==>
                    || r in s.broken
                    || exists i :: i in s.elems[r].want && (i !in s.db.disk || s.db.disk[i] < s.elems[r].want[i]))
              && forall q :: q != r ==> (q in s'.broken <==> q in s.broken)
  {
  }

  /** No call returns twice. */
  lemma {:induction false} ReturnsOnce(s: State, evs: seq<Event>, r: Req)
    requires r in s.returned && Run(s, evs).Some?
    ensures r in Run(s, evs).value.returned && Return(r) !in evs
    decreases |evs|
  {
    if evs != [] {
      assert r in Step(s, evs[0]).value.returned && evs[0] != Return(r);
      ReturnsOnce(Step(s, evs[0]).value, evs[1..], r);
      assert evs == [evs[0]] + evs[1..];
    }
  }

  // ---------- Stopping ----------

  lemma StopMeans(s: State)
    ensures Step(s, Stop).Some? <==> s.thread.Idle?
    ensures Step(s, Stop).Some? ==> Step(s, Stop).value.thread.Stopped? && Step(s, Stop).value.(thread := Idle) == s
  {
  }

  /** Once the thread has stopped, a request that is not answered never is. */
  lemma {:induction false} NeverServed(s: State, evs: seq<Event>, r: Req)
    requires s.thread.Stopped? && r in s.elems && Run(s, evs).Some?
    ensures var end := Run(s, evs).value; end.thread.Stopped? && r in end.elems && end.elems[r] == s.elems[r]
    decreases |evs|
  {
    if evs != [] {
      var s' := Step(s, evs[0]).value;
      assert s'.thread.Stopped? && r in s'.elems && s'.elems[r] == s.elems[r];
      NeverServed(s', evs[1..], r);
    }
  }
}
