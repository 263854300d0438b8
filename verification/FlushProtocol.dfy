/** The durability protocol of the database-backed log store: callers of `end_of_append_batch`
    queue a request and wait, a flush thread takes the queue in batches, and anyone may call
    `flush` at any time. The state machine has one event per atomic step. Every record carries the
    number of the write that put it there, so that an overwritten record can be told from the one
    on disk.
 */
module FlushProtocol {
  import opened Options

  type Req = nat
  type Tid = nat
  type Index = nat
  type Version = nat

  // ---------- The database ----------

  /** The records up to index `written`, and what of them is on disk. `synced` is the largest index
      that was synced, which is all that the database tells about its disk. */
  datatype Db = Db(written: Index, versions: map<Index, Version>, clock: Version, synced: Index,
                   disk: map<Index, Version>)
  {
    /** Writes a record, over an older one if there is one. */
    function Put(i: Index): Db {
      this.(written := Max(written, i), versions := versions[i := clock], clock := clock + 1)
    }

    /** Brings every record up to `to` to disk. */
    function Sync(to: Index): Db {
      this.(synced := to,
            disk := map i | i in versions && (i <= to || i in disk) :: if i <= to then versions[i] else disk[i])
    }

    function Rollback(to: Index): Db {
      Db(Min(written, to), map i | i in versions && i <= to :: versions[i], clock,
         Min(synced, to), map i | i in disk && i <= to :: disk[i])
    }

    /** The wanted records, or later ones at their indices, are on disk. */
    predicate OnDisk(want: map<Index, Version>) {
      forall i :: i in want ==> i in disk && disk[i] >= want[i]
    }

    /** The records of a batch as they are now. */
    function Records(first: Index, last: Index): map<Index, Version> {
      map i | i in versions && first <= i <= last :: versions[i]
    }
  }

  function Min(a: nat, b: nat): nat {
    if a < b then a else b
  }

  function Max(a: nat, b: nat): nat {
    if a < b then b else a
  }

  // ---------- The protocol ----------

  /** A request to make a batch durable: the index of its last record, which is what the flush thread
      looks at, and the records it is about. */
  datatype Elem = Elem(desired: Index, want: map<Index, Version>, done: bool)

  /** Where a call of `flush` is: before the sync, before it asks what was synced, or before it
      stores the answer, if there is one to store. */
  datatype FlushPc = AtSync | AtRead | AtStore(seen: Option<Index>)

  datatype Thread =
    | Idle
    | Scanning(batch: seq<Req>, i: nat)
    | Flushing(batch: seq<Req>)
    | Answering(batch: seq<Req>, i: nat)
    | Stopped

  /** The caller id under which the flush thread itself calls `flush`. */
  const FLUSH_THREAD: Tid := 0

  /** `returned` are the calls of `end_of_append_batch` that have returned, `broken` those among them
      that returned with a record of theirs not on disk. */
  datatype State = State(
    db: Db,
    lastDurable: Index,
    elems: map<Req, Elem>,
    queue: seq<Req>,
    thread: Thread,
    flushers: map<Tid, FlushPc>,
    returned: set<Req>,
    broken: set<Req>)

  const INITIAL := State(Db(0, map[], 0, 0, map[]), 0, map[], [], Idle, map[], {}, {})

  datatype Event =
    | Write
    | Overwrite(i: Index)
    | Rollback(to: Index)
    | Enqueue(r: Req, first: Index, last: Index)
    | Return(r: Req)
    | Take
    | Scan
    | Resume
    | Answer
    | Stop
    | CallFlush(t: Tid)
    | Sync(t: Tid, to: Index, ok: bool)
    | Read(t: Tid, ok: bool)
    | Store(t: Tid)

  /** One step of a call of `flush`. A sync reaches any index from the last one synced to the last one
      written, or fails; its status is not looked at. */
  function FlushStep(s: State, ev: Event): Option<State> {
    match ev
    case CallFlush(t) =>
      if t == FLUSH_THREAD || t in s.flushers then None
      else Some(s.(flushers := s.flushers[t := AtSync]))
    case Sync(t, to, ok) =>
      if t in s.flushers && s.flushers[t].AtSync? && s.db.synced <= to <= s.db.written then
        Some(s.(db := if ok then s.db.Sync(to) else s.db, flushers := s.flushers[t := AtRead]))
      else None
    case Read(t, ok) =>
      if t in s.flushers && s.flushers[t].AtRead? then
        Some(s.(flushers := s.flushers[t := AtStore(if ok && s.db.synced != 0 then Some(s.db.synced) else None)]))
      else None
    case Store(t) =>
      if t in s.flushers && s.flushers[t].AtStore? then
        var seen := s.flushers[t].seen;
        var s' := s.(flushers := s.flushers - {t});
        Some(if seen.Some? then s'.(lastDurable := seen.value) else s')
      else None
    case _ => None
  }

  /** One step of the flush thread. */
  function ThreadStep(s: State, ev: Event): Option<State> {
    match (ev, s.thread)
    case (Take, Idle) =>
      Some(if s.queue == [] then s else s.(queue := [], thread := Scanning(s.queue, 0)))
    case (Stop, Idle) => Some(s.(thread := Stopped))
    case (Scan, Scanning(batch, i)) =>
      if i >= |batch| then Some(s.(thread := Answering(batch, 0)))
      else if batch[i] !in s.elems || FLUSH_THREAD in s.flushers then None
      else if s.elems[batch[i]].desired > s.lastDurable then
        Some(s.(thread := Flushing(batch), flushers := s.flushers[FLUSH_THREAD := AtSync]))
      else Some(s.(thread := Scanning(batch, i + 1)))
    case (Resume, Flushing(batch)) =>
      if FLUSH_THREAD in s.flushers then None else Some(s.(thread := Answering(batch, 0)))
    case (Answer, Answering(batch, i)) =>
      if i >= |batch| then Some(s.(thread := Idle))
      else if batch[i] !in s.elems then None
      else
        var r, s' := batch[i], s.(thread := Answering(batch, i + 1));
        Some(if s.elems[r].desired <= s.lastDurable then s'.(elems := s.elems[r := s.elems[r].(done := true)])
             else s'.(queue := s.queue + [r]))
    case _ => None
  }

  function Step(s: State, ev: Event): Option<State> {
    match ev
    case Write => Some(s.(db := s.db.Put(s.db.written + 1)))
    case Overwrite(i) => if 1 <= i <= s.db.written then Some(s.(db := s.db.Put(i))) else None
    case Rollback(to) => Some(s.(db := s.db.Rollback(to)))
    case Enqueue(r, first, last) =>
      if r in s.elems then None
      else Some(s.(elems := s.elems[r := Elem(last, s.db.Records(first, last), false)], queue := s.queue + [r]))
    case Return(r) =>
      if r in s.elems && s.elems[r].done && r !in s.returned then
        Some(s.(returned := s.returned + {r},
                broken := if s.db.OnDisk(s.elems[r].want) then s.broken else s.broken + {r}))
      else None
    case Take => ThreadStep(s, ev)
    case Scan => ThreadStep(s, ev)
    case Resume => ThreadStep(s, ev)
    case Answer => ThreadStep(s, ev)
    case Stop => ThreadStep(s, ev)
    case _ => FlushStep(s, ev)
  }

  /** The state after a run, if every event was enabled. */
  function Run(s: State, evs: seq<Event>): Option<State>
    decreases |evs|
  {
    if evs == [] then Some(s)
    else if Step(s, evs[0]).None? then None
    else Run(Step(s, evs[0]).value, evs[1..])
  }

  // ---------- Every unfinished request is in exactly one place ----------

  /** The part of the current batch that is not answered yet. */
  function Batch(thread: Thread): seq<Req> {
    match thread
    case Scanning(batch, _) => batch
    case Flushing(batch) => batch
    case Answering(batch, i) => if i <= |batch| then batch[i..] else []
    case _ => []
  }

  function Pending(s: State): multiset<Req> {
    multiset(s.queue) + multiset(Batch(s.thread))
  }

  ghost predicate Placed(s: State) {
    && (forall r: Req :: Pending(s)[r] == if r in s.elems && !s.elems[r].done then 1 else 0)
    && forall r :: r in s.returned ==> r in s.elems && s.elems[r].done
  }

  /** Answering the head of the rest of a batch. */
  lemma BatchStep(batch: seq<Req>, i: nat)
    requires i < |batch|
    ensures multiset(batch[i..]) == multiset{batch[i]} + multiset(batch[i + 1..])
  {
    assert batch[i..] == [batch[i]] + batch[i + 1..];
  }

  /** A step that moves requests between the queue and the batch and finishes none. */
  lemma MovePlaced(s: State, s': State)
    requires Placed(s) && Pending(s') == Pending(s) && s'.elems == s.elems && s'.returned == s.returned
    ensures Placed(s')
  {
  }

  /** A step that adds an unfinished request. */
  lemma MorePlaced(s: State, s': State, r: Req, e: Elem)
    requires Placed(s) && r !in s.elems && !e.done && s'.elems == s.elems[r := e] && s'.returned == s.returned
    requires Pending(s') == Pending(s) + multiset{r}
    ensures Placed(s')
  {
  }

  lemma EnqueuePlaced(s: State, r: Req, first: Index, last: Index)
    requires Placed(s) && r !in s.elems
    ensures Placed(Step(s, Enqueue(r, first, last)).value)
  {
    var s' := Step(s, Enqueue(r, first, last)).value;
    assert s'.queue == s.queue + [r] && s'.thread == s.thread;
    MorePlaced(s, s', r, s'.elems[r]);
  }

  /** What an answer does to the batch. */
  lemma AnswerBatch(s: State)
    requires ThreadStep(s, Answer).Some? && s.thread.i < |s.thread.batch|
    ensures var r, s' := s.thread.batch[s.thread.i], ThreadStep(s, Answer).value;
            multiset(Batch(s.thread)) == multiset{r} + multiset(Batch(s'.thread))
  {
    var batch, i := s.thread.batch, s.thread.i;
    assert ThreadStep(s, Answer).value.thread == Answering(batch, i + 1);
    assert Batch(Answering(batch, i)) == batch[i..] && Batch(Answering(batch, i + 1)) == batch[i + 1..];
    BatchStep(batch, i);
  }

  lemma AnswerPlaced(s: State)
    requires Placed(s) && ThreadStep(s, Answer).Some?
    ensures Placed(ThreadStep(s, Answer).value)
  {
    var s' := ThreadStep(s, Answer).value;
    var batch, i := s.thread.batch, s.thread.i;
    if i >= |batch| {
      assert Batch(s.thread) == [];
      MovePlaced(s, s');
    } else {
      AnswerBatch(s);
      if s.elems[batch[i]].desired <= s.lastDurable {
        FinishPlaced(s, s', batch[i]);
      } else {
        MovePlaced(s, s');
      }
    }
  }

  lemma FinishPlaced(s: State, s': State, r: Req)
    requires Placed(s) && r in s.elems && Pending(s) == Pending(s') + multiset{r} && s'.returned == s.returned
    requires s'.elems == s.elems[r := s.elems[r].(done := true)]
    ensures Placed(s')
  {
    assert Pending(s)[r] == 1;
  }

  lemma TakePlaced(s: State)
    requires Placed(s) && s.thread.Idle?
    ensures Placed(ThreadStep(s, Take).value)
  {
    var s' := ThreadStep(s, Take).value;
    assert Pending(s') == Pending(s);
    MovePlaced(s, s');
  }

  /** The steps of the flush thread that leave its batch alone. */
  lemma ThreadPlaced(s: State, ev: Event)
    requires Placed(s) && (ev.Scan? || ev.Resume? || ev.Stop?) && ThreadStep(s, ev).Some?
    ensures Placed(ThreadStep(s, ev).value)
  {
    var s' := ThreadStep(s, ev).value;
    assert s'.queue == s.queue && Batch(s'.thread) == Batch(s.thread);
    MovePlaced(s, s');
  }

  /** A call of `flush` touches no request. */
  lemma FlushPlaced(s: State, ev: Event)
    requires Placed(s) && FlushStep(s, ev).Some?
    ensures Placed(FlushStep(s, ev).value)
  {
    var s' := FlushStep(s, ev).value;
    assert s'.queue == s.queue && s'.thread == s.thread;
    MovePlaced(s, s');
  }

  lemma StepPlaced(s: State, ev: Event)
    requires Placed(s) && Step(s, ev).Some?
    ensures Placed(Step(s, ev).value)
  {
    match ev
    case Enqueue(r, first, last) => EnqueuePlaced(s, r, first, last);
    case Answer => AnswerPlaced(s);
    case Write => MovePlaced(s, Step(s, ev).value);
    case Overwrite(_) => MovePlaced(s, Step(s, ev).value);
    case Rollback(_) => MovePlaced(s, Step(s, ev).value);
    case Return(r) => ReturnPlaced(s, r);
    case Take => TakePlaced(s);
    case Scan => ThreadPlaced(s, ev);
    case Resume => ThreadPlaced(s, ev);
    case Stop => ThreadPlaced(s, ev);
    case _ => FlushPlaced(s, ev);
  }

  lemma ReturnPlaced(s: State, r: Req)
    requires Placed(s) && Step(s, Return(r)).Some?
    ensures Placed(Step(s, Return(r)).value)
  {
    var s' := Step(s, Return(r)).value;
    assert Pending(s') == Pending(s);
  }

  lemma {:induction false} RunPlaced(s: State, evs: seq<Event>)
    requires Placed(s) && Run(s, evs).Some?
    ensures Placed(Run(s, evs).value)
    decreases |evs|
  {
    if evs != [] {
      StepPlaced(s, evs[0]);
      RunPlaced(Step(s, evs[0]).value, evs[1..]);
    }
  }

  /** Unrolling a run by hand, last event first. */
  lemma First(s: State, ev: Event, s': State, rest: seq<Event>, end: State)
    requires Step(s, ev) == Some(s') && Run(s', rest) == Some(end)
    ensures Run(s, [ev] + rest) == Some(end)
  {
    assert ([ev] + rest)[1..] == rest;
  }
}
