/** Every message can be answered: from any state the gRPC threads and one worker in each pool finish all
    there is to do.
 */
module DispatchProgress {
  import opened Options
  import opened MapSum
  import opened Dispatch

  // ---------- Groups ----------

  /** Adding and removing a group can be done at any time, and touch that group alone. */
  lemma GroupsMean(s: State, g: Group, h: Group)
    ensures Step(s, AddGroup(g)).Some? && Step(s, RemoveGroup(g)).Some?
    ensures h in Step(s, AddGroup(g)).value.servers <==> h == g || h in s.servers
    ensures h in Step(s, RemoveGroup(g)).value.servers <==> h != g && h in s.servers
    ensures Step(s, AddGroup(g)).value.(servers := s.servers) == s
    ensures Step(s, RemoveGroup(g)).value.(servers := s.servers) == s
  {
  }

  // ---------- What is left to do ----------

  function RouteWeight(): Routing -> nat {
    (at: Routing) => if at == ToJoin then 6 else 5
  }

  function JobWeight(): Job -> nat {
    (job: Job) => match job.stage case Picked => 3 case Counted => 2 case Answered => 1
  }

  ghost function PoolWork(pool: Pool): nat {
    4 * |pool.queue| + Sum(pool.jobs, JobWeight())
  }

  /** How many steps are left to do at most. */
  ghost function Work(s: State): nat {
    Sum(s.routing, RouteWeight()) + PoolWork(s.raft) + PoolWork(s.io)
  }

  // ---------- There is always a next step ----------

  lemma JoinNext(s: State, r: RpcId)
    requires WellAddressed(s.rpcs, s.me, r) && r in s.routing && s.routing[r] == ToJoin
    ensures Step(s, Join(r, true)).Some? && Work(Step(s, Join(r, true)).value) < Work(s)
  {
    SumSet(s.routing, r, ToLookup, RouteWeight());
  }

  lemma LookupNext(s: State, r: RpcId)
    requires WellAddressed(s.rpcs, s.me, r) && r in s.routing && s.routing[r] == ToLookup
    ensures Step(s, Lookup(r)).Some? && Work(Step(s, Lookup(r)).value) < Work(s)
  {
    SumRemove(s.routing, r, RouteWeight());
  }

  lemma RouteNext(s: State, r: RpcId) returns (ev: Event)
    requires Checked(s) && r in s.routing
    ensures !ev.Arrive? && Step(s, ev).Some? && Work(Step(s, ev).value) < Work(s)
  {
    assert WellAddressed(s.rpcs, s.me, r);
    if s.routing[r] == ToJoin {
      ev := Join(r, true);
      JoinNext(s, r);
    } else {
      ev := Lookup(r);
      LookupNext(s, r);
    }
  }

  /** A worker's next step with its task. */
  function JobEvent(slow: bool, w: Worker, stage: Stage): Event {
    match stage
    case Picked => Enter(slow, w)
    case Counted => Execute(slow, w, Replied)
    case Answered => Leave(slow, w)
  }

  lemma JobWork(pool: Pool, w: Worker)
    requires w in pool.jobs
    ensures At(pool, w, Picked) ==> PoolWork(Entered(pool, w)) < PoolWork(pool)
    ensures At(pool, w, Counted) ==> PoolWork(Executed(pool, w)) < PoolWork(pool)
    ensures PoolWork(Left(pool, w)) < PoolWork(pool)
  {
    SumSet(pool.jobs, w, Job(pool.jobs[w].r, Counted), JobWeight());
    SumSet(pool.jobs, w, Job(pool.jobs[w].r, Answered), JobWeight());
    SumRemove(pool.jobs, w, JobWeight());
  }

  lemma JobNext(s: State, slow: bool, w: Worker)
    requires w in s.PoolOf(slow).jobs
    ensures var ev := JobEvent(slow, w, s.PoolOf(slow).jobs[w].stage);
            Step(s, ev).Some? && Work(Step(s, ev).value) < Work(s)
  {
    JobWork(s.PoolOf(slow), w);
  }

  /** A worker that has no task takes the one that was posted first. */
  lemma PickNext(s: State, slow: bool, w: Worker)
    requires s.PoolOf(slow).queue != [] && w !in s.PoolOf(slow).jobs
    ensures Step(s, Pick(slow, w)).Some? && Work(Step(s, Pick(slow, w)).value) < Work(s)
    ensures var pool := Step(s, Pick(slow, w)).value.PoolOf(slow);
            w in pool.jobs && [pool.jobs[w].r] + pool.queue == s.PoolOf(slow).queue
  {
    var pool := s.PoolOf(slow);
    SumSet(pool.jobs, w, Job(pool.queue[0], Picked), JobWeight());
  }

  lemma PoolNext(s: State, slow: bool) returns (ev: Event)
    requires s.PoolOf(slow).queue != [] || s.PoolOf(slow).jobs != map[]
    ensures !ev.Arrive? && Step(s, ev).Some? && Work(Step(s, ev).value) < Work(s)
  {
    var jobs := s.PoolOf(slow).jobs;
    if w :| w in jobs {
      ev := JobEvent(slow, w, jobs[w].stage);
      JobNext(s, slow, w);
    } else {
      ev := Pick(slow, 0);
      PickNext(s, slow, 0);
    }
  }

  lemma NextStep(s: State) returns (ev: Event)
    requires Checked(s) && !Drained(s)
    ensures !ev.Arrive? && Step(s, ev).Some? && Work(Step(s, ev).value) < Work(s)
  {
    if r :| r in s.routing {
      ev := RouteNext(s, r);
    } else if s.raft.queue != [] || s.raft.jobs != map[] {
      ev := PoolNext(s, false);
    } else {
      ev := PoolNext(s, true);
    }
  }

  // ---------- All is answered in the end ----------

  /** Only an arrival brings a message. */
  lemma SameMessages(s: State, ev: Event)
    requires Step(s, ev).Some? && !ev.Arrive?
    ensures Step(s, ev).value.rpcs == s.rpcs && Step(s, ev).value.me == s.me
  {
  }

  /** From every state that keeps the books, steps without arrivals lead to one in which nothing is left to
      do, so that exactly the messages received by then are answered, each once. */
  lemma {:induction false} Drains(s: State) returns (evs: seq<Event>, end: State)
    requires Inv(s)
    ensures Run(s, evs) == Some(end) && Inv(end) && Drained(end) && end.rpcs == s.rpcs
    ensures forall k :: 0 <= k < |evs| ==> !evs[k].Arrive?
    decreases Work(s)
  {
    if Drained(s) {
      evs, end := [], s;
    } else {
      var ev := NextStep(s);
      var s' := Step(s, ev).value;
      StepInv(s, ev);
      StepJudged(s, ev);
      SameMessages(s, ev);
      var rest;
      rest, end := Drains(s');
      evs := [ev] + rest;
      assert evs[1..] == rest;
    }
  }

  /** After any run, every message that was received can still be answered, and all of them together. */
  lemma AllAnswered(me: Address, evs: seq<Event>) returns (more: seq<Event>, end: State)
    requires Run(Initial(me), evs).Some?
    ensures Run(Run(Initial(me), evs).value, more) == Some(end)
    ensures forall k :: 0 <= k < |more| ==> !more[k].Arrive?
    ensures forall r: RpcId :: Responses(end.answers, r) == if r in Run(Initial(me), evs).value.rpcs then 1 else 0
  {
    RunInv(Initial(me), evs);
    more, end := Drains(Run(Initial(me), evs).value);
    forall r: RpcId ensures Responses(end.answers, r) == if r in end.rpcs then 1 else 0 {
      assert Places(end, r) == if r in end.rpcs then 1 else 0;
    }
  }
}
