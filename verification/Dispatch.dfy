/** How an incoming Raft message gets to its server: the gRPC thread checks where it is meant to go,
    looks the group up and posts a task to one of two thread pools, whose workers run the step and
    send the response. The state machine has one event per atomic step.
 */
module Dispatch {
  import opened Options
  import opened MapSum

  type RpcId = nat
  type Group = nat
  type Address = nat
  type Worker = nat

  datatype MsgType = AppendEntries | InstallSnapshot | JoinCluster | OtherType(n: nat)

  predicate IsSlow(kind: MsgType) {
    kind == AppendEntries || kind == InstallSnapshot
  }

  /** A message; its group and the address it was meant for may fail to parse. */
  datatype Rpc = Rpc(group: Option<Group>, intended: Option<Address>, kind: MsgType)

  datatype Status = OK | INVALID_ARGUMENT | NOT_FOUND | CANCELLED

  datatype Answer = Answer(r: RpcId, status: Status)

  /** What the Raft server makes of a message: a reply, a refusal, or a runtime error. */
  datatype Outcome = Replied | Rejected | Threw

  /** Where a gRPC thread is with a message. */
  datatype Routing = ToJoin | ToLookup

  /** Where a worker is with a task: before it is counted, counted, or counted and answered. */
  datatype Stage = Picked | Counted | Answered

  datatype Job = Job(r: RpcId, stage: Stage)

  /** A thread pool: posted tasks, tasks that workers have picked up, and the active counter. */
  datatype Pool = Pool(queue: seq<RpcId>, jobs: map<Worker, Job>, active: int)

  datatype State = State(
    me: Address,
    servers: set<Group>,
    rpcs: map<RpcId, Rpc>,
    routing: map<RpcId, Routing>,
    raft: Pool,
    io: Pool,
    answers: seq<Answer>,
    reached: set<RpcId>)
  {
    function Respond(r: RpcId, status: Status): State {
      this.(answers := answers + [Answer(r, status)])
    }

    function PoolOf(slow: bool): Pool {
      if slow then io else raft
    }

    function WithPool(slow: bool, pool: Pool): State {
      if slow then this.(io := pool) else this.(raft := pool)
    }
  }

  datatype Event =
    | Arrive(r: RpcId, rpc: Rpc)
    | Join(r: RpcId, ok: bool)
    | Lookup(r: RpcId)
    | Pick(slow: bool, w: Worker)
    | Enter(slow: bool, w: Worker)
    | Execute(slow: bool, w: Worker, outcome: Outcome)
    | Leave(slow: bool, w: Worker)
    | AddGroup(g: Group)
    | RemoveGroup(g: Group)

  predicate WellAddressed(rpcs: map<RpcId, Rpc>, me: Address, r: RpcId) {
    r in rpcs && rpcs[r].group.Some? && rpcs[r].intended == Some(me)
  }

  /** The gRPC thread's part. */
  function StepRoute(s: State, ev: Event): Option<State> {
    match ev
    case Arrive(r, rpc) =>
      if r in s.rpcs then None
      else
        var s' := s.(rpcs := s.rpcs[r := rpc]);
        Some(if rpc.group.None? || rpc.intended.None? then s'.Respond(r, INVALID_ARGUMENT)
             else if rpc.intended.value != s.me then s'.Respond(r, INVALID_ARGUMENT)
             else s'.(routing := s.routing[r := if rpc.kind == JoinCluster then ToJoin else ToLookup]))
    case Join(r, ok) =>
      if r !in s.routing || r !in s.rpcs || s.rpcs[r].group.None? || s.routing[r] != ToJoin then None
      else
        var s' := s.(routing := s.routing[r := ToLookup]);
        Some(if ok then s'.(servers := s.servers + {s.rpcs[r].group.value}) else s')
    case Lookup(r) =>
      if r !in s.routing || r !in s.rpcs || s.rpcs[r].group.None? || s.routing[r] != ToLookup then None
      else
        var s' := s.(routing := s.routing - {r});
        if s.rpcs[r].group.value !in s.servers then Some(s'.Respond(r, NOT_FOUND))
        else
          var slow := IsSlow(s.rpcs[r].kind);
          Some(s'.WithPool(slow, s.PoolOf(slow).(queue := s.PoolOf(slow).queue + [r])))
    case _ => None
  }

  function StatusOf(outcome: Outcome): Status {
    match outcome
    case Replied => OK
    case Rejected => CANCELLED
    case Threw => NOT_FOUND
  }

  /** The steps of a worker, as they change its pool. */
  function PickedUp(pool: Pool, w: Worker): Pool
    requires pool.queue != []
  {
    pool.(queue := pool.queue[1..], jobs := pool.jobs[w := Job(pool.queue[0], Picked)])
  }

  function Entered(pool: Pool, w: Worker): Pool
    requires w in pool.jobs
  {
    pool.(jobs := pool.jobs[w := Job(pool.jobs[w].r, Counted)], active := pool.active + 1)
  }

  function Executed(pool: Pool, w: Worker): Pool
    requires w in pool.jobs
  {
    pool.(jobs := pool.jobs[w := Job(pool.jobs[w].r, Answered)])
  }

  function Left(pool: Pool, w: Worker): Pool {
    pool.(jobs := pool.jobs - {w}, active := pool.active - 1)
  }

  predicate At(pool: Pool, w: Worker, stage: Stage) {
    w in pool.jobs && pool.jobs[w].stage == stage
  }

  function StepPool(s: State, ev: Event): Option<State> {
    match ev
    case Pick(slow, w) =>
      var pool := s.PoolOf(slow);
      if w in pool.jobs || pool.queue == [] then None else Some(s.WithPool(slow, PickedUp(pool, w)))
    case Enter(slow, w) =>
      var pool := s.PoolOf(slow);
      if At(pool, w, Picked) then Some(s.WithPool(slow, Entered(pool, w))) else None
    case Execute(slow, w, outcome) =>
      var pool := s.PoolOf(slow);
      if At(pool, w, Counted) then
        var r := pool.jobs[w].r;
        Some(s.WithPool(slow, Executed(pool, w)).(reached := s.reached + {r}).Respond(r, StatusOf(outcome)))
      else None
    case Leave(slow, w) =>
      var pool := s.PoolOf(slow);
      if At(pool, w, Answered) then Some(s.WithPool(slow, Left(pool, w))) else None
    case _ => None
  }

  function Step(s: State, ev: Event): Option<State> {
    match ev
    case Arrive(_, _) => StepRoute(s, ev)
    case Join(_, _) => StepRoute(s, ev)
    case Lookup(_) => StepRoute(s, ev)
    case AddGroup(g) => Some(s.(servers := s.servers + {g}))
    case RemoveGroup(g) => Some(s.(servers := s.servers - {g}))
    case _ => StepPool(s, ev)
  }

  function Run(s: State, evs: seq<Event>): Option<State>
    decreases |evs|
  {
    if evs == [] then Some(s)
    else if Step(s, evs[0]).None? then None
    else Run(Step(s, evs[0]).value, evs[1..])
  }

  function Initial(me: Address): State {
    State(me, {}, map[], map[], Pool([], map[], 0), Pool([], map[], 0), [], {})
  }

  // ---------- The invariant ----------

  /** How many responses a message got. */
  function Responses(answers: seq<Answer>, r: RpcId): nat {
    if answers == [] then 0
    else Responses(answers[..|answers| - 1], r) + if answers[|answers| - 1].r == r then 1 else 0
  }

  function Unanswered(r: RpcId): Job -> nat {
    (job: Job) => if job.r == r && job.stage != Answered then 1 else 0
  }

  function Counts(): Job -> nat {
    (job: Job) => if job.stage == Picked then 0 else 1
  }

  /** How often a message is in a pool, waiting or running and unanswered. */
  ghost function InPool(pool: Pool, r: RpcId): nat {
    multiset(pool.queue)[r] + Sum(pool.jobs, Unanswered(r))
  }

  function InRouting(routing: map<RpcId, Routing>, r: RpcId): nat {
    if r in routing then 1 else 0
  }

  /** In how many places a message is: answered, with the gRPC thread, queued or running. */
  ghost function Places(s: State, r: RpcId): nat {
    Responses(s.answers, r) + InRouting(s.routing, r) + InPool(s.raft, r) + InPool(s.io, r)
  }

  /** A message a pool may hold: meant for this service, and slow exactly in the I/O pool. */
  predicate Fits(rpcs: map<RpcId, Rpc>, me: Address, slow: bool, r: RpcId) {
    WellAddressed(rpcs, me, r) && IsSlow(rpcs[r].kind) == slow
  }

  ghost predicate PoolOk(rpcs: map<RpcId, Rpc>, me: Address, pool: Pool, slow: bool) {
    && (forall r :: r in pool.queue ==> Fits(rpcs, me, slow, r))
    && (forall w :: w in pool.jobs ==> Fits(rpcs, me, slow, pool.jobs[w].r))
    && pool.active == Sum(pool.jobs, Counts())
  }

  ghost predicate Checked(s: State) {
    && (forall r :: r in s.routing ==> WellAddressed(s.rpcs, s.me, r))
    && (forall r :: r in s.routing && s.routing[r] == ToJoin ==> s.rpcs[r].kind == JoinCluster)
    && (forall r :: r in s.reached ==> WellAddressed(s.rpcs, s.me, r))
    && PoolOk(s.rpcs, s.me, s.raft, false) && PoolOk(s.rpcs, s.me, s.io, true)
  }

  /** Every received message is in exactly one place. */
  ghost predicate Placed(s: State) {
    forall r: RpcId :: Places(s, r) == if r in s.rpcs then 1 else 0
  }

  // ---------- What the steps do to one pool ----------

  lemma RespondOnce(answers: seq<Answer>, a: Answer, r: RpcId)
    ensures Responses(answers + [a], r) == Responses(answers, r) + if a.r == r then 1 else 0
  {
    assert (answers + [a])[..|answers|] == answers;
  }

  lemma Posted(pool: Pool, r: RpcId, q: RpcId)
    ensures InPool(pool.(queue := pool.queue + [r]), q) == InPool(pool, q) + if q == r then 1 else 0
  {
  }

  lemma PickKeeps(pool: Pool, w: Worker, q: RpcId)
    requires w !in pool.jobs && pool.queue != []
    ensures InPool(PickedUp(pool, w), q) == InPool(pool, q)
  {
    SumSet(pool.jobs, w, Job(pool.queue[0], Picked), Unanswered(q));
    assert pool.queue == [pool.queue[0]] + pool.queue[1..];
  }

  lemma PickOk(rpcs: map<RpcId, Rpc>, me: Address, pool: Pool, slow: bool, w: Worker)
    requires PoolOk(rpcs, me, pool, slow) && w !in pool.jobs && pool.queue != []
    ensures PoolOk(rpcs, me, PickedUp(pool, w), slow)
  {
    SumSet(pool.jobs, w, Job(pool.queue[0], Picked), Counts());
  }

  lemma EnterKeeps(pool: Pool, w: Worker, q: RpcId)
    requires At(pool, w, Picked)
    ensures InPool(Entered(pool, w), q) == InPool(pool, q)
  {
    SumSet(pool.jobs, w, Job(pool.jobs[w].r, Counted), Unanswered(q));
  }

  lemma EnterOk(rpcs: map<RpcId, Rpc>, me: Address, pool: Pool, slow: bool, w: Worker)
    requires PoolOk(rpcs, me, pool, slow) && At(pool, w, Picked)
    ensures PoolOk(rpcs, me, Entered(pool, w), slow)
  {
    SumSet(pool.jobs, w, Job(pool.jobs[w].r, Counted), Counts());
  }

  lemma ExecuteKeeps(pool: Pool, w: Worker, q: RpcId)
    requires At(pool, w, Counted)
    ensures InPool(Executed(pool, w), q) + (if pool.jobs[w].r == q then 1 else 0) == InPool(pool, q)
  {
    SumSet(pool.jobs, w, Job(pool.jobs[w].r, Answered), Unanswered(q));
  }

  lemma ExecuteOk(rpcs: map<RpcId, Rpc>, me: Address, pool: Pool, slow: bool, w: Worker)
    requires PoolOk(rpcs, me, pool, slow) && At(pool, w, Counted)
    ensures PoolOk(rpcs, me, Executed(pool, w), slow)
  {
    SumSet(pool.jobs, w, Job(pool.jobs[w].r, Answered), Counts());
  }

  lemma LeaveKeeps(pool: Pool, w: Worker, q: RpcId)
    requires At(pool, w, Answered)
    ensures InPool(Left(pool, w), q) == InPool(pool, q)
  {
    SumRemove(pool.jobs, w, Unanswered(q));
  }

  lemma LeaveOk(rpcs: map<RpcId, Rpc>, me: Address, pool: Pool, slow: bool, w: Worker)
    requires PoolOk(rpcs, me, pool, slow) && At(pool, w, Answered)
    ensures PoolOk(rpcs, me, Left(pool, w), slow)
  {
    SumRemove(pool.jobs, w, Counts());
  }

  // ---------- The steps ----------

  /** What has to be shown of a worker's step: its pool changes, with at most one message leaving it
      for an answer. */
  ghost predicate PoolMoves(s: State, s': State, slow: bool, done: Option<Answer>) {
    && s' == s.WithPool(slow, s'.PoolOf(slow)).(answers := s'.answers, reached := s'.reached)
    && PoolOk(s.rpcs, s.me, s'.PoolOf(slow), slow)
    && s'.answers == (if done.Some? then s.answers + [done.value] else s.answers)
    && s'.reached == (if done.Some? then s.reached + {done.value.r} else s.reached)
    && (done.Some? ==> WellAddressed(s.rpcs, s.me, done.value.r))
    && forall q: RpcId ::
         InPool(s'.PoolOf(slow), q) + (if done.Some? && done.value.r == q then 1 else 0) == InPool(s.PoolOf(slow), q)
  }

  lemma PoolMovesAt(s: State, s': State, slow: bool, done: Option<Answer>, q: RpcId)
    requires PoolMoves(s, s', slow, done)
    ensures Places(s', q) == Places(s, q)
  {
    if done.Some? {
      RespondOnce(s.answers, done.value, q);
    }
  }

  lemma PoolMovesInv(s: State, s': State, slow: bool, done: Option<Answer>)
    requires Checked(s) && Placed(s) && PoolMoves(s, s', slow, done)
    ensures Checked(s') && Placed(s')
  {
    forall q: RpcId ensures Places(s', q) == if q in s'.rpcs then 1 else 0 {
      PoolMovesAt(s, s', slow, done, q);
    }
  }

  lemma PickInv(s: State, slow: bool, w: Worker)
    requires Checked(s) && StepPool(s, Pick(slow, w)).Some?
    ensures PoolMoves(s, StepPool(s, Pick(slow, w)).value, slow, None)
  {
    var pool := s.PoolOf(slow);
    PickOk(s.rpcs, s.me, pool, slow, w);
    forall q: RpcId ensures InPool(PickedUp(pool, w), q) == InPool(pool, q) {
      PickKeeps(pool, w, q);
    }
  }

  lemma EnterInv(s: State, slow: bool, w: Worker)
    requires Checked(s) && StepPool(s, Enter(slow, w)).Some?
    ensures PoolMoves(s, StepPool(s, Enter(slow, w)).value, slow, None)
  {
    var pool := s.PoolOf(slow);
    EnterOk(s.rpcs, s.me, pool, slow, w);
    forall q: RpcId ensures InPool(Entered(pool, w), q) == InPool(pool, q) {
      EnterKeeps(pool, w, q);
    }
  }

  lemma ExecuteInv(s: State, slow: bool, w: Worker, outcome: Outcome)
    requires Checked(s) && StepPool(s, Execute(slow, w, outcome)).Some?
    ensures PoolMoves(s, StepPool(s, Execute(slow, w, outcome)).value, slow,
                      Some(Answer(s.PoolOf(slow).jobs[w].r, StatusOf(outcome))))
    ensures StepPool(s, Execute(slow, w, outcome)).value.answers ==
            s.answers + [Answer(s.PoolOf(slow).jobs[w].r, match outcome case Replied => OK
                                                                        case Rejected => CANCELLED
                                                                        case Threw => NOT_FOUND)]
  {
    var pool := s.PoolOf(slow);
    ExecuteOk(s.rpcs, s.me, pool, slow, w);
    forall q: RpcId ensures InPool(Executed(pool, w), q) + (if pool.jobs[w].r == q then 1 else 0) == InPool(pool, q) {
      ExecuteKeeps(pool, w, q);
    }
  }

  lemma LeaveInv(s: State, slow: bool, w: Worker)
    requires Checked(s) && StepPool(s, Leave(slow, w)).Some?
    ensures PoolMoves(s, StepPool(s, Leave(slow, w)).value, slow, None)
  {
    var pool := s.PoolOf(slow);
    LeaveOk(s.rpcs, s.me, pool, slow, w);
    forall q: RpcId ensures InPool(Left(pool, w), q) == InPool(pool, q) {
      LeaveKeeps(pool, w, q);
    }
  }

  /** More messages do no harm to what a pool holds. */
  lemma MoreRpcs(rpcs: map<RpcId, Rpc>, me: Address, pool: Pool, slow: bool, r: RpcId, rpc: Rpc)
    requires PoolOk(rpcs, me, pool, slow) && r !in rpcs
    ensures PoolOk(rpcs[r := rpc], me, pool, slow)
  {
  }

  /** A message that parses and is meant for this service goes on, by way of a join only if it asks for one;
      any other is answered as invalid. */
  lemma ArriveMeans(s: State, r: RpcId, rpc: Rpc)
    requires r !in s.rpcs
    ensures StepRoute(s, Arrive(r, rpc)).Some?
    ensures var s' := StepRoute(s, Arrive(r, rpc)).value;
            if rpc.group.Some? && rpc.intended == Some(s.me)
            then s'.answers == s.answers && r in s'.routing && (s'.routing[r] == ToJoin <==> rpc.kind == JoinCluster)
            else s'.answers == s.answers + [Answer(r, INVALID_ARGUMENT)] && s'.routing == s.routing
  {
  }

  lemma ArriveChecked(s: State, r: RpcId, rpc: Rpc)
    requires Checked(s) && r !in s.rpcs
    ensures Checked(StepRoute(s, Arrive(r, rpc)).value)
  {
    MoreRpcs(s.rpcs, s.me, s.raft, false, r, rpc);
    MoreRpcs(s.rpcs, s.me, s.io, true, r, rpc);
    ArriveMeans(s, r, rpc);
  }

  lemma ArriveInv(s: State, r: RpcId, rpc: Rpc)
    requires Checked(s) && Placed(s) && r !in s.rpcs
    ensures Checked(StepRoute(s, Arrive(r, rpc)).value) && Placed(StepRoute(s, Arrive(r, rpc)).value)
  {
    ArriveChecked(s, r, rpc);
    ArrivePlaced(s, r, rpc);
  }

  lemma ArrivePlaced(s: State, r: RpcId, rpc: Rpc)
    requires Placed(s) && r !in s.rpcs
    ensures Placed(StepRoute(s, Arrive(r, rpc)).value)
  {
    var s' := StepRoute(s, Arrive(r, rpc)).value;
    assert Places(s, r) == 0;
    forall q: RpcId ensures Places(s', q) == if q in s'.rpcs then 1 else 0 {
      ArriveAt(s, r, rpc, q);
      assert Places(s, q) == if q in s.rpcs then 1 else 0;
    }
  }

  lemma ArriveAt(s: State, r: RpcId, rpc: Rpc, q: RpcId)
    requires r !in s.rpcs && r !in s.routing
    ensures Places(StepRoute(s, Arrive(r, rpc)).value, q) == Places(s, q) + if q == r then 1 else 0
  {
    RespondOnce(s.answers, Answer(r, INVALID_ARGUMENT), q);
  }

  lemma JoinPlaced(s: State, r: RpcId, servers: set<Group>)
    requires Placed(s) && r in s.routing
    ensures Placed(s.(routing := s.routing[r := ToLookup], servers := servers))
  {
    var s' := s.(routing := s.routing[r := ToLookup], servers := servers);
    forall q: RpcId ensures Places(s', q) == if q in s'.rpcs then 1 else 0 {
      assert Places(s, q) == if q in s.rpcs then 1 else 0;
    }
  }

  /** A join makes the group known, or leaves the groups alone when it fails; the message is looked up
      next in either case. */
  lemma JoinInv(s: State, r: RpcId, ok: bool)
    requires Checked(s) && Placed(s) && StepRoute(s, Join(r, ok)).Some?
    ensures var s' := StepRoute(s, Join(r, ok)).value;
            && Checked(s') && Placed(s') && StepRoute(s', Lookup(r)).Some?
            && (if ok then s.rpcs[r].group.value in s'.servers else s'.servers == s.servers)
            && (forall g :: g != s.rpcs[r].group.value ==> (g in s'.servers <==> g in s.servers))
  {
    JoinPlaced(s, r, StepRoute(s, Join(r, ok)).value.servers);
  }

  lemma PostOk(rpcs: map<RpcId, Rpc>, me: Address, pool: Pool, slow: bool, r: RpcId)
    requires PoolOk(rpcs, me, pool, slow) && Fits(rpcs, me, slow, r)
    ensures PoolOk(rpcs, me, pool.(queue := pool.queue + [r]), slow)
  {
  }

  lemma RefusedAt(s: State, r: RpcId, q: RpcId)
    requires r in s.routing
    ensures Places(s.(routing := s.routing - {r}).Respond(r, NOT_FOUND), q) == Places(s, q)
  {
    RespondOnce(s.answers, Answer(r, NOT_FOUND), q);
  }

  lemma PostedAt(s: State, r: RpcId, slow: bool, pool: Pool, q: RpcId)
    requires r in s.routing && pool == s.PoolOf(slow).(queue := s.PoolOf(slow).queue + [r])
    ensures Places(s.(routing := s.routing - {r}).WithPool(slow, pool), q) == Places(s, q)
  {
    Posted(s.PoolOf(slow), r, q);
  }

  /** A lookup answers the message or moves it to one of the pools. */
  lemma LookupAt(s: State, r: RpcId, q: RpcId)
    requires StepRoute(s, Lookup(r)).Some?
    ensures Places(StepRoute(s, Lookup(r)).value, q) == Places(s, q)
  {
    if s.rpcs[r].group.value !in s.servers {
      RefusedAt(s, r, q);
    } else {
      var slow := IsSlow(s.rpcs[r].kind);
      PostedAt(s, r, slow, s.PoolOf(slow).(queue := s.PoolOf(slow).queue + [r]), q);
    }
  }

  lemma LookupPlaced(s: State, r: RpcId)
    requires Placed(s) && StepRoute(s, Lookup(r)).Some?
    ensures Placed(StepRoute(s, Lookup(r)).value)
  {
    var s' := StepRoute(s, Lookup(r)).value;
    forall q: RpcId ensures Places(s', q) == if q in s'.rpcs then 1 else 0 {
      LookupAt(s, r, q);
      assert Places(s, q) == if q in s.rpcs then 1 else 0;
    }
  }

  /** The message leaves the gRPC thread: for an answer exactly when its group is not known, and for the
      pool of its kind otherwise. */
  lemma LookupDecides(s: State, r: RpcId)
    requires Placed(s) && StepRoute(s, Lookup(r)).Some?
    ensures var s' := StepRoute(s, Lookup(r)).value;
            var kind := s.rpcs[r].kind;
            if s.rpcs[r].group.value !in s.servers
            then Answer(r, NOT_FOUND) in s'.answers && Responses(s'.answers, r) == 1 &&
                 InPool(s'.raft, r) == InPool(s'.io, r) == 0
            else
              && Responses(s'.answers, r) == 0
              && (if kind == AppendEntries || kind == InstallSnapshot
                  then InPool(s'.io, r) == 1 && InPool(s'.raft, r) == 0
                  else InPool(s'.raft, r) == 1 && InPool(s'.io, r) == 0)
  {
    assert Places(s, r) == 1 && InRouting(s.routing, r) == 1;
    if s.rpcs[r].group.value !in s.servers {
      RespondOnce(s.answers, Answer(r, NOT_FOUND), r);
    } else {
      Posted(s.PoolOf(IsSlow(s.rpcs[r].kind)), r, r);
    }
  }

  lemma LookupChecked(s: State, r: RpcId)
    requires Checked(s) && StepRoute(s, Lookup(r)).Some?
    ensures Checked(StepRoute(s, Lookup(r)).value)
  {
    var slow := IsSlow(s.rpcs[r].kind);
    PostOk(s.rpcs, s.me, s.PoolOf(slow), slow, r);
  }

  lemma WorkerInv(s: State, ev: Event)
    requires Checked(s) && Placed(s) && StepPool(s, ev).Some?
    ensures Checked(StepPool(s, ev).value) && Placed(StepPool(s, ev).value)
  {
    var s' := StepPool(s, ev).value;
    match ev
    case Pick(slow, w) =>
      PickInv(s, slow, w);
      PoolMovesInv(s, s', slow, None);
    case Enter(slow, w) =>
      EnterInv(s, slow, w);
      PoolMovesInv(s, s', slow, None);
    case Execute(slow, w, outcome) =>
      ExecuteInv(s, slow, w, outcome);
      PoolMovesInv(s, s', slow, Some(Answer(s.PoolOf(slow).jobs[w].r, StatusOf(outcome))));
    case Leave(slow, w) =>
      LeaveInv(s, slow, w);
      PoolMovesInv(s, s', slow, None);
  }

  lemma StepInv(s: State, ev: Event)
    requires Checked(s) && Placed(s) && Step(s, ev).Some?
    ensures Checked(Step(s, ev).value) && Placed(Step(s, ev).value)
  {
    match ev
    case Arrive(r, rpc) => ArriveInv(s, r, rpc);
    case Join(r, ok) => JoinInv(s, r, ok);
    case Lookup(r) =>
      LookupPlaced(s, r);
      LookupChecked(s, r);
    case AddGroup(_) => SamePlaces(s, Step(s, ev).value);
    case RemoveGroup(_) => SamePlaces(s, Step(s, ev).value);
    case _ => WorkerInv(s, ev);
  }

  /** Groups come and go without touching any message. */
  lemma SamePlaces(s: State, s': State)
    requires Checked(s) && Placed(s) && s' == s.(servers := s'.servers)
    ensures Checked(s') && Placed(s')
  {
    forall q: RpcId ensures Places(s', q) == if q in s'.rpcs then 1 else 0 {
      assert Places(s, q) == if q in s.rpcs then 1 else 0;
    }
  }

  /** Exactly the messages that do not parse or are meant for another service are answered as
      invalid, and only messages that were received are answered. */
  ghost predicate Judged(s: State) {
    forall a :: a in s.answers ==>
      a.r in s.rpcs && (a.status == INVALID_ARGUMENT <==> !WellAddressed(s.rpcs, s.me, a.r))
  }

  lemma RouteJudged(s: State, ev: Event)
    requires Checked(s) && Judged(s) && StepRoute(s, ev).Some?
    ensures Judged(StepRoute(s, ev).value)
  {
  }

  /** An executed task was well addressed, and is not answered as invalid. */
  lemma ExecuteJudged(s: State, slow: bool, w: Worker, outcome: Outcome)
    requires PoolOk(s.rpcs, s.me, s.PoolOf(slow), slow) && Judged(s) && At(s.PoolOf(slow), w, Counted)
    ensures Judged(StepPool(s, Execute(slow, w, outcome)).value)
  {
    var r := s.PoolOf(slow).jobs[w].r;
    assert Fits(s.rpcs, s.me, slow, r);
    assert StepPool(s, Execute(slow, w, outcome)).value.answers == s.answers + [Answer(r, StatusOf(outcome))];
  }

  lemma PoolJudged(s: State, ev: Event)
    requires Checked(s) && Judged(s) && StepPool(s, ev).Some?
    ensures Judged(StepPool(s, ev).value)
  {
    if ev.Execute? {
      ExecuteJudged(s, ev.slow, ev.w, ev.outcome);
    } else {
      assert StepPool(s, ev).value.answers == s.answers;
    }
  }

  lemma StepJudged(s: State, ev: Event)
    requires Checked(s) && Judged(s) && Step(s, ev).Some?
    ensures Judged(Step(s, ev).value)
  {
    if ev.Arrive? || ev.Join? || ev.Lookup? {
      RouteJudged(s, ev);
    } else if !ev.AddGroup? && !ev.RemoveGroup? {
      PoolJudged(s, ev);
    }
  }

  ghost predicate Inv(s: State) {
    Checked(s) && Placed(s) && Judged(s)
  }

  lemma {:induction false} RunInv(s: State, evs: seq<Event>)
    requires Inv(s) && Run(s, evs).Some?
    ensures Inv(Run(s, evs).value)
    decreases |evs|
  {
    if evs != [] {
      StepInv(s, evs[0]);
      StepJudged(s, evs[0]);
      RunInv(Step(s, evs[0]).value, evs[1..]);
    }
  }

  /** A group becomes known only by being added or by a join request for it that was meant for this service. */
  lemma GroupsGrow(s: State, ev: Event, g: Group)
    requires Checked(s) && Step(s, ev).Some? && g !in s.servers && g in Step(s, ev).value.servers
    ensures ev == AddGroup(g) ||
            (ev.Join? && ev.ok && ev.r in s.rpcs && s.rpcs[ev.r] == Rpc(Some(g), Some(s.me), JoinCluster))
  {
  }

  /** The workers whose task is counted as active. */
  function CountedBy(pool: Pool): set<Worker> {
    set w | w in pool.jobs && pool.jobs[w].stage != Picked
  }

  predicate Drained(s: State) {
    s.routing == map[] && s.raft.queue == s.io.queue == [] && s.raft.jobs == s.io.jobs == map[]
  }

  /** In every interleaving: a message gets at most one response, and until then is in exactly one
      place, so once nothing is left to do every message has got exactly one; each active counter is
      the number of counted tasks of its pool; a message meant for another service never reaches a
      Raft server and is the only kind answered as invalid; and the messages that append entries or install a
      snapshot are in the I/O pool, and they alone. */
  lemma Dispatched(me: Address, evs: seq<Event>, r: RpcId)
    requires Run(Initial(me), evs).Some?
    ensures var s := Run(Initial(me), evs).value;
            && Responses(s.answers, r) + InRouting(s.routing, r) + InPool(s.raft, r) + InPool(s.io, r)
               == (if r in s.rpcs then 1 else 0)
            && (Drained(s) ==> Responses(s.answers, r) == if r in s.rpcs then 1 else 0)
            && s.raft.active == |CountedBy(s.raft)| && s.io.active == |CountedBy(s.io)|
            && (r in s.reached ==> WellAddressed(s.rpcs, s.me, r))
            && (forall a :: a in s.answers && a.r == r ==>
                  (a.status == INVALID_ARGUMENT <==> !WellAddressed(s.rpcs, s.me, r)))
            && (forall q :: q in s.raft.queue ==> q in s.rpcs && s.rpcs[q].kind !in {AppendEntries, InstallSnapshot})
            && (forall w :: w in s.raft.jobs ==>
                  s.raft.jobs[w].r in s.rpcs && s.rpcs[s.raft.jobs[w].r].kind !in {AppendEntries, InstallSnapshot})
            && (forall q :: q in s.io.queue ==> q in s.rpcs && s.rpcs[q].kind in {AppendEntries, InstallSnapshot})
            && (forall w :: w in s.io.jobs ==>
                  s.io.jobs[w].r in s.rpcs && s.rpcs[s.io.jobs[w].r].kind in {AppendEntries, InstallSnapshot})
  {
    RunInv(Initial(me), evs);
    var s := Run(Initial(me), evs).value;
    assert Places(s, r) == if r in s.rpcs then 1 else 0;
    SumCounts(s.raft.jobs, Counts(), CountedBy(s.raft));
    SumCounts(s.io.jobs, Counts(), CountedBy(s.io));
  }
}
