/** The latency collector: a map from names to items behind one atomic slot. A call that finds
    its name adds its sample to the item; otherwise it builds a copy of the map with a new item and
    tries to swap it in. Threads interleave in any way. Maps are told apart by their address. A map may be
    freed once it is not current and no thread holds it, which is what `SharedPointer.Sound` proves of
    the pointers to it, and its address may then be used again. Adding a sample to an item is one step.
 */
module LatencyCollector {
  import opened MapSum

  type Name = string
  type MapId = nat
  type Item = nat
  type Tid = nat

  const MAX_RETRIES: nat := 16

  /** Where a call is; `failed` counts its failed swaps. */
  datatype Pc =
    | Idle
    | Load(name: Name, v: nat, failed: nat)
    | Found(name: Name, v: nat, item: Item)
    | Build(name: Name, v: nat, failed: nat, cur: MapId)
    | Swap(name: Name, v: nat, failed: nat, cur: MapId, fork: MapId, item: Item)
    | Undo(name: Name, v: nat, failed: nat, fork: MapId, item: Item)

  /** `calls`, `added` and `dropped` are the samples of all calls, of the calls whose sample was
      added, and of the calls that ran out of retries; `published` are the maps that were ever
      current and are not freed. */
  datatype State = State(
    maps: map<MapId, map<Name, Item>>,
    latest: MapId,
    published: set<MapId>,
    items: map<Item, multiset<nat>>,
    next: nat,
    pcs: map<Tid, Pc>,
    calls: multiset<(Name, nat)>,
    added: multiset<(Name, nat)>,
    dropped: multiset<(Name, nat)>)
  {
    function At(t: Tid, pc: Pc): State {
      this.(pcs := pcs[t := pc])
    }

    /** The current map. */
    function Current(): map<Name, Item> {
      if latest in maps then maps[latest] else map[]
    }
  }

  datatype Outcome = Blocked | Fault | Went(s: State)

  datatype Event =
    | Call(t: Tid, name: Name, v: nat)
    | Advance(t: Tid, spurious: bool, address: MapId)
    | Free(m: MapId)

  function StepFound(s: State, t: Tid): Outcome
    requires t in s.pcs && s.pcs[t].Found?
  {
    var Found(name, v, item) := s.pcs[t];
    if item !in s.items then Fault
    else
      var items' := s.items[item := s.items[item] + multiset{v}];
      Went(s.(items := items', added := s.added + multiset{(name, v)}).At(t, Idle))
  }

  /** The copy with a new item, which already holds the sample. It may be anywhere no map is. */
  function StepBuild(s: State, t: Tid, fork: MapId): Outcome
    requires t in s.pcs && s.pcs[t].Build?
  {
    var Build(name, v, failed, cur) := s.pcs[t];
    if cur !in s.maps then Fault
    else if fork in s.maps then Blocked
    else
      var item: Item := s.next;
      var copy: map<Name, Item> := s.maps[cur][name := item];
      Went(s.(maps := s.maps[fork := copy], items := s.items[item := multiset{v}],
              next := s.next + 1).At(t, Swap(name, v, failed, cur, fork, item)))
  }

  /** The atomic exchange of the current map, which may also fail for no reason. */
  function StepSwap(s: State, t: Tid, spurious: bool): Outcome
    requires t in s.pcs && s.pcs[t].Swap?
  {
    var Swap(name, v, failed, cur, fork, item) := s.pcs[t];
    if s.latest == cur && !spurious then
      Went(s.(latest := fork, published := s.published + {fork}, added := s.added + multiset{(name, v)}).At(t, Idle))
    else Went(s.At(t, Undo(name, v, failed + 1, fork, item)))
  }

  /** Deletes the item again, by its name; after the last retry the sample is given up. */
  function StepUndo(s: State, t: Tid): Outcome
    requires t in s.pcs && s.pcs[t].Undo?
  {
    var Undo(name, v, failed, fork, item) := s.pcs[t];
    if fork !in s.maps || name !in s.maps[fork] || s.maps[fork][name] !in s.items then Fault
    else
      var s' := s.(items := s.items - {s.maps[fork][name]}, maps := s.maps[fork := s.maps[fork] - {name}]);
      Went(if failed <= MAX_RETRIES then s'.At(t, Load(name, v, failed))
           else s'.(dropped := s.dropped + multiset{(name, v)}).At(t, Idle))
  }

  /** A thread has a pointer to the map. */
  predicate HasMap(pc: Pc, m: MapId) {
    || ((pc.Build? || pc.Swap?) && pc.cur == m)
    || ((pc.Swap? || pc.Undo?) && pc.fork == m)
  }

  /** The last pointer to a map goes, and with it the map; its items stay. */
  function StepFree(s: State, m: MapId): Outcome {
    if m !in s.maps || m == s.latest || exists t :: t in s.pcs && HasMap(s.pcs[t], m) then Blocked
    else Went(s.(maps := s.maps - {m}, published := s.published - {m}))
  }

  function StepOf(s: State, t: Tid, spurious: bool, address: MapId): Outcome
    requires t in s.pcs
  {
    match s.pcs[t]
    case Idle => Blocked
    case Load(name, v, failed) =>
      if s.latest !in s.maps then Fault
      else if name in s.maps[s.latest] then Went(s.At(t, Found(name, v, s.maps[s.latest][name])))
      else Went(s.At(t, Build(name, v, failed, s.latest)))
    case Found(_, _, _) => StepFound(s, t)
    case Build(_, _, _, _) => StepBuild(s, t, address)
    case Swap(_, _, _, _, _, _) => StepSwap(s, t, spurious)
    case Undo(_, _, _, _, _) => StepUndo(s, t)
  }

  function Step(s: State, ev: Event): Outcome {
    match ev
    case Call(t, name, v) =>
      if t in s.pcs && s.pcs[t].Idle? then Went(s.(calls := s.calls + multiset{(name, v)}).At(t, Load(name, v, 0)))
      else Blocked
    case Advance(t, spurious, address) => if t in s.pcs then StepOf(s, t, spurious, address) else Blocked
    case Free(m) => StepFree(s, m)
  }

  function Run(s: State, evs: seq<Event>): Outcome
    decreases |evs|
  {
    if evs == [] then Went(s)
    else
      match Step(s, evs[0])
      case Went(s') => Run(s', evs[1..])
      case out => out
  }

  /** Any number of threads, and an empty current map. */
  function Initial(threads: set<Tid>): State {
    State(map[0 := map[]], 0, {0}, map[], 1, map t | t in threads :: Idle, multiset{}, multiset{}, multiset{})
  }

  // ---------- The invariant ----------

  /** Every entry of `a` is in `b`. */
  ghost predicate Within(a: map<Name, Item>, b: map<Name, Item>) {
    forall n :: n in a ==> n in b && b[n] == a[n]
  }

  /** Every published map is part of the current one, whose items are alive and different. */
  ghost predicate Grown(s: State) {
    && s.latest in s.published
    && (forall m :: m in s.published ==> m in s.maps && Within(s.maps[m], s.Current()))
    && (forall n :: n in s.Current() ==> s.Current()[n] in s.items)
    && (forall n, n' :: n in s.Current() && n' in s.Current() && n != n' ==> s.Current()[n] != s.Current()[n'])
    && (forall i :: i in s.items ==> i < s.next)
  }

  /** A map and an item that only their maker can reach. */
  ghost predicate Own(s: State, fork: MapId, item: Item) {
    && fork in s.maps && fork !in s.published && item in s.items
    && forall n :: n in s.Current() ==> s.Current()[n] != item
  }

  ghost predicate Relies(s: State, pc: Pc) {
    match pc
    case Idle => true
    case Load(_, _, failed) => failed <= MAX_RETRIES
    case Found(name, _, item) => name in s.Current() && s.Current()[name] == item
    case Build(name, _, failed, cur) =>
      failed <= MAX_RETRIES && cur in s.published && cur in s.maps && name !in s.maps[cur]
    case Swap(name, v, failed, cur, fork, item) =>
      && failed <= MAX_RETRIES && cur in s.published && cur in s.maps && name !in s.maps[cur]
      && Own(s, fork, item) && s.items[item] == multiset{v} && s.maps[fork] == s.maps[cur][name := item]
    case Undo(name, _, failed, fork, item) =>
      failed <= MAX_RETRIES + 1 && Own(s, fork, item) && name in s.maps[fork] && s.maps[fork][name] == item
  }

  predicate Making(pc: Pc) {
    pc.Swap? || pc.Undo?
  }

  /** No two threads make the same map or item. */
  ghost predicate Apart(s: State, t: Tid, u: Tid)
    requires t in s.pcs && u in s.pcs
  {
    t != u && Making(s.pcs[t]) && Making(s.pcs[u]) ==> s.pcs[t].fork != s.pcs[u].fork && s.pcs[t].item != s.pcs[u].item
  }

  function Working(name: Name, v: nat): Pc -> nat {
    (pc: Pc) => PcWorks(pc, name, v)
  }

  /** A call in progress still owes its sample. */
  function PcWorks(pc: Pc, name: Name, v: nat): nat {
    if !pc.Idle? && pc.name == name && pc.v == v then 1 else 0
  }

  /** How often the sample `v` is recorded under `name` for everyone to see. */
  function Recorded(s: State, name: Name, v: nat): nat {
    if name in s.Current() && s.Current()[name] in s.items then s.items[s.Current()[name]][v] else 0
  }

  /** Each added sample is recorded once, and each call is added, dropped or in progress. */
  ghost predicate Balanced(s: State, name: Name, v: nat) {
    && Recorded(s, name, v) == s.added[(name, v)]
    && s.calls[(name, v)] == s.added[(name, v)] + s.dropped[(name, v)] + Sum(s.pcs, Working(name, v))
  }

  ghost predicate Inv(s: State) {
    && Grown(s)
    && (forall t :: t in s.pcs ==> Relies(s, s.pcs[t]))
    && (forall t, u :: t in s.pcs && u in s.pcs ==> Apart(s, t, u))
    && forall name, v: nat :: Balanced(s, name, v)
  }

  // ---------- The steps ----------

  /** The books after a step of `t`: what it owes goes into `added`, into `dropped` or on. */
  lemma CallBalance(s: State, s': State, t: Tid, name: Name, v: nat)
    requires Balanced(s, name, v) && t in s.pcs && t in s'.pcs && s'.pcs == s.pcs[t := s'.pcs[t]]
    requires Recorded(s', name, v) + s.added[(name, v)] == Recorded(s, name, v) + s'.added[(name, v)]
    requires s'.calls[(name, v)] + s.added[(name, v)] + s.dropped[(name, v)] + PcWorks(s.pcs[t], name, v)
          == s.calls[(name, v)] + s'.added[(name, v)] + s'.dropped[(name, v)] + PcWorks(s'.pcs[t], name, v)
    ensures Balanced(s', name, v)
  {
    SumSet(s.pcs, t, s'.pcs[t], Working(name, v));
  }

  /** A step that changes nothing but where a thread is. */
  lemma MoveInv(s: State, s': State, t: Tid)
    requires Inv(s) && t in s.pcs && t in s'.pcs
    requires s' == s.(calls := s'.calls, pcs := s.pcs[t := s'.pcs[t]]) && Relies(s, s'.pcs[t])
    requires Making(s'.pcs[t]) ==>
               Making(s.pcs[t]) && s'.pcs[t].fork == s.pcs[t].fork && s'.pcs[t].item == s.pcs[t].item
    requires forall name, v: nat ::
               s'.calls[(name, v)] + PcWorks(s.pcs[t], name, v) == s.calls[(name, v)] + PcWorks(s'.pcs[t], name, v)
    ensures Inv(s')
  {
    forall name, v: nat ensures Balanced(s', name, v) {
      CallBalance(s, s', t, name, v);
    }
    forall u | u in s'.pcs ensures Relies(s', s'.pcs[u]) {
      assert Relies(s, s'.pcs[u]);
    }
    forall u, u' | u in s'.pcs && u' in s'.pcs ensures Apart(s', u, u') {
      assert Apart(s, u, u');
    }
  }

  lemma FoundBalance(s: State, t: Tid)
    requires Inv(s) && t in s.pcs && s.pcs[t].Found?
    ensures StepFound(s, t).Went? && forall n, x: nat :: Balanced(StepFound(s, t).s, n, x)
  {
    assert Relies(s, s.pcs[t]);
    var s' := StepFound(s, t).s;
    forall n, x: nat ensures Balanced(s', n, x) {
      assert Balanced(s, n, x);
      CallBalance(s, s', t, n, x);
    }
  }

  lemma FoundInv(s: State, t: Tid)
    requires Inv(s) && t in s.pcs && s.pcs[t].Found?
    ensures StepFound(s, t).Went? && Inv(StepFound(s, t).s)
  {
    var Found(name, v, item) := s.pcs[t];
    assert Relies(s, s.pcs[t]);
    var s' := StepFound(s, t).s;
    FoundBalance(s, t);
    forall u | u in s'.pcs ensures Relies(s', s'.pcs[u]) {
      assert Relies(s, s.pcs[u]);
    }
    forall u, u' | u in s'.pcs && u' in s'.pcs ensures Apart(s', u, u') {
      assert Apart(s, u, u');
    }
  }

  lemma BuildBalance(s: State, t: Tid, fork: MapId)
    requires Inv(s) && t in s.pcs && s.pcs[t].Build? && fork !in s.maps
    ensures StepBuild(s, t, fork).Went? && forall n, x: nat :: Balanced(StepBuild(s, t, fork).s, n, x)
  {
    assert Relies(s, s.pcs[t]);
    var s' := StepBuild(s, t, fork).s;
    forall n, x: nat ensures Balanced(s', n, x) {
      assert Balanced(s, n, x);
      CallBalance(s, s', t, n, x);
    }
  }

  lemma BuildInv(s: State, t: Tid, fork: MapId)
    requires Inv(s) && t in s.pcs && s.pcs[t].Build? && fork !in s.maps
    ensures StepBuild(s, t, fork).Went? && Inv(StepBuild(s, t, fork).s)
  {
    assert Relies(s, s.pcs[t]);
    var s' := StepBuild(s, t, fork).s;
    BuildBalance(s, t, fork);
    forall u | u in s'.pcs ensures Relies(s', s'.pcs[u]) {
      assert Relies(s, s.pcs[u]);
    }
    forall u, u' | u in s'.pcs && u' in s'.pcs ensures Apart(s', u, u') {
      assert Apart(s, u, u');
      assert Relies(s, s.pcs[u]) && Relies(s, s.pcs[u']);
    }
  }

  lemma SwapBalance(s: State, t: Tid)
    requires Inv(s) && t in s.pcs && s.pcs[t].Swap? && s.latest == s.pcs[t].cur
    ensures StepSwap(s, t, false).Went? && forall n, x: nat :: Balanced(StepSwap(s, t, false).s, n, x)
  {
    assert Relies(s, s.pcs[t]);
    var s' := StepSwap(s, t, false).s;
    forall n, x: nat ensures Balanced(s', n, x) {
      assert Balanced(s, n, x);
      CallBalance(s, s', t, n, x);
    }
  }

  /** A swap that succeeds publishes the map and its item together with the sample. */
  lemma SwapInv(s: State, t: Tid)
    requires Inv(s) && t in s.pcs && s.pcs[t].Swap? && s.latest == s.pcs[t].cur
    ensures Inv(StepSwap(s, t, false).s)
  {
    assert Relies(s, s.pcs[t]);
    var s' := StepSwap(s, t, false).s;
    SwapBalance(s, t);
    forall u | u in s'.pcs ensures Relies(s', s'.pcs[u]) {
      assert Relies(s, s.pcs[u]) && Apart(s, t, u);
    }
    forall u, u' | u in s'.pcs && u' in s'.pcs ensures Apart(s', u, u') {
      assert Apart(s, u, u');
    }
  }

  lemma UndoBalance(s: State, t: Tid)
    requires Inv(s) && t in s.pcs && s.pcs[t].Undo?
    ensures StepUndo(s, t).Went? && forall n, x: nat :: Balanced(StepUndo(s, t).s, n, x)
  {
    assert Relies(s, s.pcs[t]);
    var s' := StepUndo(s, t).s;
    forall n, x: nat ensures Balanced(s', n, x) {
      assert Balanced(s, n, x);
      CallBalance(s, s', t, n, x);
    }
  }

  lemma UndoOthers(s: State, t: Tid, u: Tid)
    requires Inv(s) && t in s.pcs && s.pcs[t].Undo? && u in s.pcs && u != t
    ensures StepUndo(s, t).Went? && u in StepUndo(s, t).s.pcs && Relies(StepUndo(s, t).s, StepUndo(s, t).s.pcs[u])
  {
    assert Relies(s, s.pcs[t]) && Relies(s, s.pcs[u]) && Apart(s, t, u);
  }

  lemma UndoGrown(s: State, t: Tid)
    requires Grown(s) && t in s.pcs && s.pcs[t].Undo? && Relies(s, s.pcs[t])
    ensures StepUndo(s, t).Went? && Grown(StepUndo(s, t).s) && StepUndo(s, t).s.Current() == s.Current()
  {
  }

  lemma UndoInv(s: State, t: Tid)
    requires Inv(s) && t in s.pcs && s.pcs[t].Undo?
    ensures StepUndo(s, t).Went? && Inv(StepUndo(s, t).s)
  {
    assert Relies(s, s.pcs[t]);
    var s' := StepUndo(s, t).s;
    UndoGrown(s, t);
    UndoBalance(s, t);
    forall u | u in s'.pcs ensures Relies(s', s'.pcs[u]) {
      if u != t {
        UndoOthers(s, t, u);
      }
    }
    forall u, u' | u in s'.pcs && u' in s'.pcs ensures Apart(s', u, u') {
      assert Apart(s, u, u');
    }
  }

  /** A failed swap takes back the item the call made and no other, so that everyone else sees the same
      names and samples as before; the sample is given up exactly after the seventeenth failed swap. */
  lemma UndoMeans(s: State, t: Tid, name: Name, v: nat)
    requires Inv(s) && t in s.pcs && s.pcs[t].Undo?
    ensures StepUndo(s, t).Went?
    ensures var pc, s' := s.pcs[t], StepUndo(s, t).s;
            && pc.item in s.items && s'.items == s.items - {pc.item}
            && pc.fork in s.maps && s'.maps == s.maps[pc.fork := s.maps[pc.fork] - {pc.name}]
            && s'.Current() == s.Current() && Recorded(s', name, v) == Recorded(s, name, v)
            && (s'.pcs[t].Idle? <==> pc.failed == 17)
            && s'.dropped == s.dropped + if pc.failed == 17 then multiset{(pc.name, pc.v)} else multiset{}
  {
    assert Relies(s, s.pcs[t]);
    UndoGrown(s, t);
  }

  /** Freeing a map that no thread holds disturbs no one, and its address can be used again. */
  lemma FreeInv(s: State, m: MapId)
    requires Inv(s) && StepFree(s, m).Went?
    ensures Inv(StepFree(s, m).s) && StepFree(s, m).s.Current() == s.Current()
    ensures m in s.maps && m != s.latest && m !in StepFree(s, m).s.maps
  {
    var s' := StepFree(s, m).s;
    forall name, v: nat ensures Balanced(s', name, v) {
      assert Balanced(s, name, v);
    }
    forall u | u in s'.pcs ensures Relies(s', s'.pcs[u]) {
      assert Relies(s, s.pcs[u]) && !HasMap(s.pcs[u], m);
    }
    forall u, u' | u in s'.pcs && u' in s'.pcs ensures Apart(s', u, u') {
      assert Apart(s, u, u');
    }
  }

  lemma StepOfSafe(s: State, t: Tid, spurious: bool, address: MapId)
    requires Inv(s) && t in s.pcs
    ensures !StepOf(s, t, spurious, address).Fault?
    ensures StepOf(s, t, spurious, address).Went? ==> Inv(StepOf(s, t, spurious, address).s)
  {
    var pc := s.pcs[t];
    assert Relies(s, pc);
    match pc
    case Idle =>
    case Load(_, _, _) => MoveInv(s, StepOf(s, t, spurious, address).s, t);
    case Found(_, _, _) => FoundInv(s, t);
    case Build(_, _, _, _) => if address !in s.maps { BuildInv(s, t, address); }
    case Undo(_, _, _, _, _) => UndoInv(s, t);
    case Swap(_, _, _, cur, _, _) =>
      if s.latest == cur && !spurious {
        SwapInv(s, t);
      } else {
        MoveInv(s, StepOf(s, t, spurious, address).s, t);
      }
  }

  /** No step faults, and the invariant is kept. */
  lemma StepSafe(s: State, ev: Event)
    requires Inv(s)
    ensures !Step(s, ev).Fault?
    ensures Step(s, ev).Went? ==> Inv(Step(s, ev).s)
  {
    match ev
    case Call(t, _, _) => if Step(s, ev).Went? { MoveInv(s, Step(s, ev).s, t); }
    case Advance(t, spurious, address) => if t in s.pcs { StepOfSafe(s, t, spurious, address); }
    case Free(m) => if Step(s, ev).Went? { FreeInv(s, m); }
  }

  /** What everyone sees only grows: names keep their items and items keep their samples. */
  ghost predicate Grows(s: State, s': State) {
    && Within(s.Current(), s'.Current())
    && forall name, v: nat :: Recorded(s, name, v) <= Recorded(s', name, v)
  }

  lemma CurrentGrows(s: State, ev: Event)
    requires Inv(s) && Step(s, ev).Went?
    ensures Within(s.Current(), Step(s, ev).s.Current())
  {
    if ev.Free? {
      FreeInv(s, ev.m);
    } else {
      assert Relies(s, s.pcs[ev.t]);
    }
  }

  lemma StepGrows(s: State, ev: Event)
    requires Inv(s) && Step(s, ev).Went?
    ensures Grows(s, Step(s, ev).s)
  {
    var s' := Step(s, ev).s;
    StepSafe(s, ev);
    CurrentGrows(s, ev);
    forall name, v: nat ensures Recorded(s, name, v) <= Recorded(s', name, v) {
      assert Balanced(s, name, v) && Balanced(s', name, v);
    }
  }

  // ---------- Runs ----------

  lemma InitialInv(threads: set<Tid>)
    ensures Inv(Initial(threads))
  {
    var s := Initial(threads);
    forall name, v: nat ensures Balanced(s, name, v) {
      IdleOwesNothing(s, name, v);
    }
  }

  lemma IdleOwesNothing(s: State, name: Name, v: nat)
    requires forall t :: t in s.pcs ==> s.pcs[t].Idle?
    ensures Sum(s.pcs, Working(name, v)) == 0
  {
    forall t | t in s.pcs ensures Working(name, v)(s.pcs[t]) == 0 {
      assert s.pcs[t] == Idle;
    }
    SumPositive(s.pcs, Working(name, v));
  }

  lemma {:induction false} RunSafe(s: State, evs: seq<Event>)
    requires Inv(s)
    ensures !Run(s, evs).Fault?
    ensures Run(s, evs).Went? ==> Inv(Run(s, evs).s) && Grows(s, Run(s, evs).s)
    decreases |evs|
  {
    if evs != [] {
      StepSafe(s, evs[0]);
      match Step(s, evs[0])
      case Went(s') =>
        StepGrows(s, evs[0]);
        RunSafe(s', evs[1..]);
      case _ =>
    }
  }

  /** In every interleaving of any number of threads no step touches a deleted item, and for every
      sample: it is recorded as often as calls have added it; every call has added its sample,
      has given up, or is still in progress; so once no call is in progress the samples recorded
      and given up are exactly those of the calls. */
  lemma NothingLost(threads: set<Tid>, evs: seq<Event>, name: Name, v: nat)
    ensures !Run(Initial(threads), evs).Fault?
    ensures Run(Initial(threads), evs).Went? ==>
              var s := Run(Initial(threads), evs).s;
              && Recorded(s, name, v) == s.added[(name, v)]
              && s.calls[(name, v)] == s.added[(name, v)] + s.dropped[(name, v)] + Sum(s.pcs, Working(name, v))
              && ((forall t :: t in s.pcs ==> s.pcs[t].Idle?) ==>
                    s.calls[(name, v)] == Recorded(s, name, v) + s.dropped[(name, v)])
  {
    InitialInv(threads);
    RunSafe(Initial(threads), evs);
    if Run(Initial(threads), evs).Went? {
      var s := Run(Initial(threads), evs).s;
      assert Balanced(s, name, v);
      if forall t :: t in s.pcs ==> s.pcs[t].Idle? {
        IdleOwesNothing(s, name, v);
      }
    }
  }

  lemma {:induction false} RunConcat(s: State, evs: seq<Event>, evs': seq<Event>)
    requires Run(s, evs).Went?
    ensures Run(s, evs + evs') == Run(Run(s, evs).s, evs')
    decreases |evs|
  {
    if evs == [] {
      assert evs + evs' == evs';
    } else {
      assert (evs + evs')[1..] == evs[1..] + evs';
      RunConcat(Step(s, evs[0]).s, evs[1..], evs');
    }
  }

  /** A name that was ever published keeps its item for the rest of the run. */
  lemma ItemsStay(threads: set<Tid>, evs: seq<Event>, more: seq<Event>, name: Name)
    requires Run(Initial(threads), evs + more).Went? && Run(Initial(threads), evs).Went?
    requires name in Run(Initial(threads), evs).s.Current()
    ensures name in Run(Initial(threads), evs + more).s.Current()
    ensures Run(Initial(threads), evs + more).s.Current()[name] == Run(Initial(threads), evs).s.Current()[name]
  {
    InitialInv(threads);
    RunSafe(Initial(threads), evs);
    RunConcat(Initial(threads), evs, more);
    RunSafe(Run(Initial(threads), evs).s, more);
  }
}
