/** When calls on shared pointers wait for each other for ever. An assignment holds the lock of its
    destination while it waits for the lock of its source, and no other call holds one lock while it waits
    for another.
 */
module PointerLocks {
  import opened Options
  import opened SharedPointer

  // ---------- Who holds which lock ----------

  predicate AskerHas(asker: Asker, x: Slot) {
    asker.ForAssign? && asker.dst == x
  }

  /** A thread that is there has the lock of `x`. */
  predicate Has(pc: Pc, x: Slot) {
    match pc
    case LockToShare(_, asker) => AskerHas(asker, x)
    case LoadToShare(src, asker) => src == x || AskerHas(asker, x)
    case Increment(src, _, asker) => src == x || AskerHas(asker, x)
    case UnlockShared(src, _, asker) => src == x || AskerHas(asker, x)
    case LoadOld(dst, _, _) => dst == x
    case StoreNew(dst, _, _, _) => dst == x
    case Decrement(_, held, _) => held == Some(x)
    case Delete(_, held, _) => held == Some(x)
    case UnlockLast(held, _) => held == Some(x)
    case Exchange(cell, _, _, _, _) => cell == x
    case UnlockFailed(cell, _, _) => cell == x
    case _ => false
  }

  /** The lock a thread that is there waits for. */
  function Wants(pc: Pc): Option<Slot> {
    match pc
    case LockForReset(dst) => Some(dst)
    case LockForAssign(dst, _, _) => Some(dst)
    case LockToShare(src, _) => Some(src)
    case LockToExchange(cell, _, _, _, _) => Some(cell)
    case _ => None
  }

  predicate HeldAt(s: State, x: Slot) {
    x in s.locks ==> s.locks[x] in s.pcs && Has(s.pcs[s.locks[x]], x)
  }

  /** Every lock is held by the thread that is at a place where it has it. */
  ghost predicate Held(s: State) {
    forall x :: x in s.locks ==> HeldAt(s, x)
  }

  lemma ShareHeld(s: State, t: Tid, x: Slot)
    requires HeldAt(s, x) && t in s.pcs && StepShare(s, t, s.pcs[t]).Went?
    ensures HeldAt(StepShare(s, t, s.pcs[t]).s, x)
  {
    match s.pcs[t]
    case LockToShare(_, _) =>
    case LoadToShare(_, _) =>
    case Increment(_, _, _) =>
    case UnlockShared(_, _, _) =>
  }

  lemma AssignHeld(s: State, t: Tid, x: Slot)
    requires HeldAt(s, x) && t in s.pcs && StepAssign(s, t, s.pcs[t]).Went?
    ensures HeldAt(StepAssign(s, t, s.pcs[t]).s, x)
  {
    match s.pcs[t]
    case LockForReset(_) =>
    case LockForAssign(_, _, _) =>
    case LoadOld(_, _, _) =>
    case StoreNew(_, _, _, _) =>
  }

  lemma ReleaseHeld(s: State, t: Tid, x: Slot)
    requires HeldAt(s, x) && t in s.pcs && StepRelease(s, t, s.pcs[t]).Went?
    ensures HeldAt(StepRelease(s, t, s.pcs[t]).s, x)
  {
  }

  lemma ExchangeHeld(s: State, t: Tid, spurious: bool, x: Slot)
    requires HeldAt(s, x) && t in s.pcs && StepExchange(s, t, s.pcs[t], spurious).Went?
    ensures HeldAt(StepExchange(s, t, s.pcs[t], spurious).s, x)
  {
    match s.pcs[t]
    case LoadExpected(_, _, _) =>
    case LockToExchange(_, _, _, _, _) =>
    case Exchange(_, _, _, _, _) =>
    case UnlockFailed(_, _, _) =>
  }

  lemma OwnHeld(s: State, t: Tid, spurious: bool, x: Slot)
    requires HeldAt(s, x) && t in s.pcs && Advanced(s, t, spurious).Went?
    ensures HeldAt(Advanced(s, t, spurious).s, x)
  {
    if StepShare(s, t, s.pcs[t]).Went? {
      ShareHeld(s, t, x);
    } else if StepAssign(s, t, s.pcs[t]).Went? {
      AssignHeld(s, t, x);
    } else if StepRelease(s, t, s.pcs[t]).Went? {
      ReleaseHeld(s, t, x);
    } else {
      ExchangeHeld(s, t, spurious, x);
    }
  }

  lemma StepHeld(s: State, ev: Event)
    requires Held(s) && Step(s, ev).Went?
    ensures Held(Step(s, ev).s)
  {
    var s' := Step(s, ev).s;
    forall x | x in s'.locks ensures HeldAt(s', x) {
      if ev.Advance? {
        OwnHeld(s, ev.t, ev.spurious, x);
      } else {
        assert s'.locks == s.locks && HeldAt(s, x);
      }
    }
  }

  lemma {:induction false} RunHeld(s: State, evs: seq<Event>)
    requires Inv(s) && Held(s) && Run(s, evs).Went?
    ensures Inv(Run(s, evs).s) && Held(Run(s, evs).s)
    decreases |evs|
  {
    if evs != [] {
      StepSafe(s, evs[0]);
      StepHeld(s, evs[0]);
      RunHeld(Step(s, evs[0]).s, evs[1..]);
    }
  }

  // ---------- Who waits ----------

  /** A thread in a call can make its next step exactly if it does not want a lock that is held. */
  lemma WaitsExactly(s: State, t: Tid, spurious: bool)
    requires Inv(s) && t in s.pcs && !s.pcs[t].Idle?
    ensures Advanced(s, t, spurious).Blocked? <==> Wants(s.pcs[t]).Some? && Wants(s.pcs[t]).value in s.locks
  {
    AdvancedGood(s, t, spurious);
  }

  /** Threads that assign, each wanting a lock that one of them has. */
  ghost predicate Knot(s: State, ts: set<Tid>) {
    forall t {:trigger Knotted(s, ts, t)} :: t in ts ==> Knotted(s, ts, t)
  }

  predicate Knotted(s: State, ts: set<Tid>, t: Tid) {
    && t in s.pcs && s.pcs[t].LockToShare? && s.pcs[t].asker.ForAssign?
    && s.pcs[t].src in s.locks && s.locks[s.pcs[t].src] in ts
  }

  lemma KnotStep(s: State, ev: Event, ts: set<Tid>, t: Tid)
    requires Inv(s) && Knot(s, ts) && t in ts && Step(s, ev).Went?
    ensures t in s.pcs && Knotted(Step(s, ev).s, ts, t) && Step(s, ev).s.pcs[t] == s.pcs[t]
  {
    assert Knotted(s, ts, t);
    var u := s.locks[s.pcs[t].src];
    assert Knotted(s, ts, u);
    if ev.Advance? {
      AdvancedGood(s, ev.t, ev.spurious);
      assert Locked(s, u, s.pcs[t].src);
    }
  }

  lemma KnotStays(s: State, ev: Event, ts: set<Tid>)
    requires Inv(s) && Knot(s, ts) && Step(s, ev).Went?
    ensures Knot(Step(s, ev).s, ts)
  {
    forall t | t in ts ensures Knotted(Step(s, ev).s, ts, t) {
      KnotStep(s, ev, ts, t);
    }
  }

  /** A knot stays one, and none of its calls ends, whatever the other threads do. */
  lemma {:induction false} KnotForEver(s: State, evs: seq<Event>, ts: set<Tid>)
    requires Inv(s) && Knot(s, ts) && Run(s, evs).Went?
    ensures Knot(Run(s, evs).s, ts)
    decreases |evs|
  {
    if evs != [] {
      StepSafe(s, evs[0]);
      KnotStays(s, evs[0], ts);
      KnotForEver(Step(s, evs[0]).s, evs[1..], ts);
    }
  }

  function Holders(s: State): set<Tid> {
    set x | x in s.locks :: s.locks[x]
  }

  /** No thread in a call can make a step. */
  ghost predicate Stuck(s: State) {
    forall t :: t in s.pcs && !s.pcs[t].Idle? ==> Advanced(s, t, false).Blocked?
  }

  lemma HolderKnotted(s: State, t: Tid, x: Slot)
    requires Inv(s) && Held(s) && Stuck(s) && x in s.locks && s.locks[x] == t
    ensures Knotted(s, Holders(s), t)
  {
    assert HeldAt(s, x);
    WaitsExactly(s, t, false);
    assert s.locks[s.pcs[t].src] in Holders(s);
  }

  /** In every run: calls in progress cannot get on if and only if those that hold a lock are a knot and
      the others wait for one of their locks. */
  lemma Deadlock(threads: set<Tid>, evs: seq<Event>)
    requires Run(Initial(threads), evs).Went?
    ensures var s := Run(Initial(threads), evs).s;
            Stuck(s) <==>
            && Knot(s, Holders(s))
            && forall t :: t in s.pcs && !s.pcs[t].Idle? ==>
                 Wants(s.pcs[t]).Some? && Wants(s.pcs[t]).value in s.locks
  {
    InitialInv(threads);
    RunHeld(Initial(threads), evs);
    var s := Run(Initial(threads), evs).s;
    forall t | t in s.pcs && !s.pcs[t].Idle?
      ensures Advanced(s, t, false).Blocked? <==> Wants(s.pcs[t]).Some? && Wants(s.pcs[t]).value in s.locks
    {
      WaitsExactly(s, t, false);
    }
    if Stuck(s) {
      forall t | t in Holders(s) ensures Knotted(s, Holders(s), t) {
        var x :| x in s.locks && s.locks[x] == t;
        HolderKnotted(s, t, x);
      }
    }
  }

  lemma RunFour(s: State, a: Event, b: Event, c: Event, d: Event, s1: State, s2: State, s3: State, s4: State)
    requires Step(s, a) == Went(s1) && Step(s1, b) == Went(s2) && Step(s2, c) == Went(s3) && Step(s3, d) == Went(s4)
    ensures Run(s, [a, b, c, d]) == Went(s4)
  {
    assert [a, b, c, d][1..] == [b, c, d] && [b, c, d][1..] == [c, d] && [c, d][1..] == [d];
    assert Run(s3, [d]) == Went(s4);
    assert Run(s2, [c, d]) == Went(s4);
    assert Run(s1, [b, c, d]) == Went(s4);
  }

  /** Two threads that assign two slots to each other can wait for ever. */
  lemma CrossedAssignments(s: State, t: Tid, u: Tid, x: Slot, y: Slot)
    requires t != u && t in s.pcs && u in s.pcs && s.pcs[t].Idle? && s.pcs[u].Idle?
    requires s.Usable(t, x) && s.Usable(t, y) && s.Usable(u, x) && s.Usable(u, y)
    requires x != y && x !in s.locks && y !in s.locks
    ensures var evs := [CallAssign(t, x, y), CallAssign(u, y, x), Advance(t, false), Advance(u, false)];
            Run(s, evs).Went? && Knot(Run(s, evs).s, {t, u})
  {
    var s1 := Step(s, CallAssign(t, x, y)).s;
    var s2 := Step(s1, CallAssign(u, y, x)).s;
    var s3 := Step(s2, Advance(t, false)).s;
    var s4 := Step(s3, Advance(u, false)).s;
    RunFour(s, CallAssign(t, x, y), CallAssign(u, y, x), Advance(t, false), Advance(u, false), s1, s2, s3, s4);
    assert Knotted(s4, {t, u}, t) && Knotted(s4, {t, u}, u);
  }
}
