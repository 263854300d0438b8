/** What assignments, resets and exchanges of shared pointers do to the slots: step by step in any
    interleaving, and from the call to its end when the thread is alone.
 */
module PointerCalls {
  import opened Options
  import opened SharedPointer

  // ---------- In any interleaving ----------

  /** The value an assignment carries is what its source holds while it is locked, also when there is
      nothing. */
  lemma ShareMeans(s: State, t: Tid)
    requires Inv(s) && t in s.pcs && s.pcs[t].UnlockShared? && s.pcs[t].asker.ForAssign?
    ensures var UnlockShared(src, val, asker) := s.pcs[t];
            && Locked(s, t, src) && src in s.slots && s.slots[src] == val && Step(s, Advance(t, false)).Went?
            && var s' := Step(s, Advance(t, false)).s;
               s'.slots == s.slots && s'.locks == s.locks - {src} && t in s'.pcs
               && s'.pcs[t] == LoadOld(asker.dst, val, asker.after)
  {
    assert Relies(s, t, s.pcs[t]);
  }

  /** The store leaves exactly that value in the slot, and every other slot alone; what the slot held before
      is what the thread releases next. */
  lemma StoreMeans(s: State, t: Tid)
    requires Inv(s) && t in s.pcs && s.pcs[t].StoreNew?
    ensures var StoreNew(dst, val, prev, after) := s.pcs[t];
            && dst in s.slots && Locked(s, t, dst) && Step(s, Advance(t, false)).Went?
            && var s' := Step(s, Advance(t, false)).s;
               s'.slots == s.slots[dst := val] && s'.locks == s.locks && t in s'.pcs
               && s'.pcs[t] == Decrement(s.slots[dst], Some(dst), after)
  {
    assert Relies(s, t, s.pcs[t]);
  }

  /** A slot is made where none is, empty or as the only one at a wrapper that is not there yet, and is its
      maker's alone unless it is shared. */
  lemma CreateMeans(s: State, t: Tid, x: Slot, w: Wrapper, shared: bool, u: Tid)
    requires t in s.pcs && s.pcs[t].Idle?
    ensures Step(s, Create(t, x, shared)).Went? <==> x !in s.slots && x !in s.owner
    ensures Step(s, CreateWith(t, x, w, shared)).Went? <==> x !in s.slots && x !in s.owner && w !in s.heap
    ensures Step(s, Create(t, x, shared)).Went? ==>
              var s' := Step(s, Create(t, x, shared)).s;
              && s'.slots == s.slots[x := None] && s'.heap == s.heap && s'.locks == s.locks && s'.pcs == s.pcs
              && (s'.Usable(u, x) <==> shared || u == t) && (s'.Private(u, x) <==> !shared && u == t)
    ensures Step(s, CreateWith(t, x, w, shared)).Went? ==>
              var s' := Step(s, CreateWith(t, x, w, shared)).s;
              && s'.slots == s.slots[x := Some(w)] && s'.heap == s.heap[w := 1] && s'.locks == s.locks
              && s'.pcs == s.pcs
              && (s'.Usable(u, x) <==> shared || u == t) && (s'.Private(u, x) <==> !shared && u == t)
  {
  }

  /** A slot goes only by the thread it is private to, and empty; nothing else changes. */
  lemma DestroyMeans(s: State, t: Tid, x: Slot)
    requires t in s.pcs && s.pcs[t].Idle?
    ensures Step(s, Destroy(t, x)).Went? <==>
              x in s.slots && x in s.owner && s.owner[x] == Some(t) && s.slots[x] == None
    ensures Step(s, Destroy(t, x)).Went? ==>
              var s' := Step(s, Destroy(t, x)).s;
              && s'.slots == s.slots - {x} && s'.owner == s.owner - {x} && s'.heap == s.heap
              && s'.locks == s.locks && s'.pcs == s.pcs
  {
  }

  // ---------- A thread alone ----------

  function Alone(s: State, t: Tid, n: nat): Outcome
    decreases n
  {
    if n == 0 then Went(s)
    else
      match Step(s, Advance(t, false))
      case Went(s') => Alone(s', t, n - 1)
      case out => out
  }

  /** Steps of one thread are a run. */
  lemma {:induction false} AloneIsRun(s: State, t: Tid, n: nat)
    ensures Alone(s, t, n) == Run(s, seq(n, _ => Advance(t, false)))
    decreases n
  {
    if n > 0 {
      var evs := seq(n, _ => Advance(t, false));
      assert evs[1..] == seq(n - 1, _ => Advance(t, false));
      match Step(s, Advance(t, false))
      case Went(s') => AloneIsRun(s', t, n - 1);
      case _ =>
    }
  }

  /** Alone, the thread finishes its call and leaves these slots and locks. */
  ghost predicate Ends(s: State, t: Tid, slots: map<Slot, Option<Wrapper>>, locks: map<Slot, Tid>) {
    exists n: nat :: Alone(s, t, n).Went? && Ended(s, Alone(s, t, n).s, t, slots, locks)
  }

  ghost predicate Ended(s: State, end: State, t: Tid, slots: map<Slot, Option<Wrapper>>, locks: map<Slot, Tid>) {
    Inv(end) && end.slots == slots && end.locks == locks && end.owner == s.owner && end.pcs == s.pcs[t := Idle]
  }

  lemma Goes(s: State, t: Tid, s': State, slots: map<Slot, Option<Wrapper>>, locks: map<Slot, Tid>)
    requires Step(s, Advance(t, false)) == Went(s') && Ends(s', t, slots, locks)
    requires t in s.pcs && t in s'.pcs && s'.pcs == s.pcs[t := s'.pcs[t]] && s'.owner == s.owner
    ensures Ends(s, t, slots, locks)
  {
    var n: nat :| Alone(s', t, n).Went? && Ended(s', Alone(s', t, n).s, t, slots, locks);
    assert Alone(s, t, n + 1) == Alone(s', t, n);
    assert s'.pcs[t := Idle] == s.pcs[t := Idle];
  }

  lemma Arrived(s: State, t: Tid)
    requires Inv(s) && t in s.pcs && s.pcs[t].Idle?
    ensures Ends(s, t, s.slots, s.locks)
  {
    assert Alone(s, t, 0) == Went(s) && s.pcs[t := Idle] == s.pcs;
  }

  // ---------- Releasing ----------

  function Freed(locks: map<Slot, Tid>, held: Option<Slot>): map<Slot, Tid> {
    if held.Some? then locks - {held.value} else locks
  }

  lemma UnlockEnds(s: State, t: Tid)
    requires Inv(s) && t in s.pcs && s.pcs[t].UnlockLast?
    ensures Ends(s, t, s.slots, Freed(s.locks, s.pcs[t].held))
    decreases if s.pcs[t].after.Finish? then 0 else 1, 0
  {
    var s' := Step(s, Advance(t, false)).s;
    StepSafe(s, Advance(t, false));
    if s.pcs[t].after.Finish? {
      Arrived(s', t);
    } else {
      DecrementEnds(s', t);
    }
    Goes(s, t, s', s.slots, Freed(s.locks, s.pcs[t].held));
  }

  lemma DeleteEnds(s: State, t: Tid)
    requires Inv(s) && t in s.pcs && s.pcs[t].Delete?
    ensures Ends(s, t, s.slots, Freed(s.locks, s.pcs[t].held))
    decreases if s.pcs[t].after.Finish? then 0 else 1, 1
  {
    StepSafe(s, Advance(t, false));
    var s' := Step(s, Advance(t, false)).s;
    UnlockEnds(s', t);
    Goes(s, t, s', s.slots, Freed(s.locks, s.pcs[t].held));
  }

  lemma DecrementEnds(s: State, t: Tid)
    requires Inv(s) && t in s.pcs && s.pcs[t].Decrement?
    ensures Ends(s, t, s.slots, Freed(s.locks, s.pcs[t].held))
    decreases if s.pcs[t].after.Finish? then 0 else 1, 2
  {
    StepSafe(s, Advance(t, false));
    var s' := Step(s, Advance(t, false)).s;
    if s'.pcs[t].Delete? {
      DeleteEnds(s', t);
    } else {
      UnlockEnds(s', t);
    }
    Goes(s, t, s', s.slots, Freed(s.locks, s.pcs[t].held));
  }

  // ---------- Assigning ----------

  lemma StoreEnds(s: State, t: Tid)
    requires Inv(s) && t in s.pcs && s.pcs[t].StoreNew?
    ensures Ends(s, t, s.slots[s.pcs[t].dst := s.pcs[t].val], s.locks - {s.pcs[t].dst})
  {
    StoreMeans(s, t);
    StepSafe(s, Advance(t, false));
    var s' := Step(s, Advance(t, false)).s;
    DecrementEnds(s', t);
    Goes(s, t, s', s.slots[s.pcs[t].dst := s.pcs[t].val], s.locks - {s.pcs[t].dst});
  }

  lemma LoadOldEnds(s: State, t: Tid)
    requires Inv(s) && t in s.pcs && s.pcs[t].LoadOld?
    ensures Ends(s, t, s.slots[s.pcs[t].dst := s.pcs[t].val], s.locks - {s.pcs[t].dst})
  {
    StepSafe(s, Advance(t, false));
    var s' := Step(s, Advance(t, false)).s;
    StoreEnds(s', t);
    Goes(s, t, s', s.slots[s.pcs[t].dst := s.pcs[t].val], s.locks - {s.pcs[t].dst});
  }

  lemma UnlockSharedEnds(s: State, t: Tid)
    requires Inv(s) && t in s.pcs && s.pcs[t].UnlockShared? && s.pcs[t].asker.ForAssign?
    ensures var UnlockShared(src, val, asker) := s.pcs[t];
            Ends(s, t, s.slots[asker.dst := val], s.locks - {src} - {asker.dst})
  {
    var UnlockShared(src, val, asker) := s.pcs[t];
    ShareMeans(s, t);
    StepSafe(s, Advance(t, false));
    var s' := Step(s, Advance(t, false)).s;
    LoadOldEnds(s', t);
    Goes(s, t, s', s.slots[asker.dst := val], s.locks - {src} - {asker.dst});
  }

  lemma IncrementEnds(s: State, t: Tid)
    requires Inv(s) && t in s.pcs && s.pcs[t].Increment? && s.pcs[t].asker.ForAssign?
    ensures var Increment(src, w, asker) := s.pcs[t];
            src in s.slots && Ends(s, t, s.slots[asker.dst := s.slots[src]], s.locks - {src} - {asker.dst})
  {
    var Increment(src, w, asker) := s.pcs[t];
    assert Relies(s, t, s.pcs[t]);
    StepSafe(s, Advance(t, false));
    var s' := Step(s, Advance(t, false)).s;
    UnlockSharedEnds(s', t);
    Goes(s, t, s', s.slots[asker.dst := s.slots[src]], s.locks - {src} - {asker.dst});
  }

  lemma LoadEnds(s: State, t: Tid)
    requires Inv(s) && t in s.pcs && s.pcs[t].LoadToShare? && s.pcs[t].asker.ForAssign?
    ensures var LoadToShare(src, asker) := s.pcs[t];
            src in s.slots && Ends(s, t, s.slots[asker.dst := s.slots[src]], s.locks - {src} - {asker.dst})
  {
    var LoadToShare(src, asker) := s.pcs[t];
    assert Relies(s, t, s.pcs[t]);
    StepSafe(s, Advance(t, false));
    var s' := Step(s, Advance(t, false)).s;
    if s'.pcs[t].Increment? {
      IncrementEnds(s', t);
    } else {
      UnlockSharedEnds(s', t);
    }
    Goes(s, t, s', s.slots[asker.dst := s.slots[src]], s.locks - {src} - {asker.dst});
  }

  lemma LockToShareEnds(s: State, t: Tid)
    requires Inv(s) && t in s.pcs && s.pcs[t].LockToShare? && s.pcs[t].asker.ForAssign? && s.pcs[t].src !in s.locks
    ensures var LockToShare(src, asker) := s.pcs[t];
            src in s.slots && Ends(s, t, s.slots[asker.dst := s.slots[src]], s.locks - {asker.dst})
  {
    var LockToShare(src, asker) := s.pcs[t];
    StepSafe(s, Advance(t, false));
    var s' := Step(s, Advance(t, false)).s;
    LoadEnds(s', t);
    assert s.locks[src := t] - {src} - {asker.dst} == s.locks - {asker.dst};
    Goes(s, t, s', s.slots[asker.dst := s.slots[src]], s.locks - {asker.dst});
  }

  lemma AssignEnds(s: State, t: Tid)
    requires Inv(s) && t in s.pcs && s.pcs[t].LockForAssign? && s.pcs[t].dst != s.pcs[t].src
    requires s.pcs[t].dst !in s.locks && s.pcs[t].src !in s.locks
    ensures s.pcs[t].src in s.slots && Ends(s, t, s.slots[s.pcs[t].dst := s.slots[s.pcs[t].src]], s.locks)
  {
    var LockForAssign(dst, src, after) := s.pcs[t];
    StepSafe(s, Advance(t, false));
    var s' := Step(s, Advance(t, false)).s;
    LockToShareEnds(s', t);
    assert s.locks[dst := t] - {dst} == s.locks;
    Goes(s, t, s', s.slots[dst := s.slots[src]], s.locks);
  }

  /** An assignment that nothing disturbs gives the slot what the other one holds and changes no other. */
  lemma Assigns(s: State, t: Tid, dst: Slot, src: Slot)
    requires Inv(s) && t in s.pcs && s.pcs[t].Idle? && s.Usable(t, dst) && s.Usable(t, src)
    requires dst != src && dst !in s.locks && src !in s.locks
    ensures Step(s, CallAssign(t, dst, src)).Went?
    ensures Ends(Step(s, CallAssign(t, dst, src)).s, t, s.slots[dst := s.slots[src]], s.locks)
  {
    StepSafe(s, CallAssign(t, dst, src));
    AssignEnds(Step(s, CallAssign(t, dst, src)).s, t);
  }

  /** Before the first lock of a slot it assigns to itself, or at the second, which is its own. */
  predicate Waits(s: State, t: Tid, x: Slot) {
    && t in s.pcs
    && (|| s.pcs[t] == LockForAssign(x, x, Finish)
        || (s.pcs[t] == LockToShare(x, ForAssign(x, Finish)) && Locked(s, t, x)))
  }

  lemma WaitsOn(s: State, ev: Event, t: Tid, x: Slot)
    requires Inv(s) && Waits(s, t, x) && Step(s, ev).Went?
    ensures Waits(Step(s, ev).s, t, x)
  {
    if ev.Advance? && ev.t != t {
      AdvancedGood(s, ev.t, ev.spurious);
    }
  }

  lemma {:induction false} WaitsForEver(s: State, evs: seq<Event>, t: Tid, x: Slot)
    requires Inv(s) && Waits(s, t, x) && Run(s, evs).Went?
    ensures Waits(Run(s, evs).s, t, x)
    decreases |evs|
  {
    if evs != [] {
      StepSafe(s, evs[0]);
      WaitsOn(s, evs[0], t, x);
      WaitsForEver(Step(s, evs[0]).s, evs[1..], t, x);
    }
  }

  /** The assignment of a slot to itself never ends, whatever the other threads do: so the two slots have to
      be different. */
  lemma NeverAssigns(s: State, t: Tid, x: Slot, evs: seq<Event>)
    requires Inv(s) && Step(s, CallAssign(t, x, x)).Went?
    requires Run(Step(s, CallAssign(t, x, x)).s, evs).Went?
    ensures t in Run(Step(s, CallAssign(t, x, x)).s, evs).s.pcs
    ensures !Run(Step(s, CallAssign(t, x, x)).s, evs).s.pcs[t].Idle?
  {
    StepSafe(s, CallAssign(t, x, x));
    WaitsForEver(Step(s, CallAssign(t, x, x)).s, evs, t, x);
  }

  /** A reset that nothing disturbs leaves nothing in the slot and changes no other. */
  lemma Resets(s: State, t: Tid, dst: Slot)
    requires Inv(s) && t in s.pcs && s.pcs[t].Idle? && s.Usable(t, dst) && dst !in s.locks
    ensures Step(s, CallReset(t, dst)).Went?
    ensures Ends(Step(s, CallReset(t, dst)).s, t, s.slots[dst := None], s.locks)
  {
    StepSafe(s, CallReset(t, dst));
    var s1 := Step(s, CallReset(t, dst)).s;
    StepSafe(s1, Advance(t, false));
    var s2 := Step(s1, Advance(t, false)).s;
    LoadOldEnds(s2, t);
    assert s.locks[dst := t] - {dst} == s.locks;
    Goes(s1, t, s2, s.slots[dst := None], s.locks);
  }

  // ---------- Exchanging ----------

  function Exchanged(slots: map<Slot, Option<Wrapper>>, cell: Slot, expected: Slot, src: Slot)
    : map<Slot, Option<Wrapper>>
    requires cell in slots && expected in slots && src in slots
  {
    if slots[cell] == slots[expected] then slots[cell := slots[src]] else slots[expected := slots[cell]]
  }

  lemma UnlockFailedEnds(s: State, t: Tid)
    requires Inv(s) && t in s.pcs && s.pcs[t].UnlockFailed? && s.pcs[t].expected !in s.locks
    ensures var UnlockFailed(cell, expected, _) := s.pcs[t];
            cell in s.slots && Ends(s, t, s.slots[expected := s.slots[cell]], s.locks - {cell})
  {
    var UnlockFailed(cell, expected, _) := s.pcs[t];
    assert Relies(s, t, s.pcs[t]);
    StepSafe(s, Advance(t, false));
    var s' := Step(s, Advance(t, false)).s;
    AssignEnds(s', t);
    Goes(s, t, s', s.slots[expected := s.slots[cell]], s.locks - {cell});
  }

  lemma ExchangeEnds(s: State, t: Tid)
    requires Inv(s) && t in s.pcs && s.pcs[t].Exchange? && s.pcs[t].expected !in s.locks
    ensures var Exchange(cell, expected, _, src, _) := s.pcs[t];
            && cell in s.slots && expected in s.slots && src in s.slots
            && Ends(s, t, Exchanged(s.slots, cell, expected, src), s.locks - {cell})
  {
    var Exchange(cell, expected, _, src, _) := s.pcs[t];
    ExchangeMeans(s, t, false);
    assert Relies(s, t, s.pcs[t]);
    StepSafe(s, Advance(t, false));
    var s' := Step(s, Advance(t, false)).s;
    if s'.pcs[t].Decrement? {
      DecrementEnds(s', t);
    } else {
      UnlockFailedEnds(s', t);
    }
    Goes(s, t, s', Exchanged(s.slots, cell, expected, src), s.locks - {cell});
  }

  lemma LockToExchangeEnds(s: State, t: Tid)
    requires Inv(s) && t in s.pcs && s.pcs[t].LockToExchange?
    requires s.pcs[t].expected !in s.locks && s.pcs[t].cell !in s.locks
    ensures var LockToExchange(cell, expected, _, src, _) := s.pcs[t];
            && cell in s.slots && expected in s.slots && src in s.slots
            && Ends(s, t, Exchanged(s.slots, cell, expected, src), s.locks)
  {
    var LockToExchange(cell, expected, _, src, _) := s.pcs[t];
    assert Relies(s, t, s.pcs[t]);
    StepSafe(s, Advance(t, false));
    var s' := Step(s, Advance(t, false)).s;
    ExchangeEnds(s', t);
    assert s.locks[cell := t] - {cell} == s.locks;
    Goes(s, t, s', Exchanged(s.slots, cell, expected, src), s.locks);
  }

  /** A thread that takes the reference an exchange brings, when nothing else is locked. */
  ghost predicate Fetching(s: State, t: Tid) {
    && Inv(s) && t in s.pcs
    && (s.pcs[t].LockToShare? || s.pcs[t].LoadToShare? || s.pcs[t].Increment? || s.pcs[t].UnlockShared?)
    && s.pcs[t].asker.ForExchange?
    && s.pcs[t].asker.expected !in s.locks - {s.pcs[t].src} && s.pcs[t].asker.cell !in s.locks - {s.pcs[t].src}
  }

  lemma UnlockFetchedEnds(s: State, t: Tid)
    requires Fetching(s, t) && s.pcs[t].UnlockShared?
    ensures var UnlockShared(src, _, asker) := s.pcs[t];
            && asker.cell in s.slots && asker.expected in s.slots && src in s.slots
            && Ends(s, t, Exchanged(s.slots, asker.cell, asker.expected, src), s.locks - {src})
  {
    var UnlockShared(src, _, asker) := s.pcs[t];
    assert Relies(s, t, s.pcs[t]);
    StepSafe(s, Advance(t, false));
    var s' := Step(s, Advance(t, false)).s;
    LockToExchangeEnds(s', t);
    Goes(s, t, s', Exchanged(s.slots, asker.cell, asker.expected, src), s.locks - {src});
  }

  lemma IncrementFetchedEnds(s: State, t: Tid)
    requires Fetching(s, t) && s.pcs[t].Increment?
    ensures var Increment(src, _, asker) := s.pcs[t];
            && asker.cell in s.slots && asker.expected in s.slots && src in s.slots
            && Ends(s, t, Exchanged(s.slots, asker.cell, asker.expected, src), s.locks - {src})
  {
    var Increment(src, _, asker) := s.pcs[t];
    assert Relies(s, t, s.pcs[t]);
    StepSafe(s, Advance(t, false));
    var s' := Step(s, Advance(t, false)).s;
    UnlockFetchedEnds(s', t);
    Goes(s, t, s', Exchanged(s.slots, asker.cell, asker.expected, src), s.locks - {src});
  }

  lemma LoadFetchedEnds(s: State, t: Tid)
    requires Fetching(s, t) && s.pcs[t].LoadToShare?
    ensures var LoadToShare(src, asker) := s.pcs[t];
            && asker.cell in s.slots && asker.expected in s.slots && src in s.slots
            && Ends(s, t, Exchanged(s.slots, asker.cell, asker.expected, src), s.locks - {src})
  {
    var LoadToShare(src, asker) := s.pcs[t];
    assert Relies(s, t, s.pcs[t]);
    StepSafe(s, Advance(t, false));
    var s' := Step(s, Advance(t, false)).s;
    if s'.pcs[t].Increment? {
      IncrementFetchedEnds(s', t);
    } else {
      UnlockFetchedEnds(s', t);
    }
    Goes(s, t, s', Exchanged(s.slots, asker.cell, asker.expected, src), s.locks - {src});
  }

  lemma FetchEnds(s: State, t: Tid)
    requires Fetching(s, t) && s.pcs[t].LockToShare? && s.pcs[t].src !in s.locks
    ensures var LockToShare(src, asker) := s.pcs[t];
            && asker.cell in s.slots && asker.expected in s.slots && src in s.slots
            && Ends(s, t, Exchanged(s.slots, asker.cell, asker.expected, src), s.locks)
  {
    var LockToShare(src, asker) := s.pcs[t];
    assert Relies(s, t, s.pcs[t]);
    StepSafe(s, Advance(t, false));
    var s' := Step(s, Advance(t, false)).s;
    LoadFetchedEnds(s', t);
    assert s.locks[src := t] - {src} == s.locks;
    Goes(s, t, s', Exchanged(s.slots, asker.cell, asker.expected, src), s.locks);
  }

  /** An exchange that nothing disturbs gives the cell what `src` holds if it holds what `expected` holds;
      otherwise `expected` gets what the cell holds. No other slot changes. */
  lemma Exchanges(s: State, t: Tid, cell: Slot, expected: Slot, src: Slot)
    requires Inv(s) && t in s.pcs && s.pcs[t].Idle?
    requires s.Usable(t, cell) && s.Private(t, expected) && s.Private(t, src) && cell != expected && cell != src
    requires cell !in s.locks && expected !in s.locks && src !in s.locks
    ensures Step(s, CallExchange(t, cell, expected, src)).Went?
    ensures Ends(Step(s, CallExchange(t, cell, expected, src)).s, t,
                 if s.slots[cell] == s.slots[expected] then s.slots[cell := s.slots[src]]
                 else s.slots[expected := s.slots[cell]], s.locks)
  {
    StepSafe(s, CallExchange(t, cell, expected, src));
    var s1 := Step(s, CallExchange(t, cell, expected, src)).s;
    StepSafe(s1, Advance(t, false));
    var s2 := Step(s1, Advance(t, false)).s;
    FetchEnds(s2, t);
    Goes(s1, t, s2, Exchanged(s.slots, cell, expected, src), s.locks);
  }
}
