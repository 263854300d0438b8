/** What one call of the latency collector does: step by step, over a whole call among others, and when
    nothing disturbs it.
 */
module LatencyCalls {
  import opened LatencyCollector

  // ---------- One step ----------

  /** A call that found its name adds its sample there once, and nothing else. */
  lemma FoundMeans(s: State, t: Tid, spurious: bool, address: MapId, name: Name, v: nat)
    requires Inv(s) && t in s.pcs && s.pcs[t].Found?
    ensures Step(s, Advance(t, spurious, address)).Went?
    ensures var s' := Step(s, Advance(t, spurious, address)).s;
            && s'.Current() == s.Current() && s'.dropped == s.dropped && s'.pcs == s.pcs[t := Idle]
            && Recorded(s', name, v)
               == Recorded(s, name, v) + if name == s.pcs[t].name && v == s.pcs[t].v then 1 else 0
  {
    assert Relies(s, s.pcs[t]);
    FoundInv(s, t);
    var s' := Step(s, Advance(t, spurious, address)).s;
    assert Balanced(s, name, v) && Balanced(s', name, v);
  }

  /** A swap succeeds exactly when the map it copied is still current and the instruction does not fail for
      no reason. Then the name has the call's item and the sample is recorded once more, and nothing else
      changes for everyone else. */
  lemma SwapMeans(s: State, t: Tid, address: MapId, name: Name, v: nat)
    requires Inv(s) && t in s.pcs && s.pcs[t].Swap? && s.latest == s.pcs[t].cur
    ensures Step(s, Advance(t, false, address)).Went?
    ensures var pc, s' := s.pcs[t], Step(s, Advance(t, false, address)).s;
            && pc.name !in s.Current() && s'.Current() == s.Current()[pc.name := pc.item]
            && s'.dropped == s.dropped && s'.pcs == s.pcs[t := Idle]
            && Recorded(s', name, v) == Recorded(s, name, v) + if name == pc.name && v == pc.v then 1 else 0
  {
    assert Relies(s, s.pcs[t]);
    SwapInv(s, t);
    var s' := Step(s, Advance(t, false, address)).s;
    assert Balanced(s, name, v) && Balanced(s', name, v);
  }

  /** Otherwise the call has failed once more, and no one sees a difference. */
  lemma SwapFails(s: State, t: Tid, spurious: bool, address: MapId, name: Name, v: nat)
    requires t in s.pcs && s.pcs[t].Swap? && (s.latest != s.pcs[t].cur || spurious)
    ensures Step(s, Advance(t, spurious, address)).Went?
    ensures var pc, s' := s.pcs[t], Step(s, Advance(t, spurious, address)).s;
            && s'.Current() == s.Current() && s'.dropped == s.dropped
            && Recorded(s', name, v) == Recorded(s, name, v)
            && s'.pcs == s.pcs[t := Undo(pc.name, pc.v, pc.failed + 1, pc.fork, pc.item)]
  {
    assert Step(s, Advance(t, spurious, address)).s.pcs[t].Undo?;
  }

  // ---------- A whole call ----------

  /** A swap of the call fails. */
  predicate Failing(s: State, ev: Event, t: Tid) {
    && ev.Advance? && ev.t == t && t in s.pcs && s.pcs[t].Swap?
    && (s.latest != s.pcs[t].cur || ev.spurious)
  }

  function FailedSwaps(s: State, evs: seq<Event>, t: Tid): nat
    decreases |evs|
  {
    if evs == [] then 0
    else
      (if Failing(s, evs[0], t) then 1 else 0)
      + match Step(s, evs[0])
        case Went(s') => FailedSwaps(s', evs[1..], t)
        case _ => 0
  }

  /** The thread is in a call all along. */
  predicate Busy(s: State, evs: seq<Event>, t: Tid)
    decreases |evs|
  {
    && t in s.pcs && !s.pcs[t].Idle?
    && (evs != [] && Step(s, evs[0]).Went? ==> Busy(Step(s, evs[0]).s, evs[1..], t))
  }

  /** The call is about this sample and its swaps have failed `n` times. */
  predicate Tracks(s: State, t: Tid, name: Name, v: nat, n: nat) {
    && t in s.pcs && !s.pcs[t].Idle? && s.pcs[t].name == name && s.pcs[t].v == v
    && if s.pcs[t].Found? then n <= 16 else s.pcs[t].failed == n
  }

  /** A step of another thread, or of none, leaves the call where it is. */
  lemma OthersKeep(s: State, ev: Event, t: Tid)
    requires t in s.pcs && Step(s, ev).Went? && (ev.Free? || ev.t != t)
    ensures t in Step(s, ev).s.pcs && Step(s, ev).s.pcs[t] == s.pcs[t]
  {
  }

  lemma TracksOwn(s: State, t: Tid, spurious: bool, address: MapId, name: Name, v: nat, n: nat)
    requires Tracks(s, t, name, v, n) && (s.pcs[t].Load? ==> n <= 16) && StepOf(s, t, spurious, address).Went?
    ensures var s' := StepOf(s, t, spurious, address).s;
            t in s'.pcs && (s'.pcs[t].Idle?
              || Tracks(s', t, name, v, n + if Failing(s, Advance(t, spurious, address), t) then 1 else 0))
  {
    match s.pcs[t]
    case Load(_, _, _) =>
    case Found(_, _, _) =>
    case Build(_, _, _, _) =>
    case Swap(_, _, _, _, _, _) =>
    case Undo(_, _, _, _, _) =>
  }

  lemma TracksStep(s: State, ev: Event, t: Tid, name: Name, v: nat, n: nat)
    requires Tracks(s, t, name, v, n) && (s.pcs[t].Load? ==> n <= 16) && Step(s, ev).Went?
    ensures t in Step(s, ev).s.pcs
    ensures Step(s, ev).s.pcs[t].Idle? || Tracks(Step(s, ev).s, t, name, v, n + if Failing(s, ev, t) then 1 else 0)
  {
    if ev.Advance? && ev.t == t {
      TracksOwn(s, t, ev.spurious, ev.address, name, v, n);
    } else {
      assert ev.Free? || ev.t != t;
      OthersKeep(s, ev, t);
    }
  }

  lemma {:induction false} TracksRun(s: State, evs: seq<Event>, t: Tid, name: Name, v: nat, n: nat)
    requires Inv(s) && Tracks(s, t, name, v, n) && Busy(s, evs, t) && Run(s, evs).Went?
    ensures Inv(Run(s, evs).s) && Tracks(Run(s, evs).s, t, name, v, n + FailedSwaps(s, evs, t))
    decreases |evs|
  {
    if evs != [] {
      var s' := Step(s, evs[0]).s;
      StepSafe(s, evs[0]);
      assert Relies(s, s.pcs[t]);
      TracksStep(s, evs[0], t, name, v, n);
      assert Busy(s', evs[1..], t);
      TracksRun(s', evs[1..], t, name, v, n + if Failing(s, evs[0], t) then 1 else 0);
    }
  }

  /** A call ends with its own step: it adds its sample, swaps its map in, or has failed too often. */
  lemma EndsWith(s: State, ev: Event, t: Tid)
    requires t in s.pcs && !s.pcs[t].Idle?
    requires Step(s, ev).Went? && t in Step(s, ev).s.pcs && Step(s, ev).s.pcs[t].Idle?
    ensures ev.Advance? && ev.t == t
    ensures || s.pcs[t].Found?
            || (s.pcs[t].Swap? && s.latest == s.pcs[t].cur && !ev.spurious)
            || (s.pcs[t].Undo? && s.pcs[t].failed > 16)
  {
  }

  /** The step that ends a call either records its sample once or, after 17 failed swaps, gives it up. */
  lemma LastStep(s: State, ev: Event, t: Tid, name: Name, v: nat, n: nat)
    requires Inv(s) && Tracks(s, t, name, v, n)
    requires Step(s, ev).Went? && t in Step(s, ev).s.pcs && Step(s, ev).s.pcs[t].Idle?
    ensures n <= 17
    ensures n < 17 ==> Step(s, ev).s.dropped == s.dropped
                       && Recorded(Step(s, ev).s, name, v) == Recorded(s, name, v) + 1
    ensures n == 17 ==> Step(s, ev).s.dropped == s.dropped + multiset{(name, v)}
                        && Recorded(Step(s, ev).s, name, v) == Recorded(s, name, v)
  {
    EndsWith(s, ev, t);
    assert Relies(s, s.pcs[t]);
    if s.pcs[t].Found? {
      FoundMeans(s, t, ev.spurious, ev.address, name, v);
    } else if s.pcs[t].Swap? {
      SwapMeans(s, t, ev.address, name, v);
    } else {
      UndoMeans(s, t, name, v);
    }
  }

  /** Whatever the other threads do meanwhile, a call ends in one of two ways: at most 16 of its swaps
      failed and the step that ends it records the sample once, or exactly 17 failed and it gives the sample
      up. */
  lemma CallEnds(s: State, t: Tid, name: Name, v: nat, evs: seq<Event>, ev: Event)
    requires Inv(s) && Step(s, Call(t, name, v)).Went?
    requires Busy(Step(s, Call(t, name, v)).s, evs, t) && Run(Step(s, Call(t, name, v)).s, evs).Went?
    requires Step(Run(Step(s, Call(t, name, v)).s, evs).s, ev).Went?
    requires var s' := Step(Run(Step(s, Call(t, name, v)).s, evs).s, ev).s; t in s'.pcs && s'.pcs[t].Idle?
    ensures var before := Run(Step(s, Call(t, name, v)).s, evs).s;
            var s', n := Step(before, ev).s, FailedSwaps(Step(s, Call(t, name, v)).s, evs, t);
            || (n <= 16 && s'.dropped == before.dropped && Recorded(s', name, v) == Recorded(before, name, v) + 1)
            || (n == 17 && s'.dropped == before.dropped + multiset{(name, v)}
                && Recorded(s', name, v) == Recorded(before, name, v))
  {
    var s1 := Step(s, Call(t, name, v)).s;
    StepSafe(s, Call(t, name, v));
    TracksRun(s1, evs, t, name, v, 0);
    LastStep(Run(s1, evs).s, ev, t, name, v, FailedSwaps(s1, evs, t));
  }

  // ---------- A call alone ----------

  /** A call that nothing disturbs, of a name that is there, records its sample with two steps. */
  lemma RecordsAgain(s: State, t: Tid, name: Name, v: nat)
    requires Inv(s) && t in s.pcs && s.pcs[t].Idle? && name in s.Current()
    ensures var evs := [Call(t, name, v), Advance(t, false, 0), Advance(t, false, 0)];
            && Run(s, evs).Went? && Run(s, evs).s.pcs == s.pcs && Run(s, evs).s.Current() == s.Current()
            && Run(s, evs).s.dropped == s.dropped && Recorded(Run(s, evs).s, name, v) == Recorded(s, name, v) + 1
  {
    var call, next := Call(t, name, v), Advance(t, false, 0);
    var s2 := Looked(s, t, name, v, 0);
    FoundMeans(s2, t, false, 0, name, v);
    RunThree(s, call, next, next);
    assert s2.pcs[t := Idle] == s.pcs;
  }

  /** A call that nothing disturbs, of a new name, publishes the name and records its sample with three. */
  lemma RecordsFirst(s: State, t: Tid, name: Name, v: nat, address: MapId)
    requires Inv(s) && t in s.pcs && s.pcs[t].Idle? && name !in s.Current() && address !in s.maps
    ensures var next := Advance(t, false, address);
            var evs := [Call(t, name, v), next, next, next];
            && Run(s, evs).Went? && Run(s, evs).s.pcs == s.pcs && Run(s, evs).s.dropped == s.dropped
            && Run(s, evs).s.Current().Keys == s.Current().Keys + {name}
            && Recorded(Run(s, evs).s, name, v) == 1
  {
    var call, next := Call(t, name, v), Advance(t, false, address);
    var s2 := Looked(s, t, name, v, address);
    var s3 := Copied(s2, t, name, v, address);
    SwapMeans(s3, t, address, name, v);
    RunFour(s, call, next, next, next, s3);
    assert s3.pcs[t := Idle] == s.pcs;
  }

  lemma RunThree(s: State, a: Event, b: Event, c: Event)
    requires Step(s, a).Went? && Step(Step(s, a).s, b).Went?
    ensures Run(s, [a, b, c]) == Step(Step(Step(s, a).s, b).s, c)
  {
    var s1 := Step(s, a).s;
    var s2 := Step(s1, b).s;
    assert [a, b, c][1..] == [b, c] && [b, c][1..] == [c];
    assert Run(s2, [c]) == Step(s2, c);
    assert Run(s1, [b, c]) == Run(s2, [c]);
  }

  lemma RunFour(s: State, a: Event, b: Event, c: Event, d: Event, s3: State)
    requires Step(s, a).Went? && Step(Step(s, a).s, b).Went? && Step(Step(Step(s, a).s, b).s, c) == Went(s3)
    ensures Run(s, [a, b, c, d]) == Step(s3, d)
  {
    RunThree(s, a, b, c);
    RunConcat(s, [a, b, c], [d]);
    assert [a, b, c] + [d] == [a, b, c, d];
    assert Run(s3, [d]) == Step(s3, d);
  }

  /** After the call has looked its name up. */
  lemma Looked(s: State, t: Tid, name: Name, v: nat, address: MapId) returns (s2: State)
    requires Inv(s) && t in s.pcs && s.pcs[t].Idle?
    ensures Step(s, Call(t, name, v)).Went?
    ensures Step(Step(s, Call(t, name, v)).s, Advance(t, false, address)) == Went(s2)
    ensures Inv(s2) && s2.maps == s.maps && s2.latest == s.latest && s2.items == s.items && s2.dropped == s.dropped
    ensures t in s2.pcs && s2.pcs == s.pcs[t := s2.pcs[t]]
    ensures if name in s.Current() then s2.pcs[t] == Found(name, v, s.Current()[name])
            else s2.pcs[t] == Build(name, v, 0, s.latest)
  {
    StepSafe(s, Call(t, name, v));
    var s1 := Step(s, Call(t, name, v)).s;
    StepSafe(s1, Advance(t, false, address));
    s2 := Step(s1, Advance(t, false, address)).s;
  }

  /** After the call has copied the current map. */
  lemma Copied(s: State, t: Tid, name: Name, v: nat, address: MapId) returns (s': State)
    requires Inv(s) && t in s.pcs && s.pcs[t] == Build(name, v, 0, s.latest) && address !in s.maps
    ensures Step(s, Advance(t, false, address)) == Went(s')
    ensures Inv(s') && s'.Current() == s.Current() && s'.latest == s.latest && s'.dropped == s.dropped
    ensures t in s'.pcs && s'.pcs == s.pcs[t := s'.pcs[t]]
    ensures s'.pcs[t].Swap? && s'.pcs[t].cur == s.latest && s'.pcs[t].name == name && s'.pcs[t].v == v
    ensures Recorded(s', name, v) == 0
  {
    assert Relies(s, s.pcs[t]);
    BuildInv(s, t, address);
    s' := Step(s, Advance(t, false, address)).s;
  }
}
