/** The client caches as the factories keep them: the fields and the sections of a call that update
    them in place, each proved to be its event of the state machine.
 */
module ClientCache {
  import opened Options
  import opened ClientModel
  import opened ClientRuns

  class Factories {
    var counter: nat
    var links: map<Id, Link>
    var wrappers: map<Id, Wrapper>
    var errors: set<Id>
    var shared: map<Peer, Id>
    var caches: map<Key, Option<Id>>
    var calls: map<Group, Call>

    function View(): Clients
      reads this
    {
      Clients(counter, links, wrappers, errors, shared, caches, calls)
    }

    constructor ()
      ensures View() == NO_CLIENTS
    {
      counter, links, wrappers, errors, shared, caches, calls := 0, map[], map[], {}, map[], map[], map[];
    }

    // ---------- The sections ----------

    /** A connection comes up or breaks, or a reply shows that the peer is the wrong service. */
    method Report(t: Id, ready: bool, wrong: bool)
      requires t in links
      modifies this`links
      ensures View() == Step(old(View()), DoReport(t, ready, wrong)) && Extends(old(links), links)
    {
      links := links[t := Link(links[t].peer, ready, links[t].bad + if wrong then 1 else 0)];
    }

    /** A client that stands for an error takes the next id. */
    method NewError() returns (id: Id)
      modifies this`counter, this`errors
      ensures id == old(counter) && View() == old(View()).(counter := id + 1, errors := old(errors) + {id})
    {
      id := counter;
      counter := counter + 1;
      errors := errors + {id};
    }

    /** The shared cache's create_or_reinit_client, under its lock. */
    method Serve(p: Peer, known: bool, made: bool, ready: bool) returns (stage: Stage)
      requires p in shared ==> shared[p] in links
      modifies this`counter, this`links, this`errors, this`shared
      ensures View() == ClientModel.Serve(old(View()), p, known, made, ready)
      ensures stage == StageOf(old(View()), p, known, made, ready)
    {
      if p in shared && links[shared[p]].Good() {
        return Served(shared[p], links[shared[p]], false);
      }
      if known && made {
        var t := counter;
        counter := counter + 1;
        links := links[t := Link(p, ready, 0)];
        shared := shared[p := t];
        return Served(t, links[t], true);
      }
      var e := NewError();
      if known {
        shared := shared - {p};
      }
      return Refused;
    }

    /** Takes the group's lock and an entry for the peer, a null one if there was none. */
    method Begin(g: Group, p: Peer, force: bool)
      requires g !in calls
      modifies this`caches, this`calls
      ensures View() == ClientModel.Begin(old(View()), g, p, force)
    {
      if Key(g, p) !in caches {
        caches := caches[Key(g, p) := None];
      }
      calls := calls[g := Call(p, force, caches[Key(g, p)], counter, Waiting)];
      assert caches == ClientModel.Begin(old(View()), g, p, force).caches;
    }

    /** The call's turn under the shared lock. */
    method Ask(g: Group, known: bool, made: bool, ready: bool)
      requires g in calls && (calls[g].peer in shared ==> shared[calls[g].peer] in links)
      modifies this`counter, this`links, this`errors, this`shared, this`calls
      ensures View() == ClientModel.Ask(old(View()), g, known, made, ready)
    {
      var stage := Serve(calls[g].peer, known, made, ready);
      calls := calls[g := calls[g].(stage := stage)];
    }

    /** Gives up the group's lock; a null entry goes. */
    method Release(g: Group)
      requires g in calls
      modifies this`calls, this`caches
      ensures View() == Released(old(View()), g)
    {
      if calls[g].entry.None? {
        caches := caches - {Key(g, calls[g].peer)};
      }
      calls := calls - {g};
    }

    /** A new entry or a forced call: a new wrapper replaces the cached one. */
    method FinishCreate(g: Group) returns (id: Id)
      requires View().Ready(g) && calls[g].stage.Served? && calls[g].Creates()
      modifies this`counter, this`wrappers, this`caches, this`calls
      ensures View() == Finish(old(View()), g) && id == old(counter)
    {
      var c := calls[g];
      PutBack(caches, Key(g, c.peer), Some(counter));
      Release(g);
      id := counter;
      counter := counter + 1;
      wrappers := wrappers[id := Wrapper(g, c.peer, c.stage.transport)];
      caches := caches[Key(g, c.peer) := Some(id)];
    }

    /** An unforced call on a cached wrapper, which gets the transport. */
    method FinishReinit(g: Group) returns (id: Id)
      requires View().Ready(g) && calls[g].stage.Served? && !calls[g].Creates()
      requires Grounded(View(), DoFinish(g))
      modifies this`wrappers, this`caches, this`calls
      ensures View() == Finish(old(View()), g) && id == old(calls)[g].entry.value
    {
      var c := calls[g];
      Release(g);
      id := c.entry.value;
      wrappers := wrappers[id := wrappers[id].(transport := c.stage.transport)];
    }

    /** Installs the answer and gives up the group's lock; a refused call gets an error client. */
    method FinishCall(g: Group) returns (r: Returned)
      requires View().Ready(g)
      requires Grounded(View(), DoFinish(g))
      modifies this`counter, this`wrappers, this`errors, this`caches, this`calls
      ensures View() == Finish(old(View()), g) && Some(r) == Result(old(View()), DoFinish(g))
    {
      var c, id := calls[g], 0;
      if c.stage.Refused? {
        Release(g);
        id := NewError();
      } else if c.Creates() {
        id := FinishCreate(g);
      } else {
        id := FinishReinit(g);
      }
      r := Returned(c, id, c.stage.Served?);
    }

    // ---------- Calls ----------

    /** A whole call that no other group interrupts. */
    method CreateOrReinit(g: Group, p: Peer, force: bool, known: bool, made: bool, ready: bool)
      returns (id: Id, ok: bool)
      requires Sound(View()) && g !in calls
      modifies this
      ensures Sound(View()) && View() == WholeCall(old(View()), g, p, force, known, made, ready)
      ensures id == WholeResult(old(View()), g, p, force, known, made, ready).id
      ensures ok == WholeResult(old(View()), g, p, force, known, made, ready).ok
    {
      WholeSteps(View(), g, p, force, known, made, ready);
      SoundStep(View(), DoBegin(g, p, force));
      var _ := Section(DoBegin(g, p, force));
      SoundStep(View(), DoAsk(g, known, made, ready));
      var _ := Section(DoAsk(g, known, made, ready));
      SoundStep(View(), DoFinish(g));
      var r := Section(DoFinish(g));
      id, ok := r.value.id, r.value.ok;
    }

    /** The first try of a request that wants an answer: the cached wrapper's transport, unless there is
        none or it is bad. */
    method Pick(g: Group, p: Peer) returns (t: Option<Id>)
      requires Sound(View()) && g !in calls
      ensures t.Some? ==> Key(g, p) in caches && Installed(View(), g, p, caches[Key(g, p)].value, t.value)
                          && links[t.value].bad == 0
      ensures t.None? ==> Key(g, p) !in caches || links[wrappers[caches[Key(g, p)].value].transport].bad > 0
    {
      var k := Key(g, p);
      if k in caches {
        var u := wrappers[caches[k].value].transport;
        if links[u].bad == 0 {
          return Some(u);
        }
      }
      return None;
    }

    /** One event of the state machine; nothing happens when it is not its turn. */
    method Section(ev: Event) returns (done: Option<Returned>)
      requires Grounded(View(), ev)
      modifies this
      ensures View() == Step(old(View()), ev) && done == Result(old(View()), ev)
    {
      done := None;
      match ev
      case DoBegin(g, p, force) =>
        if g !in calls {
          Begin(g, p, force);
        }
      case DoAsk(g, known, made, ready) =>
        if g in calls && calls[g].stage.Waiting? {
          Ask(g, known, made, ready);
        }
      case DoFinish(g) =>
        if View().Ready(g) {
          var r := FinishCall(g);
          done := Some(r);
        }
      case DoReport(t, ready, wrong) =>
        if t in links {
          Report(t, ready, wrong);
        }
    }
  }

  /** Any interleaving of sections makes a run of the state machine and returns what that returns. */
  method Interleave(events: seq<Event>) returns (states: seq<Clients>, done: seq<Option<Returned>>)
    ensures Trace(events, states) && |done| == |events|
    ensures forall i :: 0 <= i < |events| ==> done[i] == ResultAt(events, states, i)
  {
    var f := new Factories();
    states, done := [f.View()], [];
    for k := 0 to |events|
      invariant fresh(f) && |states| == k + 1 && |done| == k && states[k] == f.View()
      invariant Trace(events[..k], states)
      invariant forall i :: 0 <= i < k ==> done[i] == Result(states[i], events[i])
    {
      ghost var before := states;
      TraceGrounded(events[..k], states, k, events[k]);
      var one := f.Section(events[k]);
      Longer(events, states, k, f.View());
      states, done := states + [f.View()], done + [one];
      assert forall i :: 0 <= i < k ==> states[i] == before[i];
    }
    assert events[..|events|] == events;
  }

  lemma SoundStep(s: Clients, ev: Event)
    requires Sound(s)
    ensures Grounded(s, ev) && Sound(Step(s, ev))
  {
    SoundGrounded(s, ev);
    StepSound(s, ev);
  }

  lemma Longer(events: seq<Event>, states: seq<Clients>, k: nat, next: Clients)
    requires k < |events| && Trace(events[..k], states) && next == Step(states[k], events[k])
    ensures Trace(events[..k + 1], states + [next])
  {
  }
}
