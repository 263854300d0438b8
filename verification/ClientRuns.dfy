/** What holds of every interleaving of calls of any number of groups. `states[k]` is the state just
    before event k of a run.
 */
module ClientRuns {
  import opened Options
  import opened ClientModel

  // ---------- Where a call's knowledge comes from ----------

  /** The answer to a call is what the shared cache had at that moment. */
  predicate AnsweredBy(ev: Event, s: Clients, g: Group, c: Call) {
    && ev.DoAsk? && ev.g == g && g in s.calls && s.calls[g] == c.(stage := Waiting)
    && c.stage == StageOf(s, c.peer, ev.known, ev.made, ev.ready)
  }

  /** A call of `g` in progress before event n: it began at event b, it remembers the counter and
      the cache entry of that moment, and if it was answered then at event a. */
  ghost predicate Story(events: seq<Event>, states: seq<Clients>, n: nat, g: Group, c: Call, b: nat, a: nat) {
    && b < n <= |events| < |states| && events[b] == DoBegin(g, c.peer, c.force) && g !in states[b].calls
    && c.before == states[b].counter && c.entry == states[b].Entry(Key(g, c.peer))
    && (!c.stage.Waiting? ==> b < a < n && AnsweredBy(events[a], states[a], g, c))
  }

  /** The group's lock is held from event b on. */
  ghost predicate Locked(states: seq<Clients>, g: Group, b: nat, n: nat) {
    n < |states| && forall k :: b < k <= n ==> g in states[k].calls
  }

  /** A call in progress changes only by being answered. */
  lemma CallKept(s: Clients, ev: Event, g: Group)
    requires g in s.calls && g in Step(s, ev).calls
    ensures var c, c' := s.calls[g], Step(s, ev).calls[g];
            c' == c || (c.stage.Waiting? && c' == c.(stage := c'.stage) && AnsweredBy(ev, s, g, c'))
  {
  }

  lemma CallBegun(s: Clients, ev: Event, g: Group)
    requires g !in s.calls && g in Step(s, ev).calls
    ensures var c := Step(s, ev).calls[g];
            && ev == DoBegin(g, c.peer, c.force) && c.stage.Waiting?
            && c.before == s.counter && c.entry == s.Entry(Key(g, c.peer))
  {
  }

  lemma {:induction false} CallStory(events: seq<Event>, states: seq<Clients>, n: nat, g: Group)
    returns (b: nat, a: nat)
    requires Trace(events, states) && n <= |events| && g in states[n].calls
    ensures Story(events, states, n, g, states[n].calls[g], b, a) && Locked(states, g, b, n)
  {
    var s, ev := states[n - 1], events[n - 1];
    if g !in s.calls {
      b, a := n - 1, 0;
      CallBegun(s, ev, g);
    } else {
      b, a := CallStory(events, states, n - 1, g);
      CallKept(s, ev, g);
      if states[n].calls[g] != s.calls[g] {
        a := n - 1;
      }
    }
  }

  // ---------- Ids ----------

  /** No client made so far has the id. */
  predicate Unissued(s: Clients, id: Id) {
    id !in s.links && id !in s.wrappers && id !in s.errors
  }

  lemma {:induction false} CounterGrows(events: seq<Event>, states: seq<Clients>, i: nat, k: nat)
    requires Trace(events, states) && i <= k <= |events|
    ensures states[i].counter <= states[k].counter
  {
    if i < k {
      CounterGrows(events, states, i, k - 1);
      TraceSound(events, states, k - 1);
      StepSound(states[k - 1], events[k - 1]);
    }
  }

  /** What event i returned, if it ended a call. */
  function ResultAt(events: seq<Event>, states: seq<Clients>, i: nat): Option<Returned>
    requires i < |events| < |states|
  {
    Result(states[i], events[i])
  }

  /** Every call that returns: it began at some event b and was answered at some event a by what the
      shared cache had just then; it succeeds exactly when that was a transport. The transport is the
      shared cache's entry for that peer right after the answer. It was made for this call, or it was
      there before, ready and not bad. A successful call leaves its wrapper, on that transport, in the
      group's cache; a failed one leaves the cache as it was before the call. */
  lemma Returns(events: seq<Event>, states: seq<Clients>, j: nat) returns (b: nat, a: nat)
    requires Trace(events, states) && j < |events| && ResultAt(events, states, j).Some?
    ensures var g, r := events[j].g, ResultAt(events, states, j).value;
            && Story(events, states, j, g, r.call, b, a) && Locked(states, g, b, j) && b < a < j
            && (r.ok <==> r.call.stage.Served?)
            && (r.ok ==> && Handed(states[a], states[a + 1], r.call.peer, r.call.stage.transport)
                         && Installed(states[j + 1], g, r.call.peer, r.id, r.call.stage.transport))
            && (!r.ok ==> r.id in states[j + 1].errors && Unissued(states[j], r.id)
                          && states[j + 1].Entry(Key(g, r.call.peer)) == states[b].Entry(Key(g, r.call.peer)))
  {
    TraceSound(events, states, j);
    TraceSound(events, states, j + 1);
    var g := events[j].g;
    b, a := CallStory(events, states, j, g);
    TraceSound(events, states, a);
    AskMeans(states[a], g, events[a].known, events[a].made, events[a].ready);
    FinishMeans(states[j], g);
  }

  /** The shared cache hands out a transport: the one it has if that is ready and was never the wrong
      service, and otherwise a new one. */
  predicate Handed(s: Clients, s': Clients, p: Peer, t: Id) {
    && p in s'.shared && s'.shared[p] == t && LeadsTo(s'.links, t, p)
    && if p in s.shared && s.shared[p] in s.links && s.links[s.shared[p]].ready && s.links[s.shared[p]].bad == 0
       then t == s.shared[p] else t == s.counter
  }

  predicate Installed(s: Clients, g: Group, p: Peer, id: Id, t: Id) {
    s.Entry(Key(g, p)) == Some(id) && id in s.wrappers && s.wrappers[id] == Wrapper(g, p, t) && LeadsTo(s.links, t, p)
  }

  lemma FinishMeans(s: Clients, g: Group)
    requires Sound(s) && s.Ready(g)
    ensures var s', r, k := Finish(s, g), Result(s, DoFinish(g)).value, Key(g, s.calls[g].peer);
            if r.ok then Installed(s', g, k.peer, r.id, r.call.stage.transport)
            else r.id in s'.errors && Unissued(s, r.id) && s'.Entry(k) == r.call.entry
  {
  }

  lemma AskMeans(s: Clients, g: Group, known: bool, made: bool, ready: bool)
    requires Sound(s) && g in s.calls && s.calls[g].stage.Waiting?
    ensures var s', p := Ask(s, g, known, made, ready), s.calls[g].peer;
            s'.calls[g].stage.Served? ==> Handed(s, s', p, s'.calls[g].stage.transport)
  {
  }

  /** A successful create returns an id above every id issued before the call began, and so above
      every id that a call returned before that. */
  lemma CreateIsNewest(events: seq<Event>, states: seq<Clients>, j: nat) returns (b: nat, a: nat)
    requires Trace(events, states) && j < |events| && ResultAt(events, states, j).Some?
    requires ResultAt(events, states, j).value.ok && ResultAt(events, states, j).value.call.Creates()
    ensures var r := ResultAt(events, states, j).value;
            && Story(events, states, j, events[j].g, r.call, b, a) && b < j
            && (forall i :: i in states[b].links || i in states[b].wrappers || i in states[b].errors ==> i < r.id)
            && (forall i :: 0 <= i < b && ResultAt(events, states, i).Some? ==>
                              ResultAt(events, states, i).value.id < r.id)
  {
    var r := ResultAt(events, states, j).value;
    b, a := CallStory(events, states, j, events[j].g);
    TraceSound(events, states, b);
    CounterGrows(events, states, b, j);
    forall i | 0 <= i < b && ResultAt(events, states, i).Some? ensures ResultAt(events, states, i).value.id < r.id {
      TraceSound(events, states, i);
      FinishMeans(states[i], events[i].g);
      TraceSound(events, states, i + 1);
      CounterGrows(events, states, i + 1, b);
    }
  }

  // ---------- Identity ----------

  /** Event k replaces the cached wrapper of `key` by a new one. */
  predicate Recreates(events: seq<Event>, states: seq<Clients>, k: nat, key: Key)
    requires k < |events| < |states|
  {
    var r := ResultAt(events, states, k);
    r.Some? && r.value.ok && r.value.call.Creates() && key == Key(events[k].g, r.value.call.peer)
  }

  lemma EntryStep(s: Clients, ev: Event, key: Key, id: Id)
    requires Sound(s) && s.Entry(key) == Some(id)
    requires var r := Result(s, ev);
             !(r.Some? && r.value.ok && r.value.call.Creates() && key == Key(ev.g, r.value.call.peer))
    ensures Step(s, ev).Entry(key) == Some(id)
  {
  }

  /** A cached wrapper stays until a successful create for the same group and peer. */
  lemma {:induction false} EntryStays(events: seq<Event>, states: seq<Clients>, i: nat, k: nat, key: Key, id: Id)
    requires Trace(events, states) && i <= k <= |events| && states[i].Entry(key) == Some(id)
    requires forall m :: i <= m < k ==> !Recreates(events, states, m, key)
    ensures states[k].Entry(key) == Some(id)
  {
    if i < k {
      EntryStays(events, states, i, k - 1, key, id);
      TraceSound(events, states, k - 1);
      assert !Recreates(events, states, k - 1, key);
      EntryStep(states[k - 1], events[k - 1], key, id);
    }
  }

  /** Two successful calls of one group for one peer, the later one not forced, with no successful
      create for them in between, return the same wrapper. */
  lemma SameWrapper(events: seq<Event>, states: seq<Clients>, i: nat, j: nat)
    requires Trace(events, states) && i < j < |events|
    requires var r, r' := ResultAt(events, states, i), ResultAt(events, states, j);
             && r.Some? && r'.Some? && r.value.ok && r'.value.ok && !r'.value.call.force
             && events[i].g == events[j].g && r.value.call.peer == r'.value.call.peer
             && forall m :: i < m < j ==> !Recreates(events, states, m, Key(events[i].g, r.value.call.peer))
    ensures ResultAt(events, states, i).value.id == ResultAt(events, states, j).value.id
  {
    var r, g := ResultAt(events, states, i).value, events[i].g;
    TraceSound(events, states, i);
    FinishMeans(states[i], g);
    EntryStays(events, states, i + 1, j, Key(g, r.call.peer), r.id);
    TraceSound(events, states, j);
  }

  /** At every point of a run the cache of a group with no call in progress holds only wrappers of that
      group and peer, no null and no error client. */
  lemma NoNulls(events: seq<Event>, states: seq<Clients>, k: nat, key: Key)
    requires Trace(events, states) && k <= |events| && key.group !in states[k].calls && key in states[k].caches
    ensures var s := states[k];
            && s.caches[key].Some? && s.caches[key].value in s.wrappers && s.caches[key].value !in s.errors
            && var w := s.wrappers[s.caches[key].value];
               w.group == key.group && w.peer == key.peer && LeadsTo(s.links, w.transport, key.peer)
  {
    TraceSound(events, states, k);
  }

  /** The shared cache has transport `t` for a peer. */
  predicate Shares(s: Clients, p: Peer, t: Id) {
    p in s.shared && s.shared[p] == t
  }

  /** A call for the peer is answered while transport `t` is not ready or was the wrong service, with a new
      transport, or with none although the address is known. */
  predicate Drops(s: Clients, ev: Event, p: Peer, t: Id) {
    && ev.DoAsk? && ev.g in s.calls && s.calls[ev.g].peer == p && s.calls[ev.g].stage.Waiting? && ev.known
    && Shares(s, p, t) && t in s.links && (!s.links[t].ready || s.links[t].bad > 0)
  }

  lemma SharedStep(s: Clients, ev: Event, p: Peer, t: Id)
    requires Sound(s) && Shares(s, p, t)
    ensures !Shares(Step(s, ev), p, t) <==> Drops(s, ev, p, t)
  {
  }

  /** A transport the shared cache had and has no more was let go while a call for that peer was answered, at
      a moment when it was not ready or bad. */
  lemma {:induction false} LetGo(events: seq<Event>, states: seq<Clients>, i: nat, k: nat, p: Peer, t: Id)
    returns (m: nat)
    requires Trace(events, states) && i <= k <= |events| && Shares(states[i], p, t) && !Shares(states[k], p, t)
    ensures i <= m < k && Drops(states[m], events[m], p, t)
    decreases k - i
  {
    TraceSound(events, states, k - 1);
    if Shares(states[k - 1], p, t) {
      SharedStep(states[k - 1], events[k - 1], p, t);
      m := k - 1;
    } else {
      m := LetGo(events, states, i, k - 1, p, t);
    }
  }

  // ---------- Wrong services ----------

  /** A report sets whether the transport is ready and counts a wrong service; nothing else changes either. */
  lemma ReportMeans(s: Clients, ev: Event, t: Id)
    requires t in s.links
    ensures t in Step(s, ev).links
    ensures var was, now := s.links[t], Step(s, ev).links[t];
            if ev.DoReport? && ev.t == t then now == Link(was.peer, ev.ready, if ev.wrong then was.bad + 1 else was.bad)
            else t != s.counter ==> now == was
  {
  }

  lemma {:induction false} BadStays(events: seq<Event>, states: seq<Clients>, i: nat, k: nat, t: Id)
    requires Trace(events, states) && i <= k <= |events| && t in states[i].links && states[i].links[t].bad > 0
    ensures t in states[k].links && states[k].links[t].bad > 0
    decreases k - i
  {
    if i < k {
      BadStays(events, states, i, k - 1, t);
      TraceSound(events, states, k - 1);
      ReportMeans(states[k - 1], events[k - 1], t);
    }
  }

  /** A transport that was reported to be the wrong service is never handed out again. */
  lemma NeverAgain(events: seq<Event>, states: seq<Clients>, i: nat, k: nat, g: Group)
    requires Trace(events, states) && i < k < |events| && events[i].DoReport? && events[i].wrong
    requires events[i].t in states[i].links
    requires g in states[k].calls && states[k].calls[g].stage.Waiting? && events[k].DoAsk? && events[k].g == g
    ensures var stage := states[k + 1].calls[g].stage;
            g in states[k + 1].calls && (stage.Served? ==> stage.transport != events[i].t)
  {
    var t := events[i].t;
    ReportMeans(states[i], events[i], t);
    BadStays(events, states, i + 1, k, t);
    TraceSound(events, states, k);
    AskMeans(states[k], g, events[k].known, events[k].made, events[k].ready);
  }

  // ---------- A whole call that no other group interrupts ----------

  function WholeCall(s: Clients, g: Group, p: Peer, force: bool, known: bool, made: bool, ready: bool): Clients
    requires g !in s.calls
  {
    Finish(Ask(Begin(s, g, p, force), g, known, made, ready), g)
  }

  function WholeResult(s: Clients, g: Group, p: Peer, force: bool, known: bool, made: bool, ready: bool): Returned
    requires g !in s.calls
  {
    Result(Ask(Begin(s, g, p, force), g, known, made, ready), DoFinish(g)).value
  }

  /** These are its three events. */
  lemma WholeSteps(s: Clients, g: Group, p: Peer, force: bool, known: bool, made: bool, ready: bool)
    requires g !in s.calls
    ensures var s1 := Step(s, DoBegin(g, p, force));
            var s2 := Step(s1, DoAsk(g, known, made, ready));
            && Step(s2, DoFinish(g)) == WholeCall(s, g, p, force, known, made, ready)
            && Result(s2, DoFinish(g)) == Some(WholeResult(s, g, p, force, known, made, ready))
  {
    var s1 := Begin(s, g, p, force);
    assert Step(s, DoBegin(g, p, force)) == s1;
    var s2 := Ask(s1, g, known, made, ready);
    assert Step(s1, DoAsk(g, known, made, ready)) == s2;
    assert s2.Ready(g);
  }

  /** The call when it is about to end. */
  lemma WholeAsked(s: Clients, g: Group, p: Peer, force: bool, known: bool, made: bool, ready: bool)
    requires g !in s.calls
    ensures var k, stage := Key(g, p), StageOf(s, p, known, made, ready);
            Ask(Begin(s, g, p, force), g, known, made, ready)
            == Serve(s, p, known, made, ready).(caches := s.caches[k := s.Entry(k)],
                                                calls := s.calls[g := Call(p, force, s.Entry(k), s.counter, stage)])
  {
    var k, s1 := Key(g, p), Begin(s, g, p, force);
    var c := s1.calls[g];
    assert s1.Usable(p) == s.Usable(p);
    assert s1.calls[g := c.(stage := StageOf(s, p, known, made, ready))]
        == s.calls[g := Call(p, force, s.Entry(k), s.counter, StageOf(s, p, known, made, ready))];
  }

  lemma RemoveAdded<K, V>(m: map<K, V>, k: K, v: V)
    requires k !in m
    ensures m[k := v] - {k} == m
  {
  }

  lemma PutSame<K, V>(m: map<K, V>, k: K)
    requires k in m
    ensures m[k := m[k]] == m
  {
  }

  /** The shared cache hands out what it has if that is ready and was never the wrong service. Otherwise it
      makes a new transport, if it can; if not the entry goes, but stays if the address is not known. */
  lemma ServeMeans(s: Clients, p: Peer, known: bool, made: bool, ready: bool)
    ensures var s', stage := Serve(s, p, known, made, ready), StageOf(s, p, known, made, ready);
            && s.counter <= s'.counter && s'.calls == s.calls && s'.wrappers == s.wrappers && s'.caches == s.caches
            && if p in s.shared && s.shared[p] in s.links && s.links[s.shared[p]].ready && s.links[s.shared[p]].bad == 0
               then s' == s && stage == Served(s.shared[p], s.links[s.shared[p]], false)
               else if known && made
               then
                 && stage == Served(s.counter, Link(p, ready, 0), true) && s'.counter == s.counter + 1
                 && s'.links == s.links[s.counter := Link(p, ready, 0)] && s'.shared == s.shared[p := s.counter]
               else
                 && stage.Refused? && s'.links == s.links && s'.errors == s.errors + {s.counter}
                 && s'.counter == s.counter + 1 && s'.shared == if known then s.shared - {p} else s.shared
  {
  }

  /** What is left when the call has ended. */
  lemma WholeEnds(s: Clients, g: Group, p: Peer, force: bool, known: bool, made: bool, ready: bool)
    requires g !in s.calls
    ensures var s', r := WholeCall(s, g, p, force, known, made, ready), WholeResult(s, g, p, force, known, made, ready);
            var s1 := Serve(s, p, known, made, ready);
            && s'.calls == s.calls && s'.shared == s1.shared && s'.links == s1.links
            && r.call == Call(p, force, s.Entry(Key(g, p)), s.counter, StageOf(s, p, known, made, ready))
            && r.ok == r.call.stage.Served?
            && r.id == if r.ok && !r.call.Creates() then r.call.entry.value else s1.counter
  {
    WholeAsked(s, g, p, force, known, made, ready);
    RemoveAdded(s.calls, g, Ask(Begin(s, g, p, force), g, known, made, ready).calls[g]);
  }

  lemma NotIssued(s: Clients, id: Id)
    requires Numbered(s) && s.counter <= id
    ensures Unissued(s, id)
  {
  }

  lemma EntryIs(s: Clients, g: Group, p: Peer)
    requires Sound(s) && g !in s.calls
    ensures s.Entry(Key(g, p)).Some? <==> Key(g, p) in s.caches
  {
  }

  lemma WholeInstalls(s: Clients, g: Group, p: Peer, force: bool, known: bool, made: bool, ready: bool)
    requires Sound(s) && g !in s.calls && StageOf(s, p, known, made, ready).Served?
    ensures var s', r := WholeCall(s, g, p, force, known, made, ready), WholeResult(s, g, p, force, known, made, ready);
            Installed(s', g, p, r.id, r.call.stage.transport)
  {
    var s1 := Begin(s, g, p, force);
    BeginSound(s, g, p, force);
    AskSound(s1, g, known, made, ready);
    FinishMeans(Ask(s1, g, known, made, ready), g);
    WholeEnds(s, g, p, force, known, made, ready);
  }

  /** A call succeeds exactly when the shared cache has a good transport or can make one. Then its
      wrapper is on the shared transport for that peer, which is not bad: the cached wrapper, or for a
      forced call or a new entry one with an id never issued. */
  lemma WholeCallMeans(s: Clients, g: Group, p: Peer, force: bool, known: bool, made: bool, ready: bool)
    requires Sound(s) && g !in s.calls
    ensures var s', r := WholeCall(s, g, p, force, known, made, ready), WholeResult(s, g, p, force, known, made, ready);
            && s'.calls == s.calls
            && (r.ok <==>
                  || (p in s.shared && s.links[s.shared[p]].ready && s.links[s.shared[p]].bad == 0)
                  || (known && made))
            && (r.ok ==> p in s'.shared && Installed(s', g, p, r.id, s'.shared[p]) && s'.links[s'.shared[p]].bad == 0)
            && (r.ok && !force && Key(g, p) in s.caches ==> s.caches[Key(g, p)] == Some(r.id))
            && (r.ok && (force || Key(g, p) !in s.caches) ==> Unissued(s, r.id))
  {
    ServeMeans(s, p, known, made, ready);
    WholeEnds(s, g, p, force, known, made, ready);
    EntryIs(s, g, p);
    var r := WholeResult(s, g, p, force, known, made, ready);
    if r.ok {
      WholeInstalls(s, g, p, force, known, made, ready);
      if r.call.Creates() {
        NotIssued(s, r.id);
      }
    }
  }

  /** A failed call leaves every cache as it was. */
  lemma WholeCallFails(s: Clients, g: Group, p: Peer, force: bool, known: bool, made: bool, ready: bool)
    requires Sound(s) && g !in s.calls && !(known && made)
    requires p in s.shared ==> !s.links[s.shared[p]].ready || s.links[s.shared[p]].bad > 0
    ensures var s', r := WholeCall(s, g, p, force, known, made, ready), WholeResult(s, g, p, force, known, made, ready);
            s'.caches == s.caches && s'.wrappers == s.wrappers && r.id in s'.errors && Unissued(s, r.id)
  {
    WholeAsked(s, g, p, force, known, made, ready);
    var k := Key(g, p);
    if k in s.caches {
      PutSame(s.caches, k);
    } else {
      RemoveAdded(s.caches, k, None);
    }
  }
}
