/** The two-level cache of RPC clients as a state machine. Each Raft group caches one wrapper per
    peer; a wrapper forwards to a transport, and all groups share one cache of transports. Every
    client ever made, also one that stands for an error, takes the next number of one counter as
    its id.

    A call holds its group's lock throughout and the shared lock in the middle, so calls of
    different groups interleave. The events are the sections between: the beginning of a call, its
    turn under the shared lock, and its end. Whatever other groups do happens between them.
 */
module ClientModel {
  import opened Options

  type Peer = nat
  type Group = nat
  type Id = nat

  /** A transport: whom it connects to, whether its connection is ready, and how often its peer
      turned out to be the wrong service. */
  datatype Link = Link(peer: Peer, ready: bool, bad: nat) {
    predicate Good() {
      ready && bad == 0
    }
  }

  /** A group's wrapper of a transport. */
  datatype Wrapper = Wrapper(group: Group, peer: Peer, transport: Id)

  /** The place of a peer in a group's cache. */
  datatype Key = Key(group: Group, peer: Peer)

  /** What the shared cache answered: a transport as it was then, made for this call or not, or
      none. */
  datatype Stage = Waiting | Served(transport: Id, was: Link, isNew: bool) | Refused

  /** A call in progress: `entry` is the cached wrapper, none for a new entry, and `before` the
      counter when the call began. */
  datatype Call = Call(peer: Peer, force: bool, entry: Option<Id>, before: nat, stage: Stage) {
    /** A new entry and a forced call get a new wrapper. */
    predicate Creates() {
      force || entry.None?
    }
  }

  datatype Clients = Clients(
    counter: nat,
    links: map<Id, Link>,
    wrappers: map<Id, Wrapper>,
    errors: set<Id>,
    shared: map<Peer, Id>,
    caches: map<Key, Option<Id>>,
    calls: map<Group, Call>)
  {
    /** The shared cache has a transport for the peer that is ready and not bad. */
    predicate Usable(p: Peer) {
      p in shared && shared[p] in links && links[shared[p]].Good()
    }

    function Entry(k: Key): Option<Id> {
      if k in caches then caches[k] else None
    }

    /** A call of the group is in progress and has been answered. */
    predicate Ready(g: Group) {
      g in calls && !calls[g].stage.Waiting?
    }
  }

  const NO_CLIENTS := Clients(0, map[], map[], {}, map[], map[], map[])

  datatype Event =
    | DoBegin(g: Group, p: Peer, force: bool)
    | DoAsk(g: Group, known: bool, made: bool, ready: bool)
    | DoFinish(g: Group)
    | DoReport(t: Id, ready: bool, wrong: bool)

  /** A finished call and what it returned. */
  datatype Returned = Returned(call: Call, id: Id, ok: bool)

  // ---------- The sections ----------

  /** What the shared cache answers. */
  function StageOf(s: Clients, p: Peer, known: bool, made: bool, ready: bool): Stage {
    if s.Usable(p) then Served(s.shared[p], s.links[s.shared[p]], false)
    else if known && made then Served(s.counter, Link(p, ready, 0), true)
    else Refused
  }

  /** The shared cache's create_or_reinit_client, under its lock. The peer's address may be
      unknown, and then the entry stays as it is; the transport may fail to be made, and then the
      entry goes. */
  function Serve(s: Clients, p: Peer, known: bool, made: bool, ready: bool): Clients {
    if s.Usable(p) then s
    else if known && made then
      s.(counter := s.counter + 1, links := s.links[s.counter := Link(p, ready, 0)], shared := s.shared[p := s.counter])
    else
      s.(counter := s.counter + 1, errors := s.errors + {s.counter},
         shared := if known then s.shared - {p} else s.shared)
  }

  /** Takes the group's lock and an entry for the peer, a null one if there was none. */
  function Begin(s: Clients, g: Group, p: Peer, force: bool): Clients {
    var k := Key(g, p);
    s.(caches := s.caches[k := s.Entry(k)], calls := s.calls[g := Call(p, force, s.Entry(k), s.counter, Waiting)])
  }

  function Ask(s: Clients, g: Group, known: bool, made: bool, ready: bool): Clients
    requires g in s.calls
  {
    var c := s.calls[g];
    Serve(s, c.peer, known, made, ready).(calls := s.calls[g := c.(stage := StageOf(s, c.peer, known, made, ready))])
  }

  /** Installs the answer and gives up the group's lock. */
  function Finish(s: Clients, g: Group): Clients
    requires s.Ready(g)
  {
    var c := s.calls[g];
    var k, s' := Key(g, c.peer), s.(calls := s.calls - {g});
    if c.stage.Refused? then
      s'.(counter := s.counter + 1, errors := s.errors + {s.counter},
          caches := if c.entry.None? then s.caches - {k} else s.caches)
    else if c.Creates() then
      s'.(counter := s.counter + 1, wrappers := s.wrappers[s.counter := Wrapper(g, c.peer, c.stage.transport)],
          caches := s.caches[k := Some(s.counter)])
    else s'.(wrappers := s.wrappers[c.entry.value := Wrapper(g, c.peer, c.stage.transport)])
  }

  function Step(s: Clients, ev: Event): Clients {
    match ev
    case DoBegin(g, p, force) => if g in s.calls then s else Begin(s, g, p, force)
    case DoAsk(g, known, made, ready) =>
      if g in s.calls && s.calls[g].stage.Waiting? then Ask(s, g, known, made, ready) else s
    case DoFinish(g) => if s.Ready(g) then Finish(s, g) else s
    case DoReport(t, ready, wrong) =>
      if t in s.links then
        s.(links := s.links[t := Link(s.links[t].peer, ready, s.links[t].bad + if wrong then 1 else 0)])
      else s
  }

  /** What an event returns to the caller: something when it ends a call. */
  function Result(s: Clients, ev: Event): Option<Returned> {
    if ev.DoFinish? && s.Ready(ev.g) then
      var c := s.calls[ev.g];
      var id := if c.stage.Served? && !c.Creates() then c.entry.value else s.counter;
      Some(Returned(c, id, c.stage.Served?))
    else None
  }

  /** The states before, between and after the events of a run. */
  ghost predicate Trace(events: seq<Event>, states: seq<Clients>) {
    && |states| == |events| + 1 && states[0] == NO_CLIENTS
    && forall k :: 0 <= k < |events| ==> states[k + 1] == Step(states[k], events[k])
  }

  // ---------- What always holds ----------

  /** Every id below the counter belongs to exactly one client. */
  ghost predicate Numbered(s: Clients) {
    && (forall i: nat :: i < s.counter <==> i in s.links || i in s.wrappers || i in s.errors)
    && s.links.Keys !! s.wrappers.Keys !! s.errors
  }

  predicate LeadsTo(links: map<Id, Link>, t: Id, p: Peer) {
    t in links && links[t].peer == p
  }

  /** Cached transports and wrappers lead to the peer they are cached under. */
  ghost predicate Addressed(links: map<Id, Link>, wrappers: map<Id, Wrapper>, shared: map<Peer, Id>) {
    && (forall p :: p in shared ==> LeadsTo(links, shared[p], p))
    && (forall w :: w in wrappers ==> LeadsTo(links, wrappers[w].transport, wrappers[w].peer))
  }

  /** A cache entry is a wrapper of that group and peer, or null while a call makes it. */
  ghost predicate Entered(caches: map<Key, Option<Id>>, wrappers: map<Id, Wrapper>, calls: map<Group, Call>) {
    forall k :: k in caches ==>
      match caches[k]
      case None => k.group in calls && calls[k.group].peer == k.peer
      case Some(w) => w in wrappers && wrappers[w].group == k.group && wrappers[w].peer == k.peer
  }

  /** What a call in progress has been answered is still true of its transport's peer. */
  ghost predicate Answered(c: Call, links: map<Id, Link>) {
    c.stage.Served? ==>
      && LeadsTo(links, c.stage.transport, c.peer)
      && if c.stage.isNew then c.before <= c.stage.transport else c.stage.was.Good()
  }

  ghost predicate InCalls(calls: map<Group, Call>, caches: map<Key, Option<Id>>, links: map<Id, Link>, counter: nat) {
    forall g :: g in calls ==>
      var c := calls[g];
      && Key(g, c.peer) in caches && caches[Key(g, c.peer)] == c.entry
      && c.before <= counter && (c.entry.Some? ==> c.entry.value < c.before)
      && Answered(c, links)
  }

  ghost predicate Sound(s: Clients) {
    && Numbered(s)
    && Addressed(s.links, s.wrappers, s.shared)
    && Entered(s.caches, s.wrappers, s.calls)
    && InCalls(s.calls, s.caches, s.links, s.counter)
  }

  /** Transports are never lost and never change their peer. */
  ghost predicate Extends(links: map<Id, Link>, links': map<Id, Link>) {
    forall t :: t in links ==> t in links' && links'[t].peer == links[t].peer
  }

  lemma LinksGrow(s: Clients, links': map<Id, Link>, counter': nat)
    requires Extends(s.links, links') && s.counter <= counter'
    requires Addressed(s.links, s.wrappers, s.shared) && InCalls(s.calls, s.caches, s.links, s.counter)
    ensures Addressed(links', s.wrappers, s.shared) && InCalls(s.calls, s.caches, links', counter')
  {
  }

  lemma ServeSound(s: Clients, p: Peer, known: bool, made: bool, ready: bool)
    requires Sound(s)
    ensures Sound(Serve(s, p, known, made, ready))
  {
    var s' := Serve(s, p, known, made, ready);
    LinksGrow(s, s'.links, s'.counter);
  }

  lemma BeginSound(s: Clients, g: Group, p: Peer, force: bool)
    requires Sound(s) && g !in s.calls
    ensures Sound(Begin(s, g, p, force))
  {
  }

  lemma AskSound(s: Clients, g: Group, known: bool, made: bool, ready: bool)
    requires Sound(s) && g in s.calls && s.calls[g].stage.Waiting?
    ensures Sound(Ask(s, g, known, made, ready))
  {
    var p := s.calls[g].peer;
    ServeSound(s, p, known, made, ready);
    var s1, stage := Serve(s, p, known, made, ready), StageOf(s, p, known, made, ready);
    CallServed(s1, g, stage);
  }

  lemma CallServed(s: Clients, g: Group, stage: Stage)
    requires Sound(s) && g in s.calls && Answered(s.calls[g].(stage := stage), s.links)
    ensures Sound(s.(calls := s.calls[g := s.calls[g].(stage := stage)]))
  {
  }

  /** The state once the group's lock is given up and a null entry is gone. */
  function Released(s: Clients, g: Group): Clients
    requires g in s.calls
  {
    var c := s.calls[g];
    s.(calls := s.calls - {g}, caches := if c.entry.None? then s.caches - {Key(g, c.peer)} else s.caches)
  }

  lemma ReleasedSound(s: Clients, g: Group)
    requires Sound(s) && g in s.calls
    ensures Sound(Released(s, g))
  {
  }

  lemma ErrorSound(s: Clients)
    requires Sound(s)
    ensures Sound(s.(counter := s.counter + 1, errors := s.errors + {s.counter}))
  {
    LinksGrow(s, s.links, s.counter + 1);
  }

  lemma WrapperSound(s: Clients, g: Group, p: Peer, t: Id)
    requires Sound(s) && g !in s.calls && LeadsTo(s.links, t, p)
    ensures Sound(s.(counter := s.counter + 1, wrappers := s.wrappers[s.counter := Wrapper(g, p, t)],
                     caches := s.caches[Key(g, p) := Some(s.counter)]))
  {
    LinksGrow(s, s.links, s.counter + 1);
  }

  lemma RewrapSound(s: Clients, id: Id, t: Id)
    requires Sound(s) && id in s.wrappers && LeadsTo(s.links, t, s.wrappers[id].peer)
    ensures Sound(s.(wrappers := s.wrappers[id := s.wrappers[id].(transport := t)]))
  {
  }

  lemma PutBack<K, V>(m: map<K, V>, k: K, v: V)
    ensures (m - {k})[k := v] == m[k := v]
  {
  }

  lemma FinishSound(s: Clients, g: Group)
    requires Sound(s) && s.Ready(g)
    ensures Sound(Finish(s, g))
  {
    var c, r := s.calls[g], Released(s, g);
    ReleasedSound(s, g);
    if c.stage.Refused? {
      ErrorSound(r);
    } else if c.Creates() {
      WrapperSound(r, g, c.peer, c.stage.transport);
      PutBack(s.caches, Key(g, c.peer), Some(s.counter));
    } else {
      RewrapSound(r, c.entry.value, c.stage.transport);
    }
  }

  lemma ReportSound(s: Clients, t: Id, link: Link)
    requires Sound(s) && LeadsTo(s.links, t, link.peer)
    ensures Sound(s.(links := s.links[t := link]))
  {
    LinksGrow(s, s.links[t := link], s.counter);
  }

  lemma ReportStepSound(s: Clients, ev: Event)
    requires Sound(s) && ev.DoReport?
    ensures Sound(Step(s, ev))
  {
    if ev.t in s.links {
      ReportSound(s, ev.t, Link(s.links[ev.t].peer, ev.ready, s.links[ev.t].bad + if ev.wrong then 1 else 0));
    }
  }

  lemma CounterStep(s: Clients, ev: Event)
    ensures s.counter <= Step(s, ev).counter
  {
  }

  lemma StepSound(s: Clients, ev: Event)
    requires Sound(s)
    ensures Sound(Step(s, ev)) && s.counter <= Step(s, ev).counter
  {
    CounterStep(s, ev);
    match ev
    case DoBegin(g, p, force) => if g !in s.calls { BeginSound(s, g, p, force); }
    case DoAsk(g, known, made, ready) =>
      if g in s.calls && s.calls[g].stage.Waiting? { AskSound(s, g, known, made, ready); }
    case DoFinish(g) => if s.Ready(g) { FinishSound(s, g); }
    case DoReport(_, _, _) => ReportStepSound(s, ev);
  }

  lemma {:induction false} TraceSound(events: seq<Event>, states: seq<Clients>, k: nat)
    requires Trace(events, states) && k <= |events|
    ensures Sound(states[k])
  {
    if k > 0 {
      TraceSound(events, states, k - 1);
      StepSound(states[k - 1], events[k - 1]);
    }
  }

  /** What the event refers to is there. */
  predicate Grounded(s: Clients, ev: Event) {
    match ev
    case DoAsk(g, _, _, _) =>
      g in s.calls && s.calls[g].peer in s.shared ==> s.shared[s.calls[g].peer] in s.links
    case DoFinish(g) =>
      g in s.calls && s.calls[g].entry.Some? ==>
        var w := s.calls[g].entry.value;
        w in s.wrappers && s.wrappers[w].group == g && s.wrappers[w].peer == s.calls[g].peer
    case _ => true
  }

  lemma SoundGrounded(s: Clients, ev: Event)
    requires Sound(s)
    ensures Grounded(s, ev)
  {
  }

  lemma TraceGrounded(events: seq<Event>, states: seq<Clients>, k: nat, ev: Event)
    requires Trace(events, states) && k <= |events|
    ensures Grounded(states[k], ev)
  {
    TraceSound(events, states, k);
    SoundGrounded(states[k], ev);
  }
}
