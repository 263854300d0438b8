/** A client request that follows the leader: the reply of a server that is not the leader names
    the one that is, and the same request is sent there, until some reply settles the request.
 */
module Redirect {
  import opened Options

  /** Result codes the handler tells apart; any other one is carried along. */
  datatype Code = OK | SERVER_NOT_FOUND | NOT_LEADER | Other(n: int)

  /** What is asked for: a server to add, a server to remove, or an entry to append. */
  datatype Payload = AddServer(id: nat) | RemoveServer(srv: int) | Entry(buf: seq<nat>)

  type Address = string

  /** A request message; only the addition of a server carries an address. */
  datatype Message =
    | AddServerRequest(id: nat, addr: Address)
    | RemoveServerRequest(srv: int)
    | ClientRequest(buf: seq<nat>)

  function CreateMessage(payload: Payload, addr: Address): Message {
    match payload
    case AddServer(id) => AddServerRequest(id, addr)
    case RemoveServer(srv) => RemoveServerRequest(srv)
    case Entry(buf) => ClientRequest(buf)
  }

  /** A message determines the payload it was made from, and says what that asks for. */
  lemma MessageCarriesPayload(p: Payload, a: Address, q: Payload, b: Address)
    ensures CreateMessage(p, a) == CreateMessage(q, b) ==> p == q && (p.AddServer? ==> a == b)
    ensures forall id, addr :: CreateMessage(p, a) == AddServerRequest(id, addr) <==> p == AddServer(id) && a == addr
    ensures forall srv :: CreateMessage(p, a) == RemoveServerRequest(srv) <==> p == RemoveServer(srv)
    ensures forall buf :: CreateMessage(p, a) == ClientRequest(buf) <==> p == Entry(buf)
  {
  }

  /** A reply on the wire, and as the handler sees it. */
  datatype Wire = Wire(accepted: bool, dst: int, code: Code, addr: Address)
  datatype Response = Response(accepted: bool, dst: int, code: Code, destAddr: Address)

  /** The address of the leader is read only from a reply that says "not leader". */
  function ToResponse(w: Option<Wire>): Option<Response> {
    match w
    case None => None
    case Some(v) => Some(Response(v.accepted, v.dst, v.code, if v.code == NOT_LEADER then v.addr else ""))
  }

  /** What arrives for a message: an error, or a reply with or without content. */
  datatype Reply = Reply(err: bool, rsp: Option<Wire>)

  /** The code that settles a request waiting for `cur`, or none when the reply sends it on. */
  function Settles(cur: int, reply: Reply): Option<Code> {
    match reply.rsp
    case None => Some(SERVER_NOT_FOUND)
    case Some(v) => if reply.err || v.accepted || v.dst == cur || v.dst < 0 then Some(v.code) else None
  }

  /** The caller's promise: not handed out yet, waited for, or fulfilled. */
  datatype Promise = Unclaimed | Waiting | Fulfilled(code: Code)

  datatype Step = Settled(code: Code) | Resent | Missed | Crashed

  // ---------- Whole chains ----------

  /** What becomes of a request that waits for `cur` and gets these replies one after the other:
      the destinations it goes on to, and the code that settles it, if one does. */
  datatype Fate = Fate(hops: seq<int>, code: Option<Code>)

  function FateOf(cur: int, replies: seq<Reply>): Fate
    decreases |replies|
  {
    if replies == [] then Fate([], None)
    else
      match Settles(cur, replies[0])
      case Some(code) => Fate([], Some(code))
      case None =>
        var rest := FateOf(replies[0].rsp.value.dst, replies[1..]);
        Fate([replies[0].rsp.value.dst] + rest.hops, rest.code)
  }

  /** Where a request is before reply `k`. */
  function Before(cur: int, hops: seq<int>, k: nat): int
    requires k <= |hops|
  {
    if k == 0 then cur else hops[k - 1]
  }

  /** A reply that sends a request on has content, is no error and not accepted, and names another
      destination that is not negative, which is the next. */
  lemma {:induction false} FateHop(cur: int, replies: seq<Reply>, k: nat)
    requires k < |FateOf(cur, replies).hops|
    ensures |FateOf(cur, replies).hops| <= |replies|
    ensures var hops, reply := FateOf(cur, replies).hops, replies[k];
            && reply.rsp.Some? && !reply.err && !reply.rsp.value.accepted
            && hops[k] == reply.rsp.value.dst != Before(cur, hops, k) && 0 <= hops[k]
    decreases |replies|
  {
    if |replies| > 1 && |FateOf(cur, replies).hops| > 1 {
      FateHop(replies[0].rsp.value.dst, replies[1..], if k > 0 then k - 1 else 0);
    }
  }

  /** A reply without content ends a request with "not found", and one with content with its own code: it
      is an error, is accepted, or names the current destination or a negative one. */
  lemma {:induction false} FateEnd(cur: int, replies: seq<Reply>)
    ensures var fate := FateOf(cur, replies);
            if fate.code.None? then |fate.hops| == |replies|
            else
              && |fate.hops| < |replies|
              && var last, at := replies[|fate.hops|], Before(cur, fate.hops, |fate.hops|);
                 match last.rsp
                 case None => fate.code.value == SERVER_NOT_FOUND
                 case Some(v) => fate.code.value == v.code && (last.err || v.accepted || v.dst == at || v.dst < 0)
    decreases |replies|
  {
    if replies != [] && Settles(cur, replies[0]).None? {
      FateEnd(replies[0].rsp.value.dst, replies[1..]);
    }
  }

  /** Every reply that sends the request on says "not leader" with an address that parses. */
  predicate Followable(parses: Address -> bool, cur: int, replies: seq<Reply>)
    decreases |replies|
  {
    replies == [] || Settles(cur, replies[0]).Some? ||
    (var v := replies[0].rsp.value;
     v.code == NOT_LEADER && parses(v.addr) && Followable(parses, v.dst, replies[1..]))
  }

  class Request {
    const payload: Payload
    const newSrvAddr: Address
    const parses: Address -> bool
    var curDest: int
    var promise: Promise
    /** The messages sent, the destinations they were sent to, and what came back. */
    var sent: seq<Message>
    var hops: seq<int>
    var replies: nat
    var inFlight: nat

    /** The request is settled or has exactly one message in flight; every message carries the
        original payload, and no message goes where the one before it went. */
    predicate Valid()
      reads this
    {
      && |sent| == |hops| >= 1 && hops[|hops| - 1] == curDest
      && |sent| == replies + inFlight
      && inFlight == (if promise.Fulfilled? then 0 else 1)
      && (forall i :: 0 <= i < |sent| ==> sent[i] == CreateMessage(payload, newSrvAddr))
      && forall i :: 1 <= i < |hops| ==> hops[i] != hops[i - 1]
    }

    /** Sends the request for the first time. */
    constructor (payload: Payload, newSrvAddr: Address, dest: int, parses: Address -> bool)
      ensures Valid() && promise == Unclaimed && hops == [dest] && replies == 0
      ensures this.payload == payload && this.newSrvAddr == newSrvAddr && this.parses == parses
    {
      this.payload, this.newSrvAddr, this.parses := payload, newSrvAddr, parses;
      curDest, promise := dest, Unclaimed;
      sent, hops, replies, inFlight := [CreateMessage(payload, newSrvAddr)], [dest], 0, 1;
    }

    /** Hands the future to the caller; whatever was set before is forgotten with the old promise. */
    method TakeFuture()
      modifies this`promise
      ensures promise == Waiting
      ensures old(Valid()) && old(promise).Unclaimed? ==> Valid()
    {
      promise := Waiting;
    }

    /** A reply the handler can deal with: it settles a request whose future was taken, or names
        the new leader in a "not leader" answer with an address that parses. */
    predicate Manageable(reply: Reply)
      reads this
    {
      if Settles(curDest, reply).Some? then promise.Waiting?
      else reply.rsp.value.code == NOT_LEADER && parses(reply.rsp.value.addr)
    }

    /** The reply handler. It keeps the request in order exactly when the reply is manageable; a
        settled request is settled once, and for good. */
    method OnReply(reply: Reply) returns (step: Step)
      requires Valid() && inFlight == 1 && !parses("")
      modifies this
      ensures Valid() <==> old(Manageable(reply))
      ensures step == match Settles(old(curDest), reply)
                      case Some(code) => if old(promise).Waiting? then Settled(code) else Missed
                      case None => if old(Manageable(reply)) then Resent else Crashed
      ensures replies == old(replies) + 1 && inFlight == (if step.Resent? then 1 else 0)
      ensures step.Settled? ==> promise == Fulfilled(step.code) && sent == old(sent) && hops == old(hops)
      ensures step.Resent? ==> promise == old(promise) && hops == old(hops) + [reply.rsp.value.dst]
      ensures !step.Settled? ==> promise == old(promise)
      ensures reply.rsp.None? && old(promise).Waiting? ==> promise == Fulfilled(SERVER_NOT_FOUND)
      ensures reply.rsp.Some? ==>
                var v := reply.rsp.value;
                if reply.err || v.accepted || v.dst == old(curDest) || v.dst < 0
                then old(promise).Waiting? ==> promise == Fulfilled(v.code)
                else
                  && curDest == v.dst && promise == old(promise)
                  && (v.code == NOT_LEADER && parses(v.addr) ==>
                        step == Resent && sent == old(sent) + [CreateMessage(payload, newSrvAddr)])
      ensures step.Missed? ==> sent == old(sent) && hops == old(hops)
    {
      replies := replies + 1;
      inFlight := inFlight - 1;
      var rsp := ToResponse(reply.rsp);
      if reply.err || rsp.None? {
        step := Set(if rsp.Some? then rsp.value.code else SERVER_NOT_FOUND);
        return;
      } else if rsp.value.accepted || curDest == rsp.value.dst || 0 > rsp.value.dst {
        step := Set(rsp.value.code);
        return;
      }
      curDest := rsp.value.dst;
      if !parses(rsp.value.destAddr) {
        return Crashed;
      }
      sent := sent + [CreateMessage(payload, newSrvAddr)];
      hops := hops + [curDest];
      inFlight := inFlight + 1;
      step := Resent;
    }

    /** Sets the promise. A promise whose future was not taken yet is about to be replaced, so what
        is set on it reaches no one. */
    method Set(code: Code) returns (step: Step)
      requires !promise.Fulfilled?
      modifies this`promise
      ensures if old(promise).Waiting? then promise == Fulfilled(code) && step == Settled(code)
              else promise == old(promise) && step == Missed
    {
      if promise.Waiting? {
        promise := Fulfilled(code);
        return Settled(code);
      }
      return Missed;
    }

    /** Delivers replies until one settles the request. It ends up where the replies say, settled by
        the code they say; replies beyond that one are not asked for. */
    method Deliver(replies: seq<Reply>) returns (used: nat)
      requires Valid() && promise.Waiting? && !parses("") && Followable(parses, curDest, replies)
      modifies this
      ensures Valid() && used <= |replies| && this.replies == old(this.replies) + used
      ensures hops == old(hops) + FateOf(old(curDest), replies).hops
      ensures promise == match FateOf(old(curDest), replies).code
                         case Some(code) => Fulfilled(code)
                         case None => Waiting
      ensures promise.Waiting? ==> used == |replies|
      decreases |replies|
    {
      if replies == [] {
        return 0;
      }
      var step := OnReply(replies[0]);
      used := 1;
      if step.Resent? {
        var more := Deliver(replies[1..]);
        used := 1 + more;
      }
    }
  }

  /** Sends a request, takes the future and delivers replies until one settles it. */
  method Drive(payload: Payload, addr: Address, dest: int, parses: Address -> bool, replies: seq<Reply>)
    returns (settled: Option<Code>, route: seq<int>, messages: seq<Message>, used: nat)
    requires !parses("") && Followable(parses, dest, replies)
    ensures settled == FateOf(dest, replies).code
    ensures route == [dest] + FateOf(dest, replies).hops
    ensures |messages| == |route|
    ensures forall m :: m in messages ==> m == CreateMessage(payload, addr)
    ensures forall i :: 1 <= i < |route| ==> route[i] != route[i - 1]
    ensures used <= |replies|
    ensures |messages| == (if settled.Some? then used else used + 1)
    ensures settled.None? ==> used == |replies|
    ensures forall k :: 1 <= k < |route| ==>
              && k <= |replies| && replies[k - 1].rsp.Some? && !replies[k - 1].err
              && !replies[k - 1].rsp.value.accepted && 0 <= route[k] == replies[k - 1].rsp.value.dst
    ensures settled.Some? ==>
              && 1 <= used == |route|
              && var last, at := replies[used - 1], route[used - 1];
                 match last.rsp
                 case None => settled.value == SERVER_NOT_FOUND
                 case Some(v) => settled.value == v.code && (last.err || v.accepted || v.dst == at || v.dst < 0)
  {
    ghost var hops := FateOf(dest, replies).hops;
    forall k | 0 <= k < |hops| ensures
      && k < |replies| && replies[k].rsp.Some? && !replies[k].err
      && !replies[k].rsp.value.accepted && 0 <= hops[k] == replies[k].rsp.value.dst
    {
      FateHop(dest, replies, k);
    }
    FateEnd(dest, replies);
    var req := new Request(payload, addr, dest, parses);
    req.TakeFuture();
    used := req.Deliver(replies);
    settled := if req.promise.Fulfilled? then Some(req.promise.code) else None;
    route, messages := req.hops, req.sent;
  }

  /** A request whose first client could not be made is answered by the error client while it is
      being sent, before the future is taken. The one reply there is has been used up: the caller
      waits, nothing is in flight, and the handler never settles the request. */
  method FirstClientFails(payload: Payload, addr: Address, dest: int, parses: Address -> bool)
    returns (req: Request, step: Step)
    requires !parses("")
    ensures fresh(req) && step == Missed && !req.Valid()
    ensures req.promise == Waiting && req.inFlight == 0 && req.replies == |req.sent| == 1 && req.hops == [dest]
  {
    req := new Request(payload, addr, dest, parses);
    step := req.OnReply(Reply(true, None));
    req.TakeFuture();
  }
}
