/** Atomic shared pointers: slots that point at reference-counted wrappers, each slot with a
    mutex. Every load, store, count update, lock and delete is a step of its own, and threads
    interleave in any way. A step that touches freed memory is a fault.
 */
module SharedPointer {
  import opened Options
  import opened MapSum

  type Slot = nat
  type Wrapper = nat
  type Tid = nat

  /** What is left to do when an assignment is finished: nothing, or to release the value that a
      failed exchange had acquired. */
  datatype After = Finish | ThenRelease(val: Option<Wrapper>)

  /** Who asked for a shared reference: an assignment to `dst`, or an exchange on `cell`, which
      saw `seen` in its private slot `expected`. */
  datatype Asker =
    | ForAssign(dst: Slot, after: After)
    | ForExchange(cell: Slot, expected: Slot, seen: Option<Wrapper>)

  /** Where a thread is; the name says what it does next. */
  datatype Pc =
    | Idle
    | LockForReset(dst: Slot)
    | LockForAssign(dst: Slot, src: Slot, after: After)
    | LockToShare(src: Slot, asker: Asker)
    | LoadToShare(src: Slot, asker: Asker)
    | Increment(src: Slot, w: Wrapper, asker: Asker)
    | UnlockShared(src: Slot, val: Option<Wrapper>, asker: Asker)
    | LoadOld(dst: Slot, val: Option<Wrapper>, after: After)
    | StoreNew(dst: Slot, val: Option<Wrapper>, prev: Option<Wrapper>, after: After)
    | Decrement(target: Option<Wrapper>, held: Option<Slot>, after: After)
    | Delete(w: Wrapper, held: Option<Slot>, after: After)
    | UnlockLast(held: Option<Slot>, after: After)
    | LoadExpected(cell: Slot, expected: Slot, src: Slot)
    | LockToExchange(cell: Slot, expected: Slot, seen: Option<Wrapper>, src: Slot, val: Option<Wrapper>)
    | Exchange(cell: Slot, expected: Slot, seen: Option<Wrapper>, src: Slot, val: Option<Wrapper>)
    | UnlockFailed(cell: Slot, expected: Slot, val: Option<Wrapper>)

  /** `owner` says to which thread a slot is private, if to any; `heap` holds the reference counts
      of the wrappers that are not freed. */
  datatype State = State(
    slots: map<Slot, Option<Wrapper>>,
    owner: map<Slot, Option<Tid>>,
    locks: map<Slot, Tid>,
    heap: map<Wrapper, nat>,
    pcs: map<Tid, Pc>)
  {
    function At(t: Tid, pc: Pc): State {
      this.(pcs := pcs[t := pc])
    }

    function Store(x: Slot, o: Option<Wrapper>): State {
      this.(slots := slots[x := o])
    }

    function Lock(x: Slot, t: Tid): State {
      this.(locks := locks[x := t])
    }

    function Unlock(x: Slot): State {
      this.(locks := locks - {x})
    }

    function Count(w: Wrapper, n: nat): State {
      this.(heap := heap[w := n])
    }

    predicate Usable(t: Tid, x: Slot) {
      x in slots && x in owner && (owner[x].None? || owner[x].value == t)
    }

    predicate Private(t: Tid, x: Slot) {
      x in slots && x in owner && owner[x] == Some(t)
    }
  }

  datatype Outcome = Blocked | Fault | Went(s: State)

  /** Shared references are taken under the source's lock. */
  function StepShare(s: State, t: Tid, pc: Pc): Outcome {
    match pc
    case LockToShare(src, asker) =>
      if src in s.locks then Blocked else Went(s.Lock(src, t).At(t, LoadToShare(src, asker)))
    case LoadToShare(src, asker) =>
      if src !in s.slots then Fault
      else if s.slots[src].None? then Went(s.At(t, UnlockShared(src, None, asker)))
      else Went(s.At(t, Increment(src, s.slots[src].value, asker)))
    case Increment(src, w, asker) =>
      if w !in s.heap || s.heap[w] == 0 then Fault
      else Went(s.Count(w, s.heap[w] + 1).At(t, UnlockShared(src, Some(w), asker)))
    case UnlockShared(src, val, asker) =>
      Went(s.Unlock(src).At(t, match asker
        case ForAssign(dst, after) => LoadOld(dst, val, after)
        case ForExchange(cell, expected, seen) => LockToExchange(cell, expected, seen, src, val)))
    case _ => Blocked
  }

  /** Assignment and reset: the slot is locked until the old value is released. */
  function StepAssign(s: State, t: Tid, pc: Pc): Outcome {
    match pc
    case LockForReset(dst) =>
      if dst in s.locks then Blocked else Went(s.Lock(dst, t).At(t, LoadOld(dst, None, Finish)))
    case LockForAssign(dst, src, after) =>
      if dst in s.locks then Blocked
      else Went(s.Lock(dst, t).At(t, LockToShare(src, ForAssign(dst, after))))
    case LoadOld(dst, val, after) =>
      if dst !in s.slots then Fault else Went(s.At(t, StoreNew(dst, val, s.slots[dst], after)))
    case StoreNew(dst, val, prev, after) =>
      if dst !in s.slots then Fault else Went(s.Store(dst, val).At(t, Decrement(prev, Some(dst), after)))
    case _ => Blocked
  }

  /** Releasing a reference, and deleting the wrapper when it was the last one. */
  function StepRelease(s: State, t: Tid, pc: Pc): Outcome {
    match pc
    case Decrement(target, held, after) =>
      if target.None? then Went(s.At(t, UnlockLast(held, after)))
      else
        var w := target.value;
        if w !in s.heap || s.heap[w] == 0 then Fault
        else
          var pc' := if s.heap[w] == 1 then Delete(w, held, after) else UnlockLast(held, after);
          Went(s.Count(w, s.heap[w] - 1).At(t, pc'))
    case Delete(w, held, after) =>
      if w !in s.heap || s.heap[w] != 0 then Fault
      else Went(s.(heap := s.heap - {w}).At(t, UnlockLast(held, after)))
    case UnlockLast(held, after) =>
      Went((if held.Some? then s.Unlock(held.value) else s).At(t, match after
        case Finish => Idle
        case ThenRelease(val) => Decrement(val, None, Finish)))
    case _ => Blocked
  }

  /** The exchange, which may also fail for no reason. */
  function StepExchange(s: State, t: Tid, pc: Pc, spurious: bool): Outcome {
    match pc
    case LoadExpected(cell, expected, src) =>
      if expected !in s.slots then Fault
      else Went(s.At(t, LockToShare(src, ForExchange(cell, expected, s.slots[expected]))))
    case LockToExchange(cell, expected, seen, src, val) =>
      if cell in s.locks then Blocked else Went(s.Lock(cell, t).At(t, Exchange(cell, expected, seen, src, val)))
    case Exchange(cell, expected, seen, src, val) =>
      if cell !in s.slots || expected !in s.slots then Fault
      else if s.slots[cell] == seen && !spurious then
        Went(s.Store(cell, val).At(t, Decrement(s.slots[expected], Some(cell), Finish)))
      else Went(s.At(t, UnlockFailed(cell, expected, val)))
    case UnlockFailed(cell, expected, val) =>
      Went(s.Unlock(cell).At(t, LockForAssign(expected, cell, ThenRelease(val))))
    case _ => Blocked
  }

  datatype Event =
    | Advance(t: Tid, spurious: bool)
    | CallReset(t: Tid, dst: Slot)
    | CallAssign(t: Tid, dst: Slot, src: Slot)
    | CallExchange(t: Tid, cell: Slot, expected: Slot, src: Slot)
    | Create(t: Tid, x: Slot, shared: bool)
    | CreateWith(t: Tid, x: Slot, w: Wrapper, shared: bool)
    | Destroy(t: Tid, x: Slot)

  function Advanced(s: State, t: Tid, spurious: bool): Outcome
    requires t in s.pcs
  {
    match s.pcs[t]
    case Idle => Blocked
    case LockForReset(_) => StepAssign(s, t, s.pcs[t])
    case LockForAssign(_, _, _) => StepAssign(s, t, s.pcs[t])
    case LoadOld(_, _, _) => StepAssign(s, t, s.pcs[t])
    case StoreNew(_, _, _, _) => StepAssign(s, t, s.pcs[t])
    case LockToShare(_, _) => StepShare(s, t, s.pcs[t])
    case LoadToShare(_, _) => StepShare(s, t, s.pcs[t])
    case Increment(_, _, _) => StepShare(s, t, s.pcs[t])
    case UnlockShared(_, _, _) => StepShare(s, t, s.pcs[t])
    case Decrement(_, _, _) => StepRelease(s, t, s.pcs[t])
    case Delete(_, _, _) => StepRelease(s, t, s.pcs[t])
    case UnlockLast(_, _) => StepRelease(s, t, s.pcs[t])
    case _ => StepExchange(s, t, s.pcs[t], spurious)
  }

  /** Calls begin only on slots the thread may use; `expected` and `src` of an exchange are
      private. A new wrapper may get the address of a freed one. */
  function Step(s: State, ev: Event): Outcome {
    if ev.t !in s.pcs then Blocked
    else if ev.Advance? then Advanced(s, ev.t, ev.spurious)
    else if !s.pcs[ev.t].Idle? then Blocked
    else
      match ev
      case CallReset(t, dst) => if s.Usable(t, dst) then Went(s.At(t, LockForReset(dst))) else Blocked
      case CallAssign(t, dst, src) =>
        if s.Usable(t, dst) && s.Usable(t, src) then Went(s.At(t, LockForAssign(dst, src, Finish))) else Blocked
      case CallExchange(t, cell, expected, src) =>
        if s.Usable(t, cell) && s.Private(t, expected) && s.Private(t, src) && cell != expected && cell != src
        then Went(s.At(t, LoadExpected(cell, expected, src))) else Blocked
      case Create(t, x, shared) =>
        if x in s.slots || x in s.owner then Blocked
        else Went(s.Store(x, None).(owner := s.owner[x := if shared then None else Some(t)]))
      case CreateWith(t, x, w, shared) =>
        if x in s.slots || x in s.owner || w in s.heap then Blocked
        else Went(s.Store(x, Some(w)).Count(w, 1).(owner := s.owner[x := if shared then None else Some(t)]))
      case Destroy(t, x) =>
        if s.Private(t, x) && s.slots[x].None? then Went(s.(slots := s.slots - {x}, owner := s.owner - {x}))
        else Blocked
  }

  // ---------- The books ----------

  function One(o: Option<Wrapper>, w: Wrapper): nat {
    if o == Some(w) then 1 else 0
  }

  function PointsTo(w: Wrapper): Option<Wrapper> -> nat {
    (o: Option<Wrapper>) => One(o, w)
  }

  function AfterHolds(after: After, w: Wrapper): nat {
    match after
    case Finish => 0
    case ThenRelease(val) => One(val, w)
  }

  /** The references to `w` that a thread holds by what it is doing. */
  function PcHolds(pc: Pc, w: Wrapper): nat {
    match pc
    case LockForAssign(_, _, after) => AfterHolds(after, w)
    case LockToShare(_, asker) => AskerHolds(asker, w)
    case LoadToShare(_, asker) => AskerHolds(asker, w)
    case Increment(_, _, asker) => AskerHolds(asker, w)
    case UnlockShared(_, val, asker) => One(val, w) + AskerHolds(asker, w)
    case LoadOld(_, val, after) => One(val, w) + AfterHolds(after, w)
    case StoreNew(_, val, _, after) => One(val, w) + AfterHolds(after, w)
    case Decrement(target, _, after) => One(target, w) + AfterHolds(after, w)
    case Delete(_, _, after) => AfterHolds(after, w)
    case UnlockLast(_, after) => AfterHolds(after, w)
    case LockToExchange(_, _, _, _, val) => One(val, w)
    case Exchange(_, _, _, _, val) => One(val, w)
    case UnlockFailed(_, _, val) => One(val, w)
    case _ => 0
  }

  function AskerHolds(asker: Asker, w: Wrapper): nat {
    match asker
    case ForAssign(_, after) => AfterHolds(after, w)
    case ForExchange(_, _, _) => 0
  }

  function Holds(w: Wrapper): Pc -> nat {
    (pc: Pc) => PcHolds(pc, w)
  }

  function PcDeletes(pc: Pc, w: Wrapper): nat {
    if pc.Delete? && pc.w == w then 1 else 0
  }

  function Deletes(w: Wrapper): Pc -> nat {
    (pc: Pc) => PcDeletes(pc, w)
  }

  ghost function References(s: State, w: Wrapper): nat {
    Sum(s.slots, PointsTo(w)) + Sum(s.pcs, Holds(w))
  }

  /** A wrapper's count is the number of slots that point at it and references in progress; when
      it is 0 exactly one thread is about to delete the wrapper. */
  ghost predicate Balanced(s: State, w: Wrapper) {
    && References(s, w) == (if w in s.heap then s.heap[w] else 0)
    && Sum(s.pcs, Deletes(w)) == if w in s.heap && s.heap[w] == 0 then 1 else 0
  }

  // ---------- What a thread relies on ----------

  predicate Locked(s: State, t: Tid, x: Slot) {
    x in s.locks && s.locks[x] == t
  }

  /** The private slot `expected` still holds what the exchange saw in it. */
  predicate Remembers(s: State, t: Tid, cell: Slot, expected: Slot, seen: Option<Wrapper>) {
    s.Usable(t, cell) && s.Private(t, expected) && s.slots[expected] == seen && cell != expected
  }

  predicate AskerRelies(s: State, t: Tid, asker: Asker) {
    match asker
    case ForAssign(dst, _) => s.Usable(t, dst) && Locked(s, t, dst)
    case ForExchange(cell, expected, seen) => Remembers(s, t, cell, expected, seen)
  }

  /** A thread that shares from `src` has it locked, besides the slot it assigns to. */
  predicate Sharing(s: State, t: Tid, src: Slot, asker: Asker) {
    && s.Usable(t, src) && Locked(s, t, src) && AskerRelies(s, t, asker) && Offered(s, t, src, asker)
    && (asker.ForAssign? ==> asker.dst != src)
  }

  /** An exchange takes its new value from a private slot that is not the one it changes. */
  predicate Offered(s: State, t: Tid, src: Slot, asker: Asker) {
    asker.ForExchange? ==> s.Private(t, src) && src != asker.cell
  }

  /** The private slot `src` still holds the value the exchange brings. */
  predicate Brings(s: State, t: Tid, cell: Slot, src: Slot, val: Option<Wrapper>) {
    s.Private(t, src) && s.slots[src] == val && src != cell
  }

  predicate Holding(s: State, t: Tid, held: Option<Slot>) {
    held.Some? ==> Locked(s, t, held.value)
  }

  /** What a thread relies on: slots it may use, locks it holds, and what it knows of slots. */
  predicate Relies(s: State, t: Tid, pc: Pc) {
    match pc
    case Idle => true
    case LockForReset(dst) => s.Usable(t, dst)
    case LockForAssign(dst, src, _) => s.Usable(t, dst) && s.Usable(t, src)
    case LockToShare(src, asker) => s.Usable(t, src) && AskerRelies(s, t, asker) && Offered(s, t, src, asker)
    case LoadToShare(src, asker) => Sharing(s, t, src, asker)
    case Increment(src, w, asker) => Sharing(s, t, src, asker) && s.slots[src] == Some(w)
    case UnlockShared(src, val, asker) => Sharing(s, t, src, asker) && s.slots[src] == val
    case LoadOld(dst, _, _) => s.Usable(t, dst) && Locked(s, t, dst)
    case StoreNew(dst, _, prev, _) => s.Usable(t, dst) && Locked(s, t, dst) && s.slots[dst] == prev
    case Decrement(_, held, _) => Holding(s, t, held)
    case Delete(_, held, _) => Holding(s, t, held)
    case UnlockLast(held, _) => Holding(s, t, held)
    case LoadExpected(cell, expected, src) =>
      s.Usable(t, cell) && s.Private(t, expected) && s.Private(t, src) && cell != expected && cell != src
    case LockToExchange(cell, expected, seen, src, val) =>
      Remembers(s, t, cell, expected, seen) && Brings(s, t, cell, src, val)
    case Exchange(cell, expected, seen, src, val) =>
      Remembers(s, t, cell, expected, seen) && Brings(s, t, cell, src, val) && Locked(s, t, cell)
    case UnlockFailed(cell, expected, _) =>
      s.Usable(t, cell) && s.Private(t, expected) && cell != expected && Locked(s, t, cell)
  }

  ghost predicate Inv(s: State) {
    && s.slots.Keys == s.owner.Keys
    && (forall w: Wrapper :: Balanced(s, w))
    && forall t :: t in s.pcs ==> Relies(s, t, s.pcs[t])
  }

  // ---------- Keeping the books ----------

  function CountOf(s: State, w: Wrapper): nat {
    if w in s.heap then s.heap[w] else 0
  }

  function Dying(s: State, w: Wrapper): nat {
    if w in s.heap && s.heap[w] == 0 then 1 else 0
  }

  /** A step of `t` that changes no slot. */
  lemma PcBalance(s: State, s': State, t: Tid, w: Wrapper)
    requires Balanced(s, w) && t in s.pcs && t in s'.pcs
    requires s'.slots == s.slots && s'.pcs == s.pcs[t := s'.pcs[t]]
    requires CountOf(s', w) + PcHolds(s.pcs[t], w) == CountOf(s, w) + PcHolds(s'.pcs[t], w)
    requires Dying(s', w) + PcDeletes(s.pcs[t], w) == Dying(s, w) + PcDeletes(s'.pcs[t], w)
    ensures Balanced(s', w)
  {
    SumSet(s.pcs, t, s'.pcs[t], Holds(w));
    SumSet(s.pcs, t, s'.pcs[t], Deletes(w));
  }

  /** A step of `t` that stores into slot `x` and changes no count. */
  lemma StoreBalance(s: State, s': State, t: Tid, x: Slot, o: Option<Wrapper>, w: Wrapper)
    requires Balanced(s, w) && t in s.pcs && t in s'.pcs && x in s.slots && s'.heap == s.heap
    requires s'.slots == s.slots[x := o] && s'.pcs == s.pcs[t := s'.pcs[t]]
    requires One(s.slots[x], w) + PcHolds(s.pcs[t], w) == One(o, w) + PcHolds(s'.pcs[t], w)
    requires PcDeletes(s.pcs[t], w) == PcDeletes(s'.pcs[t], w)
    ensures Balanced(s', w)
  {
    SumSet(s.pcs, t, s'.pcs[t], Holds(w));
    SumSet(s.pcs, t, s'.pcs[t], Deletes(w));
    SumSet(s.slots, x, o, PointsTo(w));
  }

  /** What a slot points at is alive. */
  lemma SlotAlive(s: State, x: Slot, w: Wrapper)
    requires Balanced(s, w) && x in s.slots && s.slots[x] == Some(w)
    ensures w in s.heap && s.heap[w] > 0
  {
    SumRemove(s.slots, x, PointsTo(w));
  }

  /** What a thread holds a reference to is alive. */
  lemma HeldAlive(s: State, t: Tid, w: Wrapper)
    requires Balanced(s, w) && t in s.pcs && PcHolds(s.pcs[t], w) > 0
    ensures w in s.heap && s.heap[w] > 0
  {
    SumRemove(s.pcs, t, Holds(w));
  }

  lemma DeletedDying(s: State, t: Tid, w: Wrapper)
    requires Balanced(s, w) && t in s.pcs && PcDeletes(s.pcs[t], w) > 0
    ensures w in s.heap && s.heap[w] == 0
  {
    SumRemove(s.pcs, t, Deletes(w));
  }

  // ---------- Interference ----------

  /** A step of `t` changes only slots it has locked and may use, and no lock of another thread. */
  ghost predicate Frames(s: State, s': State, t: Tid) {
    && s'.owner == s.owner && s'.slots.Keys == s.slots.Keys
    && (forall x :: x in s.slots ==> s'.slots[x] == s.slots[x] || (s.Usable(t, x) && Locked(s, t, x)))
    && forall u, x :: u != t && Locked(s, u, x) ==> Locked(s', u, x)
  }

  lemma OthersRely(s: State, s': State, t: Tid, u: Tid, pc: Pc)
    requires Frames(s, s', t) && t != u && Relies(s, u, pc)
    ensures Relies(s', u, pc)
  {
  }

  /** What has to be shown of a step of `t`. */
  ghost predicate Good(s: State, t: Tid, out: Outcome) {
    && !out.Fault?
    && (out.Went? ==>
          && t in s.pcs && t in out.s.pcs && out.s.pcs == s.pcs[t := out.s.pcs[t]]
          && Frames(s, out.s, t) && Relies(out.s, t, out.s.pcs[t])
          && forall w: Wrapper :: Balanced(out.s, w))
  }

  lemma GoodInv(s: State, t: Tid, out: Outcome)
    requires Inv(s) && Good(s, t, out) && out.Went?
    ensures Inv(out.s)
  {
    var s' := out.s;
    forall u | u in s'.pcs ensures Relies(s', u, s'.pcs[u]) {
      if u != t {
        OthersRely(s, s', t, u, s.pcs[u]);
      }
    }
  }

  /** A step that only moves a thread and its locks on. */
  lemma MoveBalance(s: State, s': State, t: Tid)
    requires Inv(s) && t in s.pcs && t in s'.pcs && s'.slots == s.slots && s'.heap == s.heap
    requires s'.pcs == s.pcs[t := s'.pcs[t]] && !s.pcs[t].Delete? && !s'.pcs[t].Delete?
    requires forall w: Wrapper :: PcHolds(s'.pcs[t], w) == PcHolds(s.pcs[t], w)
    ensures forall w: Wrapper :: Balanced(s', w)
  {
    forall w: Wrapper ensures Balanced(s', w) {
      PcBalance(s, s', t, w);
    }
  }

  // ---------- The steps ----------

  lemma ShareGood(s: State, t: Tid)
    requires Inv(s) && t in s.pcs && (s.pcs[t].LockToShare? || s.pcs[t].LoadToShare?)
    ensures Good(s, t, StepShare(s, t, s.pcs[t]))
  {
    var out := StepShare(s, t, s.pcs[t]);
    if out.Went? {
      MoveBalance(s, out.s, t);
    }
  }

  lemma IncrementGood(s: State, t: Tid)
    requires Inv(s) && t in s.pcs && s.pcs[t].Increment?
    ensures Good(s, t, StepShare(s, t, s.pcs[t]))
  {
    SlotAlive(s, s.pcs[t].src, s.pcs[t].w);
    var s' := StepShare(s, t, s.pcs[t]).s;
    forall w: Wrapper ensures Balanced(s', w) {
      PcBalance(s, s', t, w);
    }
  }

  lemma UnlockSharedGood(s: State, t: Tid)
    requires Inv(s) && t in s.pcs && s.pcs[t].UnlockShared?
    ensures Good(s, t, StepShare(s, t, s.pcs[t]))
  {
    MoveBalance(s, StepShare(s, t, s.pcs[t]).s, t);
  }

  lemma LockGood(s: State, t: Tid)
    requires Inv(s) && t in s.pcs && (s.pcs[t].LockForReset? || s.pcs[t].LockForAssign? || s.pcs[t].LoadOld?)
    ensures Good(s, t, StepAssign(s, t, s.pcs[t]))
  {
    var out := StepAssign(s, t, s.pcs[t]);
    if out.Went? {
      MoveBalance(s, out.s, t);
    }
  }

  lemma StoreNewGood(s: State, t: Tid)
    requires Inv(s) && t in s.pcs && s.pcs[t].StoreNew?
    ensures Good(s, t, StepAssign(s, t, s.pcs[t]))
  {
    var s' := StepAssign(s, t, s.pcs[t]).s;
    forall w: Wrapper ensures Balanced(s', w) {
      StoreBalance(s, s', t, s.pcs[t].dst, s.pcs[t].val, w);
    }
  }

  lemma DecrementGood(s: State, t: Tid)
    requires Inv(s) && t in s.pcs && s.pcs[t].Decrement? && s.pcs[t].target.Some?
    ensures Good(s, t, StepRelease(s, t, s.pcs[t]))
  {
    HeldAlive(s, t, s.pcs[t].target.value);
    var s' := StepRelease(s, t, s.pcs[t]).s;
    forall w: Wrapper ensures Balanced(s', w) {
      PcBalance(s, s', t, w);
    }
  }

  lemma DeleteGood(s: State, t: Tid)
    requires Inv(s) && t in s.pcs && s.pcs[t].Delete?
    ensures Good(s, t, StepRelease(s, t, s.pcs[t]))
  {
    DeletedDying(s, t, s.pcs[t].w);
    var s' := StepRelease(s, t, s.pcs[t]).s;
    forall w: Wrapper ensures Balanced(s', w) {
      PcBalance(s, s', t, w);
    }
  }

  lemma UnlockLastGood(s: State, t: Tid)
    requires Inv(s) && t in s.pcs && (s.pcs[t].UnlockLast? || (s.pcs[t].Decrement? && s.pcs[t].target.None?))
    ensures Good(s, t, StepRelease(s, t, s.pcs[t]))
  {
    MoveBalance(s, StepRelease(s, t, s.pcs[t]).s, t);
  }

  lemma ExchangeGood(s: State, t: Tid, spurious: bool)
    requires Inv(s) && t in s.pcs && s.pcs[t].Exchange?
    ensures Good(s, t, StepExchange(s, t, s.pcs[t], spurious))
  {
    var s' := StepExchange(s, t, s.pcs[t], spurious).s;
    if s'.slots == s.slots && s'.pcs[t].UnlockFailed? {
      MoveBalance(s, s', t);
    } else {
      forall w: Wrapper ensures Balanced(s', w) {
        StoreBalance(s, s', t, s.pcs[t].cell, s.pcs[t].val, w);
      }
    }
  }

  /** The exchange swaps exactly when the cell holds what `expected` holds and the instruction does not
      fail for no reason; then the cell holds what `src` holds, and nothing else changes. */
  lemma ExchangeMeans(s: State, t: Tid, spurious: bool)
    requires Inv(s) && t in s.pcs && s.pcs[t].Exchange?
    ensures StepExchange(s, t, s.pcs[t], spurious).Went?
    ensures var Exchange(cell, expected, _, src, _) := s.pcs[t];
            cell in s.slots && expected in s.slots && src in s.slots
            && StepExchange(s, t, s.pcs[t], spurious).s.slots
               == if s.slots[cell] == s.slots[expected] && !spurious then s.slots[cell := s.slots[src]] else s.slots
  {
    assert Relies(s, t, s.pcs[t]);
  }

  lemma AroundExchangeGood(s: State, t: Tid, spurious: bool)
    requires Inv(s) && t in s.pcs
    requires s.pcs[t].LoadExpected? || s.pcs[t].LockToExchange? || s.pcs[t].UnlockFailed?
    ensures Good(s, t, StepExchange(s, t, s.pcs[t], spurious))
  {
    var out := StepExchange(s, t, s.pcs[t], spurious);
    if out.Went? {
      MoveBalance(s, out.s, t);
    }
  }

  lemma AdvancedGood(s: State, t: Tid, spurious: bool)
    requires Inv(s) && t in s.pcs
    ensures Good(s, t, Advanced(s, t, spurious))
  {
    match s.pcs[t]
    case Idle =>
    case LockForReset(_) => LockGood(s, t);
    case LockForAssign(_, _, _) => LockGood(s, t);
    case LoadOld(_, _, _) => LockGood(s, t);
    case StoreNew(_, _, _, _) => StoreNewGood(s, t);
    case LockToShare(_, _) => ShareGood(s, t);
    case LoadToShare(_, _) => ShareGood(s, t);
    case Increment(_, _, _) => IncrementGood(s, t);
    case UnlockShared(_, _, _) => UnlockSharedGood(s, t);
    case Decrement(target, _, _) =>
      if target.Some? { DecrementGood(s, t); } else { UnlockLastGood(s, t); }
    case Delete(_, _, _) => DeleteGood(s, t);
    case UnlockLast(_, _) => UnlockLastGood(s, t);
    case Exchange(_, _, _, _, _) => ExchangeGood(s, t, spurious);
    case _ => AroundExchangeGood(s, t, spurious);
  }

  lemma CallGood(s: State, ev: Event)
    requires Inv(s) && ev.t in s.pcs && s.pcs[ev.t].Idle?
    requires ev.CallReset? || ev.CallAssign? || ev.CallExchange?
    ensures Good(s, ev.t, Step(s, ev))
  {
    var out := Step(s, ev);
    if out.Went? {
      MoveBalance(s, out.s, ev.t);
    }
  }

  lemma CreateBalance(s: State, s': State, x: Slot, o: Option<Wrapper>, w: Wrapper)
    requires Balanced(s, w) && x !in s.slots && s'.slots == s.slots[x := o] && s'.pcs == s.pcs
    requires CountOf(s', w) == CountOf(s, w) + One(o, w) && Dying(s', w) == Dying(s, w)
    ensures Balanced(s', w)
  {
    SumSet(s.slots, x, o, PointsTo(w));
  }

  lemma DestroyBalance(s: State, s': State, x: Slot, w: Wrapper)
    requires Balanced(s, w) && x in s.slots && s.slots[x].None? && s'.slots == s.slots - {x}
    requires s'.pcs == s.pcs && s'.heap == s.heap
    ensures Balanced(s', w)
  {
    SumRemove(s.slots, x, PointsTo(w));
  }

  /** A new slot disturbs no one. */
  lemma CreateRely(s: State, s': State, u: Tid, pc: Pc)
    requires Relies(s, u, pc) && s'.locks == s.locks
    requires forall x :: x in s.slots && x in s.owner ==>
               x in s'.slots && x in s'.owner && s'.slots[x] == s.slots[x] && s'.owner[x] == s.owner[x]
    ensures Relies(s', u, pc)
  {
  }

  lemma CreateBalances(s: State, ev: Event)
    requires Inv(s) && (ev.Create? || ev.CreateWith?) && Step(s, ev).Went?
    ensures forall w: Wrapper :: Balanced(Step(s, ev).s, w)
  {
    var s' := Step(s, ev).s;
    var o := if ev.Create? then None else Some(ev.w);
    forall w: Wrapper ensures Balanced(s', w) {
      CreateBalance(s, s', ev.x, o, w);
    }
  }

  lemma CreateInv(s: State, ev: Event)
    requires Inv(s) && (ev.Create? || ev.CreateWith?) && Step(s, ev).Went?
    ensures Inv(Step(s, ev).s)
  {
    var s' := Step(s, ev).s;
    CreateBalances(s, ev);
    forall u | u in s'.pcs ensures Relies(s', u, s'.pcs[u]) {
      CreateRely(s, s', u, s.pcs[u]);
    }
    assert s'.slots.Keys == s.slots.Keys + {ev.x};
  }

  /** Only its owner can miss a private slot. */
  lemma DestroyInv(s: State, ev: Event)
    requires Inv(s) && ev.Destroy? && Step(s, ev).Went?
    ensures Inv(Step(s, ev).s)
  {
    var s' := Step(s, ev).s;
    forall w: Wrapper ensures Balanced(s', w) {
      DestroyBalance(s, s', ev.x, w);
    }
    forall u | u in s'.pcs ensures Relies(s', u, s'.pcs[u]) {
      assert u != ev.t ==> !s.Usable(u, ev.x);
    }
    assert s'.slots.Keys == s.slots.Keys - {ev.x};
  }

  /** No step from a sound state faults, and every step leads to a sound state. */
  lemma StepSafe(s: State, ev: Event)
    requires Inv(s)
    ensures !Step(s, ev).Fault?
    ensures Step(s, ev).Went? ==> Inv(Step(s, ev).s)
  {
    if ev.t in s.pcs && (ev.Advance? || s.pcs[ev.t].Idle?) {
      if ev.Create? || ev.CreateWith? || ev.Destroy? {
        if Step(s, ev).Went? {
          if ev.Destroy? { DestroyInv(s, ev); } else { CreateInv(s, ev); }
        }
      } else {
        if ev.Advance? { AdvancedGood(s, ev.t, ev.spurious); } else { CallGood(s, ev); }
        if Step(s, ev).Went? {
          GoodInv(s, ev.t, Step(s, ev));
        }
      }
    }
  }

  // ---------- Runs ----------

  function Run(s: State, evs: seq<Event>): Outcome
    decreases |evs|
  {
    if evs == [] then Went(s)
    else
      match Step(s, evs[0])
      case Went(s') => Run(s', evs[1..])
      case out => out
  }

  /** Any number of threads and no slot. */
  function Initial(threads: set<Tid>): State {
    State(map[], map[], map[], map[], map t | t in threads :: Idle)
  }

  lemma InitialInv(threads: set<Tid>)
    ensures Inv(Initial(threads))
  {
    var s := Initial(threads);
    forall w: Wrapper ensures Balanced(s, w) {
      SumPositive(s.pcs, Holds(w));
      SumPositive(s.pcs, Deletes(w));
    }
  }

  lemma {:induction false} RunSafe(s: State, evs: seq<Event>)
    requires Inv(s)
    ensures !Run(s, evs).Fault?
    ensures Run(s, evs).Went? ==> Inv(Run(s, evs).s)
    decreases |evs|
  {
    if evs != [] {
      StepSafe(s, evs[0]);
      match Step(s, evs[0])
      case Went(s') => RunSafe(s', evs[1..]);
      case _ =>
    }
  }

  function Pointing(s: State, w: Wrapper): set<Slot> {
    set x | x in s.slots && s.slots[x] == Some(w)
  }

  lemma PointingCounts(s: State, w: Wrapper)
    ensures Sum(s.slots, PointsTo(w)) == |Pointing(s, w)|
  {
    SumCounts(s.slots, PointsTo(w), Pointing(s, w));
  }

  ghost predicate Quiet(s: State) {
    forall t :: t in s.pcs ==> s.pcs[t].Idle?
  }

  lemma QuietHoldsNothing(s: State, w: Wrapper)
    requires Quiet(s)
    ensures Sum(s.pcs, Holds(w)) == 0 && Sum(s.pcs, Deletes(w)) == 0
  {
    forall t | t in s.pcs ensures Holds(w)(s.pcs[t]) == 0 && Deletes(w)(s.pcs[t]) == 0 {
      assert s.pcs[t] == Idle;
    }
    SumPositive(s.pcs, Holds(w));
    SumPositive(s.pcs, Deletes(w));
  }

  /** In every interleaving of any number of threads: no step touches or frees a freed wrapper; a
      wrapper's count is the number of slots that point at it plus the references held by calls in
      progress; no slot points at a freed wrapper; and once no call is in progress a wrapper is
      alive exactly while slots point at it, its count being their number. */
  lemma Sound(threads: set<Tid>, evs: seq<Event>, w: Wrapper)
    ensures !Run(Initial(threads), evs).Fault?
    ensures Run(Initial(threads), evs).Went? ==>
              var s := Run(Initial(threads), evs).s;
              && (w in s.heap ==> s.heap[w] == |Pointing(s, w)| + Sum(s.pcs, Holds(w)))
              && (w !in s.heap ==> Pointing(s, w) == {})
              && (Quiet(s) ==>
                    && (w in s.heap <==> Pointing(s, w) != {})
                    && (w in s.heap ==> s.heap[w] == |Pointing(s, w)|))
  {
    InitialInv(threads);
    RunSafe(Initial(threads), evs);
    if Run(Initial(threads), evs).Went? {
      var s := Run(Initial(threads), evs).s;
      assert Balanced(s, w);
      PointingCounts(s, w);
      if Quiet(s) {
        QuietHoldsNothing(s, w);
      }
    }
  }

  // ---------- Addresses that are in use ----------

  /** Slot `x` points at `w` all through a run. */
  predicate Keeps(s: State, evs: seq<Event>, x: Slot, w: Wrapper)
    decreases |evs|
  {
    && x in s.slots && s.slots[x] == Some(w)
    && (evs != [] && Step(s, evs[0]).Went? ==> Keeps(Step(s, evs[0]).s, evs[1..], x, w))
  }

  lemma PointedIsAlive(s: State, x: Slot, w: Wrapper)
    requires Inv(s) && x in s.slots && s.slots[x] == Some(w)
    ensures w in s.heap && s.heap[w] > 0
  {
    assert Balanced(s, w);
    assert PointsTo(w)(s.slots[x]) == 1;
    SumPositive(s.slots, PointsTo(w));
  }

  /** While a slot points at a wrapper, its address is not given to a new one: comparing addresses tells
      the wrapper from every other. */
  lemma {:induction false} NotReused(s: State, evs: seq<Event>, x: Slot, w: Wrapper)
    requires Inv(s) && Run(s, evs).Went? && Keeps(s, evs, x, w)
    ensures forall i :: 0 <= i < |evs| ==> !(evs[i].CreateWith? && evs[i].w == w)
    ensures w in Run(s, evs).s.heap
    decreases |evs|
  {
    PointedIsAlive(s, x, w);
    if evs != [] {
      StepSafe(s, evs[0]);
      NotReused(Step(s, evs[0]).s, evs[1..], x, w);
      forall i | 0 <= i < |evs| ensures !(evs[i].CreateWith? && evs[i].w == w) {
        assert i > 0 ==> evs[i] == evs[1..][i - 1];
      }
    }
  }
}
