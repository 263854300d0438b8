/** The same calls on both log stores, up to the timestamps that only the in-memory store keeps: which calls
    keep the two in step, and which range reads they then answer alike.
 */
module StoreAgreement {
  import opened Options
  import opened LogSpec
  import opened Serializer
  import opened EntryCodec
  import opened LogCache
  import InMemStore
  import InMemRuns
  import JungleStore
  import JungleRuns

  function StripLog(log: Log<Entry>): Log<Rec> {
    Log(log.start, Strips(log.entries))
  }

  /** The call of the database-backed store for a call of the in-memory store; purges succeed. */
  function CallOf(op: Op<Entry>): JungleRuns.Call {
    match op
    case Append(e) => JungleRuns.DoAppend(e)
    case WriteAt(i, e) => JungleRuns.DoWriteAt(i, e)
    case ApplyPack(i, es) => JungleRuns.DoApplyPack(i, Strips(es))
    case Compact(last) => JungleRuns.DoCompact(last, JungleStore.Done)
  }

  function CallsOf(ops: seq<Op<Entry>>): (calls: seq<JungleRuns.Call>)
    ensures |calls| == |ops| && forall i :: 0 <= i < |ops| ==> calls[i] == CallOf(ops[i])
  {
    seq(|ops|, i requires 0 <= i < |ops| => CallOf(ops[i]))
  }

  // ---------- Staying in step ----------

  /** Both stores stand for the same log. */
  predicate Matches(log: Log<Entry>, im: JungleRuns.Image) {
    1 <= log.start && im.log == StripLog(log) && (im.blank ==> log == Log(1, []))
  }

  /** A call that keeps the stores in step: an empty pack must not meet a log emptied elsewhere than at 1, and
      any other must continue the log, be it empty. */
  predicate Together(log: Log<Entry>, blank: bool, op: Op<Entry>) {
    op.ApplyPack? ==>
      if op.pack == [] then log.entries != [] || log.start == 1
      else if blank then 1 <= op.index
      else log.start <= op.index <= log.Next()
  }

  lemma StripPacked(log: Log<Entry>, i: nat, es: seq<Entry>)
    requires es == [] || Applicable(log, i)
    ensures StripLog(Packed(log, i, es)) == Packed(StripLog(log), i, Strips(es))
  {
    var l, r := StripLog(Packed(log, i, es)), Packed(StripLog(log), i, Strips(es));
    assert |l.entries| == |r.entries|;
    assert l.entries == r.entries;
  }

  lemma StripOthers(log: Log<Entry>, im: JungleRuns.Image, op: Op<Entry>)
    requires Matches(log, im) && !op.ApplyPack? && JungleRuns.Proper(im, CallOf(op))
    ensures Enabled(log, op) && Matches(Apply(log, op), JungleRuns.After(im, CallOf(op)))
  {
    match op {
      case Append(e) =>
        assert Strips(log.entries + [e]) == Strips(log.entries) + [Strip(e)];
      case WriteAt(i, e) =>
        assert Strips(log.entries[..i - log.start] + [e]) == Strips(log.entries)[..i - log.start] + [Strip(e)];
      case Compact(last) =>
        assert StripLog(Compacted(log, last)).entries == Compacted(StripLog(log), last).entries;
    }
  }

  /** A call that keeps the stores in step does to both what it should. */
  lemma StepTogether(log: Log<Entry>, im: JungleRuns.Image, dummy: Entry, op: Op<Entry>)
    requires Matches(log, im) && JungleRuns.Proper(im, CallOf(op)) && Together(log, im.blank, op)
    ensures Enabled(log, op) && InMemRuns.Keeps(log, dummy, op) && InMemRuns.After(log, dummy, op) == Apply(log, op)
    ensures JungleRuns.Fits(im, CallOf(op)) && Matches(Apply(log, op), JungleRuns.After(im, CallOf(op)))
  {
    if op.ApplyPack? {
      StripPacked(log, op.index, op.pack);
    } else {
      StripOthers(log, im, op);
    }
    InMemRuns.AllowedKeeps(log, dummy, op);
  }

  /** Any other call costs one of the stores its log, or leaves them with different ones. */
  lemma StepApart(log: Log<Entry>, im: JungleRuns.Image, dummy: Entry, op: Op<Entry>)
    requires Matches(log, im) && JungleRuns.Proper(im, CallOf(op)) && !Together(log, im.blank, op)
    ensures InMemRuns.Keeps(log, dummy, op) && JungleRuns.Fits(im, CallOf(op)) ==>
              JungleRuns.After(im, CallOf(op)).log != StripLog(InMemRuns.After(log, dummy, op))
  {
  }

  /** Every call of a run keeps the stores in step. */
  predicate TogetherRun(log: Log<Entry>, im: JungleRuns.Image, ops: seq<Op<Entry>>)
    requires JungleRuns.ProperRun(im, CallsOf(ops))
    decreases |ops|
  {
    ops == [] ||
    (assert CallsOf(ops)[1..] == CallsOf(ops[1..]);
     Together(log, im.blank, ops[0]) &&
     (Enabled(log, ops[0]) && JungleRuns.Fits(im, CallOf(ops[0])) ==>
        TogetherRun(Apply(log, ops[0]), JungleRuns.After(im, CallOf(ops[0])), ops[1..])))
  }

  lemma {:induction false} RunTogether(log: Log<Entry>, im: JungleRuns.Image, dummy: Entry, ops: seq<Op<Entry>>)
    requires Matches(log, im) && JungleRuns.ProperRun(im, CallsOf(ops)) && TogetherRun(log, im, ops)
    ensures EnabledRun(log, ops) && InMemRuns.Final(log, dummy, ops) == Some(Run(log, ops))
    ensures JungleRuns.Final(im, CallsOf(ops)).Some?
    ensures JungleRuns.Final(im, CallsOf(ops)).value.log == StripLog(Run(log, ops))
    decreases |ops|
  {
    if ops != [] {
      StepTogether(log, im, dummy, ops[0]);
      assert CallsOf(ops)[1..] == CallsOf(ops[1..]);
      RunTogether(Apply(log, ops[0]), JungleRuns.After(im, CallOf(ops[0])), dummy, ops[1..]);
    }
  }

  // ---------- What readers of both get ----------

  /** Both range reads take the same number of entries: there are some, the hint is not negative, and a
      positive one is reached alike by payload sizes and by container sizes, which do not count for one or
      two entries that are not cached. */
  predicate SameTaken(size: Container, log: Log<Rec>, q: Query, cached: bool)
    requires Asks(log, q)
  {
    q.from < q.to && 0 <= q.hint &&
    var all := RangeOf(log, q);
    Taken(InMemStore.Payload, all, q.hint) == if cached || |all| > 2 then Taken(size, all, q.hint) else |all|
  }

  lemma StripRange(log: Log<Entry>, q: Query)
    requires q.from < q.to && Asks(log, q)
    ensures Strips(RangeOf(log, q)) == RangeOf(StripLog(log), q)
  {
  }

  /** When the two range reads agree. */
  lemma RangesAgree(size: Container, log: Log<Entry>, q: Query, range: Option<seq<Entry>>, cached: bool)
    requires Asks(log, q) && JungleRuns.ShowsRange(size, StripLog(log), q, range, cached)
    ensures range.Some? && Strips(range.value) == Strips(InMemRuns.Shown(log, q)) <==>
            SameTaken(size, StripLog(log), q, cached)
  {
    if q.from < q.to {
      var all := RangeOf(StripLog(log), q);
      StripRange(log, q);
      TakenIsLimited(size, all, q.hint);
      TakenIsLimited(InMemStore.Payload, all, q.hint);
      var n := Taken(InMemStore.Payload, all, q.hint);
      if q.hint >= 0 {
        assert Strips(InMemRuns.Shown(log, q)) == all[..n];
      } else {
        assert |JungleRuns.Shown(size, all, q.hint, cached)| == |all| > 0;
      }
    }
  }

  /** Runs the same calls on both stores. As long as every call keeps them in step both show the plain log
      after the calls, one of them without timestamps; a range read with a hint gives the same if and only if
      both take the same number of entries. */
  method Agree(lim: Limits, format: InMemStore.Format, payload: seq<Byte>, ops: seq<Op<Entry>>, q: Query)
    returns (seen: JungleRuns.Seen, seen': InMemRuns.Seen)
    requires forall k :: 0 <= k < |ops| ==> InMemRuns.CarriesOp(format, ops[k])
    requires JungleRuns.ProperRun(JungleRuns.BLANK, CallsOf(ops)) && TogetherRun(Log(1, []), JungleRuns.BLANK, ops)
    requires EnabledRun(Log(1, []), ops) ==> Asks(Run(Log(1, []), ops), q)
    ensures EnabledRun(Log(1, []), ops) && JungleRuns.Final(JungleRuns.BLANK, CallsOf(ops)).Some?
    ensures var log := Run(Log(1, []), ops);
            var cached := JungleRuns.CachedAfter(lim, CallsOf(ops)) <= q.from;
            && JungleRuns.Shows(StripLog(log), q, seen) && InMemRuns.Shows(log, Entry(0, 1, payload, 0), q, seen')
            && JungleRuns.ShowsRange(lim.size, StripLog(log), q, seen.range, cached)
            && (seen.range.Some? && Strips(seen.range.value) == Strips(seen'.range) <==>
                  SameTaken(lim.size, StripLog(log), q, cached))
  {
    RunTogether(Log(1, []), JungleRuns.BLANK, Entry(0, 1, payload, 0), ops);
    var a := JungleRuns.Observe(lim, CallsOf(ops), q);
    var b := InMemRuns.Observe(format, payload, ops, q);
    seen, seen' := a.value, b.value;
    RangesAgree(lim.size, Run(Log(1, []), ops), q, seen.range, JungleRuns.CachedAfter(lim, CallsOf(ops)) <= q.from);
  }

  // ---------- How they differ ----------

  lemma AllShown(size: Container, log: Log<Rec>, q: Query, range: Option<seq<Entry>>, cached: bool)
    requires Asks(log, q) && q.from < q.to && q.hint < 0 && JungleRuns.ShowsRange(size, log, q, range, cached)
    ensures range.Some? && Strips(range.value) == RangeOf(log, q)
  {
  }

  /** Entries read with a negative hint: the in-memory store returns nothing, the other one all of them. */
  method NegativeHint(lim: Limits, format: InMemStore.Format, payload: seq<Byte>, ops: seq<Op<Entry>>, q: Query)
    returns (a: seq<Entry>, b: seq<Entry>)
    requires forall k :: 0 <= k < |ops| ==> InMemRuns.CarriesOp(format, ops[k])
    requires JungleRuns.ProperRun(JungleRuns.BLANK, CallsOf(ops)) && TogetherRun(Log(1, []), JungleRuns.BLANK, ops)
    requires EnabledRun(Log(1, []), ops) && Asks(Run(Log(1, []), ops), q) && q.from < q.to && q.hint < 0
    ensures Strips(a) == Strips(RangeOf(Run(Log(1, []), ops), q)) && b == []
  {
    var seen, seen' := Agree(lim, format, payload, ops, q);
    ghost var log := Run(Log(1, []), ops);
    StripRange(log, q);
    AllShown(lim.size, StripLog(log), q, seen.range, JungleRuns.CachedAfter(lim, CallsOf(ops)) <= q.from);
    a, b := seen.range.value, seen'.range;
  }

  /** Such as one entry appended and read back. */
  lemma OneAppend(e: Entry)
    requires Storable(Strip(e))
    ensures var ops, calls, q := [Append(e)], CallsOf([Append(e)]), Query(1, 1, 2, -1);
            && JungleRuns.ProperRun(JungleRuns.BLANK, calls) && TogetherRun(Log(1, []), JungleRuns.BLANK, ops)
            && EnabledRun(Log(1, []), ops) && Asks(Run(Log(1, []), ops), q) && RangeOf(Run(Log(1, []), ops), q) == [e]
  {
    var ops: seq<Op<Entry>> := [Append(e)];
    var calls := CallsOf(ops);
    assert ops[1..] == [] && calls[1..] == [];
    var im := JungleRuns.After(JungleRuns.BLANK, calls[0]);
    assert JungleRuns.ProperRun(im, calls[1..]);
    assert JungleRuns.ProperRun(JungleRuns.BLANK, calls);
    assert [] + [e] == [e] && [e][0..1] == [e];
    assert EnabledRun(Log(1, [e]), ops[1..]) && Run(Log(1, [e]), ops[1..]) == Log(1, [e]);
  }

  /** A run on which one store loses its log: after a purge a pack leaves a gap. The in-memory store starts
      over at its index. */
  lemma Differ(last: nat, index: nat, es: seq<Entry>, dummy: Entry)
    requires last + 1 < index && es != [] && JungleRuns.Carries(JungleRuns.DoApplyPack(index, Strips(es)))
    ensures var ops := [Compact(last), ApplyPack(index, es)];
            && InMemRuns.Final(Log(1, []), dummy, ops) == Some(Log(index, es))
            && JungleRuns.ProperRun(JungleRuns.BLANK, CallsOf(ops))
            && JungleRuns.Final(JungleRuns.BLANK, CallsOf(ops)) == None
  {
    var ops: seq<Op<Entry>> := [Compact(last), ApplyPack(index, es)];
    var calls := CallsOf(ops);
    var log: Log<Entry> := Log(last + 1, []);
    assert Compacted(Log(1, []), last) == log && ops[1..][1..] == [];
    assert InMemRuns.Final(log, dummy, ops[1..]) == InMemRuns.Final(Log(index, es), dummy, ops[1..][1..]);
    assert calls[1..][0] == JungleRuns.DoApplyPack(index, Strips(es));
    var im := JungleRuns.After(JungleRuns.BLANK, calls[0]);
    assert im == JungleRuns.Image(Log(last + 1, []), false) && !JungleRuns.Fits(im, calls[1..][0]);
    assert JungleRuns.ProperRun(im, calls[1..]) && JungleRuns.Final(im, calls[1..]) == None;
  }
}
