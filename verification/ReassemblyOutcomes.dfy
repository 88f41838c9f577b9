// What one arrival does to the out-of-order map, in arithmetic: when it is a duplicate, when it
// is delivered, when it waits, and when the gap before it is given up.
module ReassemblyOutcomes {
  import opened Common
  import opened Reassembly
  import opened ReassemblySteps
  import opened ReassemblyRuns

  // The pending bytes, one segment after the other.
  function PendingData(p: seq<Entry>): Bytes {
    if p == [] then [] else p[0].seg.data + PendingData(p[1..])
  }

  lemma {:induction false} PendingBytesIsLength(p: seq<Entry>)
    ensures PendingBytes(p) == |PendingData(p)|
  {
    if p != [] {
      PendingBytesIsLength(p[1..]);
    }
  }

  // `q` is the map `p` with the binding of one key replaced or added.
  ghost predicate Updates(p: seq<Entry>, q: seq<Entry>, e: Entry) {
    && (forall i, j :: 0 <= i < j < |q| ==> q[i].key < q[j].key)
    && (forall x :: x in q <==> x == e || (x in p && x.key != e.key))
  }

  // The segment's offset in the stream.
  function OffsetOf(st: State, a: Arrival): nat {
    (a.seqno - (if st.base.Some? then st.base.value else a.seqno)) % SEQ_SPACE
  }

  // It carries nothing beyond what is delivered, or no more than what waits at its offset.
  ghost predicate Redundant(st: State, a: Arrival) {
    || OffsetOf(st, a) + |a.payload| <= st.next
    || a.payload == []
    || (OffsetOf(st, a) > st.next
        && exists e :: e in st.pending && e.key == OffsetOf(st, a) && |e.seg.data| >= |a.payload|)
  }

  // It lies beyond a gap and has to wait.
  ghost predicate Waits(st: State, a: Arrival) {
    !Redundant(st, a) && OffsetOf(st, a) > st.next
  }

  // When the gap it waits for appeared.
  function OpenedAt(st: State, a: Arrival): nat
    requires st.pending != [] ==> st.since.Some?
  {
    if st.pending == [] then a.clock.openedAt else st.since.value
  }

  ghost predicate WithinCaps(p: seq<Entry>, lim: Limits) {
    |PendingData(p)| <= lim.maxBytes && |p| <= lim.maxPackets
  }

  lemma {:induction false} FindIsBinding(p: seq<Entry>, key: nat, n: nat)
    requires Sorted(p)
    ensures (Find(p, key).Some? && |Find(p, key).value.data| >= n)
            <==> exists e :: e in p && e.key == key && |e.seg.data| >= n
  {
    FindIsMember(p, key);
    if Find(p, key).Some? {
      var f := Entry(key, Find(p, key).value);
      forall e | e in p && e.key == key
        ensures e == f
      {
        SameKeySameEntry(p, e, f);
      }
    }
  }

  // Any arrival is redundant, delivered or made to wait, and is reported so. One that waits is
  // entered in the map; the gap is given up exactly when it has been open for longer than the age
  // limit, and then with everything pending, or when a cap is exceeded, and then with the fewest
  // lowest-keyed segments that restore both; its clock starts with the first segment to wait.
  lemma PushIsExact(st: State, lim: Limits, a: Arrival)
    requires Valid(st, lim)
    ensures var r := Push(st, lim, a);
            if Redundant(st, a) then
              r.outcome == DuplicateDiscarded && r.evicted == []
              && r.st == if a.payload == [] then st else SetIsn(st, a.seqno)
            else if OffsetOf(st, a) <= st.next then
              r.outcome == Delivered && r.evicted == []
              && r.st.since == (if r.st.pending == [] then None else st.since)
            else WaitsExactly(st, lim, a, r)
  {
    if a.payload != [] {
      var st1 := SetIsn(st, a.seqno);
      var seg := Segment(a.packet, a.start, a.end, a.payload);
      var rel := Relative(st1.base.value, a.seqno);
      assert rel == OffsetOf(st, a);
      if rel > st.next {
        FindIsBinding(st.pending, rel, |a.payload|);
        if Waits(st, a) {
          InsertUpdates(st.pending, Entry(rel, seg));
          BufferIsExact(st1, lim, Entry(rel, seg), a.clock);
        }
      }
    }
  }

  ghost predicate WaitsExactly(st: State, lim: Limits, a: Arrival, r: PushResult)
    requires a.payload != [] && (st.pending != [] ==> st.since.Some?)
  {
    var e := Entry(OffsetOf(st, a), Segment(a.packet, a.start, a.end, a.payload));
    exists p :: Updates(st.pending, p, e) && GivesUp(SetIsn(st, a.seqno), lim, p, OpenedAt(st, a), a.clock.checkedAt, r)
  }

  // What becomes of the map `p` of a gap open since `from`, at a given time.
  ghost predicate GivesUp(st: State, lim: Limits, p: seq<Entry>, from: nat, now: nat, r: PushResult) {
    && r.st == st.(pending := r.st.pending, since := if r.st.pending == [] then None else Some(from))
    && r.evicted + r.st.pending == p
    && if now - from > lim.maxAge then
         r.outcome == GapAbandoned(|PendingData(p)|) && r.st.pending == []
       else if WithinCaps(p, lim) then
         r.outcome == BufferedOutOfOrder && r.evicted == []
       else
         && r.outcome == GapAbandoned(|PendingData(r.evicted)|)
         && WithinCaps(r.st.pending, lim)
         && forall j :: 0 <= j < |r.evicted| ==> !WithinCaps(p[j..], lim)
  }

  lemma CapsAreFits(p: seq<Entry>, lim: Limits)
    ensures WithinCaps(p, lim) <==> Fits(p, lim)
  {
    PendingBytesIsLength(p);
  }

  lemma InsertUpdates(p: seq<Entry>, e: Entry)
    requires Sorted(p)
    ensures Updates(p, Insert(p, e), e) && Insert(p, e) != []
  {
    InsertSorted(p, e);
    InsertIsUpdate(p, e);
    assert e in Insert(p, e);
  }

  // The segments given up are the fewest that restore both caps, and are reported to the byte.
  lemma EvictsExactly(p: seq<Entry>, lim: Limits)
    ensures var k := EvictCount(p, lim);
            && p[..k] + p[k..] == p && PendingBytes(p[..k]) == |PendingData(p[..k])|
            && WithinCaps(p[k..], lim)
            && forall j :: 0 <= j < k ==> !WithinCaps(p[j..], lim)
  {
    var k := EvictCount(p, lim);
    CapsAreFits(p[k..], lim);
    PendingBytesIsLength(p[..k]);
    forall j | 0 <= j < k
      ensures !WithinCaps(p[j..], lim)
    {
      CapsAreFits(p[j..], lim);
    }
  }

  lemma GivesUpExactly(st: State, lim: Limits, p: seq<Entry>, from: nat, now: nat)
    requires p != []
    ensures GivesUp(st, lim, p, from, now, Settle(st, lim, p, Some(from), now))
  {
    CapsAreFits(p, lim);
    PendingBytesIsLength(p);
    EvictsExactly(p, lim);
    assert p + [] == p && [] + p == p;
  }

  lemma BufferIsExact(st: State, lim: Limits, e: Entry, clock: Clock)
    requires st.pending == [] <==> st.since.None?
    requires Find(st.pending, e.key).None? || |Find(st.pending, e.key).value.data| < |e.seg.data|
    requires Insert(st.pending, e) != []
    ensures var from := if st.pending == [] then clock.openedAt else st.since.value;
            GivesUp(st, lim, Insert(st.pending, e), from, clock.checkedAt, Buffer(st, lim, e, clock))
  {
    var from := if st.pending == [] then clock.openedAt else st.since.value;
    GivesUpExactly(st, lim, Insert(st.pending, e), from, clock.checkedAt);
  }

  // ----- the clock of a gap, over runs -----

  function PendingAfter(lim: Limits, ops: seq<Op>, n: nat): seq<Entry>
    requires n <= |ops|
  {
    var r := Run(lim, ops[..n]);
    if r.None? then [] else r.value.st.pending
  }

  // The i-th call opened the gap that has been open ever since.
  ghost predicate Opened(lim: Limits, ops: seq<Op>, i: nat) {
    && i < |ops| && ops[i].Arrive?
    && PendingAfter(lim, ops, i) == []
    && forall j :: i < j <= |ops| ==> PendingAfter(lim, ops, j) != []
  }

  lemma OpenedIsUnique(lim: Limits, ops: seq<Op>, i: nat, j: nat)
    requires Opened(lim, ops, i) && Opened(lim, ops, j)
    ensures i == j
  {
  }

  lemma OpenedGrows(lim: Limits, ops: seq<Op>, i: nat)
    requires ops != [] && PendingAfter(lim, ops, |ops|) != []
    requires Opened(lim, ops[..|ops| - 1], i)
    ensures Opened(lim, ops, i)
  {
    var init := ops[..|ops| - 1];
    forall j | 0 <= j <= |init|
      ensures PendingAfter(lim, ops, j) == PendingAfter(lim, init, j)
    {
      assert ops[..j] == init[..j];
    }
    assert ops[i] == init[i];
  }

  // While anything is pending, the clock reads when the segment that opened the gap arrived.
  lemma {:induction false} ClockIsOpening(lim: Limits, ops: seq<Op>)
    requires Run(lim, ops).Some? && Run(lim, ops).value.st.pending != []
    ensures exists i: nat :: Opened(lim, ops, i) && Run(lim, ops).value.st.since == Some(ops[i].a.clock.openedAt)
    decreases |ops|
  {
    var init, op := ops[..|ops| - 1], ops[|ops| - 1];
    var before := Run(lim, init).value.st;
    assert ops[..|ops|] == ops && init[..|init|] == init;
    RunKeepsValid(lim, init);
    ClockStep(lim, ops);
    if before.pending == [] {
      assert Opened(lim, ops, |ops| - 1);
    } else {
      ClockIsOpening(lim, init);
      var i: nat :| Opened(lim, init, i) && before.since == Some(init[i].a.clock.openedAt);
      OpenedGrows(lim, ops, i);
      assert ops[i] == init[i];
    }
  }

  lemma ClockStep(lim: Limits, ops: seq<Op>)
    requires ops != [] && Run(lim, ops).Some? && Run(lim, ops).value.st.pending != []
    ensures var before, op := Run(lim, ops[..|ops| - 1]).value.st, ops[|ops| - 1];
            if before.pending == [] then
              op.Arrive? && Run(lim, ops).value.st.since == Some(op.a.clock.openedAt)
            else Run(lim, ops).value.st.since == before.since
  {
    var init, op := ops[..|ops| - 1], ops[|ops| - 1];
    RunKeepsValid(lim, init);
    if op.Arrive? {
      PushClock(Run(lim, init).value.st, lim, op.a);
    }
  }

  lemma PushClock(st: State, lim: Limits, a: Arrival)
    requires Valid(st, lim) && Push(st, lim, a).st.pending != []
    ensures Push(st, lim, a).st.since == if st.pending == [] then Some(a.clock.openedAt) else st.since
  {
    PushIsExact(st, lim, a);
    if Push(st, lim, a).outcome.Delivered? && st.pending == [] {
      NothingToDrain(st, lim, a);
    }
  }

  lemma NothingToDrain(st: State, lim: Limits, a: Arrival)
    requires st.pending == [] && Push(st, lim, a).outcome.Delivered?
    ensures Push(st, lim, a).st.pending == []
  {
  }

  // The gap before a waiting segment was opened at that time, and is given up exactly when that
  // is longer ago than the age limit, with everything pending, or a cap is exceeded.
  ghost predicate AbandonedExactly(st: State, lim: Limits, a: Arrival, since: nat, r: PushResult) {
    var e := Entry(OffsetOf(st, a), Segment(a.packet, a.start, a.end, a.payload));
    exists p :: Updates(st.pending, p, e) && AbandonsExactly(lim, p, a.clock.checkedAt - since, r)
  }

  ghost predicate AbandonsExactly(lim: Limits, p: seq<Entry>, age: int, r: PushResult) {
    && (r.outcome.GapAbandoned? <==> age > lim.maxAge || !WithinCaps(p, lim))
    && (age > lim.maxAge ==> r.evicted == p && r.st.pending == [] && r.outcome == GapAbandoned(|PendingData(p)|))
  }

  lemma WaitingIsAbandonedExactly(st: State, lim: Limits, a: Arrival)
    requires Valid(st, lim) && Waits(st, a)
    ensures AbandonedExactly(st, lim, a, OpenedAt(st, a), Push(st, lim, a))
  {
    PushIsExact(st, lim, a);
    var r := Push(st, lim, a);
    var e := Entry(OffsetOf(st, a), Segment(a.packet, a.start, a.end, a.payload));
    var p :| Updates(st.pending, p, e)
             && GivesUp(SetIsn(st, a.seqno), lim, p, OpenedAt(st, a), a.clock.checkedAt, r);
    assert r.st.pending == [] ==> r.evicted == p;
    assert AbandonsExactly(lim, p, a.clock.checkedAt - OpenedAt(st, a), r);
  }

  // So in any run a segment that has to wait finds its gap given up exactly when that much time
  // has passed since the arrival that opened it, or a cap is exceeded.
  lemma GapIsGivenUpExactly(lim: Limits, ops: seq<Op>, a: Arrival, i: nat)
    requires Run(lim, ops).Some? && Opened(lim, ops, i) && Waits(Run(lim, ops).value.st, a)
    ensures AbandonedExactly(Run(lim, ops).value.st, lim, a, ops[i].a.clock.openedAt,
                             Push(Run(lim, ops).value.st, lim, a))
  {
    var st := Run(lim, ops).value.st;
    RunKeepsValid(lim, ops);
    assert ops[..|ops|] == ops;
    assert PendingAfter(lim, ops, |ops|) == st.pending;
    ClockIsOpening(lim, ops);
    var j: nat :| Opened(lim, ops, j) && st.since == Some(ops[j].a.clock.openedAt);
    OpenedIsUnique(lim, ops, i, j);
    WaitingIsAbandonedExactly(st, lim, a);
  }
}
