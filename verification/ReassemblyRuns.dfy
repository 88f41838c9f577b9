// What holds of every run of the reassembler: the delivered bytes are a hole-free prefix of
// the true stream, no pushed byte disappears unreported, and arrival order does not matter.
module ReassemblyRuns {
  import opened Common
  import opened Reassembly
  import opened ReassemblySteps

  datatype Op = Isn(first: U32) | Arrive(a: Arrival) | Consume(n: nat)

  // A state with everything the run has handed out or given up so far.
  datatype Log = Log(st: State, taken: Bytes, pieces: seq<SourcePiece>, evicted: seq<Entry>, reported: nat)

  // None when the call panics: more bytes consumed than are available.
  function Step(lim: Limits, log: Log, op: Op): Option<Log> {
    match op
    case Isn(first) => Some(log.(st := SetIsn(log.st, first)))
    case Arrive(a) =>
      var r := Push(log.st, lim, a);
      Some(log.(st := r.st, evicted := log.evicted + r.evicted,
                reported := log.reported + if r.outcome.GapAbandoned? then r.outcome.bytes else 0))
    case Consume(n) =>
      if n > |Concat(log.st.contiguous)| then None
      else
        var r := Take(log.st.contiguous, n);
        Some(log.(st := log.st.(contiguous := r.rest), taken := log.taken + r.bytes,
                  pieces := log.pieces + r.pieces))
  }

  function Run(lim: Limits, ops: seq<Op>): Option<Log>
    decreases |ops|
  {
    if ops == [] then Some(Log(FRESH, [], [], [], 0))
    else
      var before := Run(lim, ops[..|ops| - 1]);
      if before.None? then None else Step(lim, before.value, ops[|ops| - 1])
  }

  // Every reachable state satisfies the invariant, and the evicted bytes are the reported ones.
  lemma {:induction false} RunKeepsValid(lim: Limits, ops: seq<Op>)
    requires Run(lim, ops).Some?
    ensures var log := Run(lim, ops).value;
            && Valid(log.st, lim)
            && log.reported == PendingBytes(log.evicted)
            && (log.evicted == [] <==> log.reported == 0)
    decreases |ops|
  {
    if ops != [] {
      RunKeepsValid(lim, ops[..|ops| - 1]);
      var log := Run(lim, ops[..|ops| - 1]).value;
      match ops[|ops| - 1]
      case Isn(_) =>
      case Arrive(a) =>
        PushKeepsValid(log.st, lim, a);
        EvictionIsExact(log.st, lim, a);
        PendingBytesAppend(log.evicted, Push(log.st, lim, a).evicted);
      case Consume(n) =>
        if log.st.base.None? {
          assert Take([], 0).rest == [];
        }
    }
  }

  lemma AnchorSticks(lim: Limits, ops: seq<Op>)
    requires ops != [] && Run(lim, ops).Some?
    ensures var before := Run(lim, ops[..|ops| - 1]).value.st.base;
            before.Some? ==> Run(lim, ops).value.st.base == before
    ensures ops[|ops| - 1].Arrive? && ops[|ops| - 1].a.payload != [] ==>
              Run(lim, ops).value.st.base ==
              SetIsn(Run(lim, ops[..|ops| - 1]).value.st, ops[|ops| - 1].a.seqno).base
  {
  }

  // ----- lossless prefix -----

  // The arrival is a slice of the stream whose first byte has sequence number `base`.
  ghost predicate Honest(stream: Bytes, base: U32, a: Arrival) {
    exists k: nat :: SliceAt(stream, base, a, k)
  }

  ghost predicate SliceAt(stream: Bytes, base: U32, a: Arrival, k: nat) {
    && k + |a.payload| <= |stream|
    && a.payload == stream[k..k + |a.payload|]
    && a.seqno == (base + k) % SEQ_SPACE
  }

  // A wrapping sequence number tells the offset exactly within the first 2^32 bytes.
  lemma RelativeIsOffset(base: U32, k: nat)
    ensures Relative(base, (base + k) % SEQ_SPACE) == k % SEQ_SPACE
    ensures Relative(base, (base + k) % SEQ_SPACE) == k <==> k < SEQ_SPACE
  {
  }

  ghost predicate HonestRun(stream: Bytes, base: U32, ops: seq<Op>) {
    forall op :: op in ops && op.Arrive? && op.a.payload != [] ==> Honest(stream, base, op.a)
  }

  // What has been handed out, followed by what is queued, is the stream up to the first hole.
  ghost predicate OnStream(stream: Bytes, log: Log) {
    && log.st.next <= |stream|
    && log.taken + Concat(log.st.contiguous) == stream[..log.st.next]
    && HonestEntries(stream, log.st.pending)
  }

  // An honest arrival is the slice at its relative position.
  lemma HonestOffset(stream: Bytes, base: U32, a: Arrival)
    requires |stream| <= SEQ_SPACE && a.payload != [] && Honest(stream, base, a)
    ensures var rel := Relative(base, a.seqno);
            rel + |a.payload| <= |stream| && a.payload == stream[rel..rel + |a.payload|]
  {
    var k: nat :| SliceAt(stream, base, a, k);
    RelativeIsOffset(base, k);
  }

  lemma OnStreamGrows(stream: Bytes, log: Log, after: Log)
    requires OnStream(stream, log) && after.taken == log.taken
    requires log.st.next <= after.st.next <= |stream| && HonestEntries(stream, after.st.pending)
    requires Concat(after.st.contiguous) == Concat(log.st.contiguous) + stream[log.st.next..after.st.next]
    ensures OnStream(stream, after)
  {
    Extends(stream, log.taken, Concat(log.st.contiguous), log.st.next, after.st.next);
  }

  lemma ArriveOnStream(lim: Limits, log: Log, a: Arrival, stream: Bytes, base: U32)
    requires Valid(log.st, lim) && OnStream(stream, log) && |stream| <= SEQ_SPACE
    requires a.payload != [] ==> SetIsn(log.st, a.seqno).base == Some(base) && Honest(stream, base, a)
    ensures OnStream(stream, Step(lim, log, Arrive(a)).value)
  {
    if a.payload != [] {
      HonestOffset(stream, base, a);
    }
    PushHonest(stream, log.st, lim, a);
    OnStreamGrows(stream, log, Step(lim, log, Arrive(a)).value);
  }

  lemma Extends(stream: Bytes, taken: Bytes, queued: Bytes, from: nat, to: nat)
    requires from <= to <= |stream| && taken + queued == stream[..from]
    ensures taken + (queued + stream[from..to]) == stream[..to]
  {
    assert taken + (queued + stream[from..to]) == (taken + queued) + stream[from..to];
    assert stream[..from] + stream[from..to] == stream[..to];
  }

  lemma ConsumeOnStream(lim: Limits, log: Log, n: nat, stream: Bytes)
    requires OnStream(stream, log) && n <= |Concat(log.st.contiguous)|
    ensures OnStream(stream, Step(lim, log, Consume(n)).value)
  {
    TakeSplits(log.st.contiguous, n);
    var c := Concat(log.st.contiguous);
    assert log.taken + c[..n] + c[n..] == log.taken + c;
  }

  // Whatever the order, duplication, overlap, wrap-around or eviction, the bytes handed out
  // followed by those still queued are the true stream up to the first missing byte.
  lemma {:induction false} LosslessPrefix(lim: Limits, ops: seq<Op>, stream: Bytes, base: U32)
    requires Run(lim, ops).Some?
    requires |stream| <= SEQ_SPACE
    requires Run(lim, ops).value.st.base in {None, Some(base)}
    requires HonestRun(stream, base, ops)
    ensures OnStream(stream, Run(lim, ops).value)
    decreases |ops|
  {
    if ops != [] {
      var init, op := ops[..|ops| - 1], ops[|ops| - 1];
      assert op in ops;
      AnchorSticks(lim, ops);
      assert HonestRun(stream, base, init);
      LosslessPrefix(lim, init, stream, base);
      RunKeepsValid(lim, init);
      var log := Run(lim, init).value;
      match op
      case Isn(_) =>
      case Arrive(a) => ArriveOnStream(lim, log, a, stream, base);
      case Consume(n) => ConsumeOnStream(lim, log, n, stream);
    }
  }

  // An in-order segment is thrown away as a duplicate exactly when it is no longer than the
  // whole multiples of 2^32 already delivered: its wrapped position lies that far back.
  lemma InOrderDiscardedExactlyWhenWrapped(st: State, lim: Limits, a: Arrival, base: U32)
    requires st.base == Some(base) && a.payload != []
    requires a.seqno == (base + st.next) % SEQ_SPACE
    ensures var r := Push(st, lim, a);
            && (r.outcome.DuplicateDiscarded? <==> |a.payload| <= SEQ_SPACE * (st.next / SEQ_SPACE))
            && (r.outcome.Delivered? <==> |a.payload| > SEQ_SPACE * (st.next / SEQ_SPACE))
            && (r.outcome.DuplicateDiscarded? ==> r.st == st && r.evicted == [])
            && (|a.payload| <= SEQ_SPACE ==> (r.outcome.Delivered? <==> st.next < SEQ_SPACE))
  {
    var wraps := st.next / SEQ_SPACE;
    RelativeIsOffset(base, st.next);
    assert st.next % SEQ_SPACE == st.next - SEQ_SPACE * wraps;
    assert wraps >= 1 ==> SEQ_SPACE * wraps >= SEQ_SPACE;
  }

  // ----- no silent loss, confluence -----

  ghost predicate Pushed(base: U32, ops: seq<Op>, x: nat) {
    exists op :: op in ops && op.Arrive? && Carries(base, op.a, x)
  }

  lemma PushedSnoc(base: U32, ops: seq<Op>, x: nat)
    requires ops != []
    ensures var op := ops[|ops| - 1];
            Pushed(base, ops, x) <==> Pushed(base, ops[..|ops| - 1], x) || (op.Arrive? && Carries(base, op.a, x))
  {
    var init, op := ops[..|ops| - 1], ops[|ops| - 1];
    assert ops == init + [op];
    if Pushed(base, init, x) {
      var o :| o in init && o.Arrive? && Carries(base, o.a, x);
      assert o in ops;
    }
    if op.Arrive? && Carries(base, op.a, x) {
      assert op in ops;
    }
  }

  // A stream position was pushed exactly when it is delivered, pending, or in a reported eviction.
  lemma {:induction false} NoSilentLoss(lim: Limits, ops: seq<Op>, base: U32, x: nat)
    requires Run(lim, ops).Some?
    requires Run(lim, ops).value.st.base in {None, Some(base)}
    ensures var log := Run(lim, ops).value;
            Pushed(base, ops, x) <==> x < log.st.next || Holds(log.st.pending, x) || Holds(log.evicted, x)
    decreases |ops|
  {
    if ops != [] {
      var init, op := ops[..|ops| - 1], ops[|ops| - 1];
      AnchorSticks(lim, ops);
      NoSilentLoss(lim, init, base, x);
      RunKeepsValid(lim, init);
      PushedSnoc(base, ops, x);
      var log := Run(lim, init).value;
      if op.Arrive? {
        SplitHolds(log.evicted, Push(log.st, lim, op.a).evicted, x);
        if op.a.payload != [] {
          PushLosesNothing(log.st, lim, op.a, x);
        }
      }
    }
  }

  // The n bytes at position k are delivered or pending.
  ghost predicate Kept(log: Log, k: nat, n: nat) {
    forall x: nat :: k <= x < k + n ==> x < log.st.next || Holds(log.st.pending, x)
  }

  // An honest run that reports no loss.
  ghost predicate CleanRun(lim: Limits, ops: seq<Op>, stream: Bytes, base: U32) {
    && Run(lim, ops).Some? && HonestRun(stream, base, ops)
    && Run(lim, ops).value.st.base in {None, Some(base)} && Run(lim, ops).value.reported == 0
  }

  // Every slice of the stream the run was given is kept.
  ghost predicate KeepsAll(lim: Limits, ops: seq<Op>, stream: Bytes, base: U32)
    requires Run(lim, ops).Some?
  {
    forall a, k: nat :: Arrive(a) in ops && a.payload != [] && SliceAt(stream, base, a, k) ==>
      Kept(Run(lim, ops).value, k, |a.payload|)
  }

  lemma CleanRunKeepsAll(lim: Limits, ops: seq<Op>, stream: Bytes, base: U32)
    requires CleanRun(lim, ops, stream, base) && |stream| <= SEQ_SPACE
    ensures KeepsAll(lim, ops, stream, base)
  {
    RunKeepsValid(lim, ops);
    forall a, k: nat, x: nat
      | Arrive(a) in ops && a.payload != [] && SliceAt(stream, base, a, k) && k <= x < k + |a.payload|
      ensures x < Run(lim, ops).value.st.next || Holds(Run(lim, ops).value.st.pending, x)
    {
      RelativeIsOffset(base, k);
      assert Carries(base, Arrive(a).a, x);
      NoSilentLoss(lim, ops, base, x);
    }
  }

  function SliceOf(stream: Bytes, base: U32, k: nat, n: nat): Arrival
    requires k + n <= |stream|
  {
    Arrival(0, (base + k) % SEQ_SPACE, 0, n, stream[k..k + n], Clock(0, 0))
  }

  // Announcing the first byte and delivering a segment that starts there.
  lemma FirstDelivery(lim: Limits, base: U32, head: Arrival)
    requires head.payload != [] && head.seqno == base
    ensures var r := Run(lim, [Isn(base), Arrive(head)]);
            && r.Some? && r.value.reported == 0
            && r.value.st.base == Some(base) && r.value.st.next == |head.payload| && r.value.st.pending == []
  {
    var ops, log := [Isn(base), Arrive(head)], Log(FRESH.(base := Some(base)), [], [], [], 0);
    assert ops[..1] == [Isn(base)] && [Isn(base)][..0] == [];
    assert Run(lim, [Isn(base)]) == Some(log) by {
      assert Run(lim, []) == Some(Log(FRESH, [], [], [], 0));
    }
    assert Run(lim, ops) == Step(lim, log, Arrive(head));
    FirstPush(lim, base, head);
  }

  lemma FirstPush(lim: Limits, base: U32, head: Arrival)
    requires head.payload != [] && head.seqno == base
    ensures var r := Push(FRESH.(base := Some(base)), lim, head);
            r.outcome.Delivered? && r.st.base == Some(base) && r.st.next == |head.payload| && r.st.pending == []
  {
    assert Relative(base, base) == 0;
  }

  lemma LostByte(lim: Limits, stream: Bytes, base: U32, ops: seq<Op>, last: Arrival)
    requires Arrive(last) in ops && SliceAt(stream, base, last, SEQ_SPACE) && last.payload != []
    requires Run(lim, ops).Some?
    requires Run(lim, ops).value.st.next == SEQ_SPACE && Run(lim, ops).value.st.pending == []
    ensures !KeepsAll(lim, ops, stream, base)
  {
    assert !Holds(Run(lim, ops).value.st.pending, SEQ_SPACE);
    assert !Kept(Run(lim, ops).value, SEQ_SPACE, |last.payload|);
  }

  // The bound is exact: the byte after the first 2^32, arriving in order, vanishes unreported.
  lemma SilentLossPastSequenceSpace(lim: Limits, stream: Bytes, base: U32)
    requires |stream| > SEQ_SPACE
    ensures var head, last := SliceOf(stream, base, 0, SEQ_SPACE), SliceOf(stream, base, SEQ_SPACE, 1);
            var ops := [Isn(base), Arrive(head), Arrive(last)];
            && CleanRun(lim, ops, stream, base) && !KeepsAll(lim, ops, stream, base)
            && Run(lim, ops).value.st.next == SEQ_SPACE && Run(lim, ops).value.st.pending == []
  {
    var head, last := SliceOf(stream, base, 0, SEQ_SPACE), SliceOf(stream, base, SEQ_SPACE, 1);
    var ops := [Isn(base), Arrive(head), Arrive(last)];
    assert SliceAt(stream, base, head, 0) && SliceAt(stream, base, last, SEQ_SPACE);
    assert ops[..2] == [Isn(base), Arrive(head)];
    FirstDelivery(lim, base, head);
    var mid := Run(lim, ops[..2]).value;
    InOrderDiscardedExactlyWhenWrapped(mid.st, lim, last, base);
    assert Arrive(last) == ops[2];
    LostByte(lim, stream, base, ops, last);
  }

  // So no loss goes unreported, in any honest run, exactly for streams of at most 2^32 bytes.
  lemma LosslessExactlyWithinSequenceSpace(lim: Limits, stream: Bytes, base: U32)
    ensures (forall ops :: CleanRun(lim, ops, stream, base) ==> KeepsAll(lim, ops, stream, base))
            <==> |stream| <= SEQ_SPACE
  {
    if |stream| <= SEQ_SPACE {
      forall ops | CleanRun(lim, ops, stream, base)
        ensures KeepsAll(lim, ops, stream, base)
      {
        CleanRunKeepsAll(lim, ops, stream, base);
      }
    } else {
      SilentLossPastSequenceSpace(lim, stream, base);
    }
  }

  // With nothing reported lost, the delivered length is the least position never pushed.
  lemma DeliveredIsLongestCoveredPrefix(lim: Limits, ops: seq<Op>, base: U32)
    requires Run(lim, ops).Some?
    requires Run(lim, ops).value.st.base in {None, Some(base)}
    requires Run(lim, ops).value.reported == 0
    ensures var next := Run(lim, ops).value.st.next;
            && (forall x: nat :: x < next ==> Pushed(base, ops, x))
            && !Pushed(base, ops, next)
  {
    var log := Run(lim, ops).value;
    RunKeepsValid(lim, ops);
    forall x: nat | x < log.st.next
      ensures Pushed(base, ops, x)
    {
      NoSilentLoss(lim, ops, base, x);
    }
    NoSilentLoss(lim, ops, base, log.st.next);
  }

  // Two loss-free runs that push the same positions of the same stream, in any order, cut in
  // any way and under any limits, have delivered the same bytes.
  lemma Confluence(limA: Limits, opsA: seq<Op>, limB: Limits, opsB: seq<Op>, stream: Bytes, base: U32)
    requires Run(limA, opsA).Some? && Run(limB, opsB).Some?
    requires |stream| <= SEQ_SPACE
    requires Run(limA, opsA).value.st.base in {None, Some(base)}
    requires Run(limB, opsB).value.st.base in {None, Some(base)}
    requires HonestRun(stream, base, opsA) && HonestRun(stream, base, opsB)
    requires Run(limA, opsA).value.reported == 0 == Run(limB, opsB).value.reported
    requires forall x: nat :: Pushed(base, opsA, x) <==> Pushed(base, opsB, x)
    ensures var a, b := Run(limA, opsA).value, Run(limB, opsB).value;
            && a.st.next == b.st.next
            && a.taken + Concat(a.st.contiguous) == b.taken + Concat(b.st.contiguous)
  {
    DeliveredIsLongestCoveredPrefix(limA, opsA, base);
    DeliveredIsLongestCoveredPrefix(limB, opsB, base);
    LosslessPrefix(limA, opsA, stream, base);
    LosslessPrefix(limB, opsB, stream, base);
  }

  // In particular the order in which the same segments arrive, and how often, is irrelevant.
  lemma ArrivalOrderIsIrrelevant(limA: Limits, opsA: seq<Op>, limB: Limits, opsB: seq<Op>, stream: Bytes, base: U32)
    requires CleanRun(limA, opsA, stream, base) && CleanRun(limB, opsB, stream, base) && |stream| <= SEQ_SPACE
    requires forall op: Op :: op.Arrive? ==> (op in opsA <==> op in opsB)
    ensures var a, b := Run(limA, opsA).value, Run(limB, opsB).value;
            && a.st.next == b.st.next
            && a.taken + Concat(a.st.contiguous) == b.taken + Concat(b.st.contiguous)
  {
    Confluence(limA, opsA, limB, opsB, stream, base);
  }

  // ----- provenance -----

  ghost predicate SourcedRun(packets: nat -> Bytes, ops: seq<Op>) {
    forall op :: op in ops && op.Arrive? ==>
      Sourced(packets, Segment(op.a.packet, op.a.start, op.a.end, op.a.payload))
  }

  lemma {:induction false} GatherAppend(packets: nat -> Bytes, p: seq<SourcePiece>, q: seq<SourcePiece>)
    requires forall s :: s in p + q ==> s.start <= s.end <= |packets(s.packet)|
    requires forall s :: s in p ==> s in p + q
    requires forall s :: s in q ==> s in p + q
    ensures Gather(packets, p + q) == Gather(packets, p) + Gather(packets, q)
  {
    if p == [] {
      assert p + q == q;
    } else {
      assert (p + q)[1..] == p[1..] + q;
      GatherAppend(packets, p[1..], q);
    }
  }

  // The pieces handed out over a whole run name, in order, exactly the bytes handed out.
  lemma {:induction false} Provenance(packets: nat -> Bytes, lim: Limits, ops: seq<Op>)
    requires Run(lim, ops).Some? && SourcedRun(packets, ops)
    ensures var log := Run(lim, ops).value;
            && AllSourced(packets, log.st)
            && (forall s :: s in log.pieces ==> s.start <= s.end <= |packets(s.packet)|)
            && Gather(packets, log.pieces) == log.taken
    decreases |ops|
  {
    if ops != [] {
      var init, op := ops[..|ops| - 1], ops[|ops| - 1];
      assert op in ops;
      Provenance(packets, lim, init);
      RunKeepsValid(lim, init);
      var log := Run(lim, init).value;
      match op
      case Isn(_) =>
      case Arrive(a) => PushSourced(packets, log.st, lim, a);
      case Consume(n) =>
        TakeSourced(packets, log.st.contiguous, n);
        GatherAppend(packets, log.pieces, Take(log.st.contiguous, n).pieces);
    }
  }
}
