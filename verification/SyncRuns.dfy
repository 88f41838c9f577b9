// When a direction loses sync: exactly when one of its segments, arriving at the reassembler
// its earlier segments have led to, makes it abandon a gap.
module SyncRuns {
  import opened Common
  import opened Framing
  import opened Pipeline
  import opened ConnectionRuns
  import R = Reassembly
  import RS = ReassemblySteps
  import RR = ReassemblyRuns
  import RO = ReassemblyOutcomes

  // What a direction's frames give the reassembler: anchors and segments, nothing consumed.
  function Fed(frames: seq<Frame>): seq<RR.Op>
    decreases |frames|
  {
    if frames == [] then [] else Announce(Fed(frames[..|frames| - 1]), frames[|frames| - 1])
  }

  lemma {:induction false} FedRuns(lim: R.Limits, frames: seq<Frame>)
    ensures RR.Run(lim, Fed(frames)).Some?
    decreases |frames|
  {
    if frames != [] {
      var init, f := frames[..|frames| - 1], frames[|frames| - 1];
      FedRuns(lim, init);
      FeedOne(lim, Fed(init), f);
    }
  }

  // The reassembler as it meets a frame's payload.
  function Meets(lim: R.Limits, ops: seq<RR.Op>, f: Frame): R.State
    requires RR.Run(lim, ops).Some?
  {
    var st := RR.Run(lim, ops).value.st;
    if f.flags.syn then R.SetIsn(st, (f.arrival.seqno + 1) % R.SEQ_SPACE) else st
  }

  // The bytes given up when it takes the payload.
  function GivenUp(lim: R.Limits, ops: seq<RR.Op>, f: Frame): Option<nat>
    requires RR.Run(lim, ops).Some?
  {
    var outcome := R.Push(Meets(lim, ops, f), lim, f.arrival).outcome;
    if outcome.GapAbandoned? then Some(outcome.bytes) else None
  }

  lemma {:induction false} FeedOne(lim: R.Limits, ops: seq<RR.Op>, f: Frame)
    requires RR.Run(lim, ops).Some?
    ensures var log, after, gap := RR.Run(lim, ops).value, RR.Run(lim, Announce(ops, f)), GivenUp(lim, ops, f);
            && after.Some?
            && after.value.st == R.Push(Meets(lim, ops, f), lim, f.arrival).st
            && after.value.reported == log.reported + if gap.Some? then gap.value else 0
  {
    RunAnchors(lim, ops, f);
    var anchored := ops + Anchoring(f);
    assert RR.Run(lim, anchored).value.st == Meets(lim, ops, f);
    if f.arrival.payload != [] {
      FeedPayload(lim, anchored, f.arrival);
      assert Announce(ops, f) == anchored + [RR.Arrive(f.arrival)];
    } else {
      assert Announce(ops, f) == anchored;
    }
  }

  lemma {:induction false} FeedPayload(lim: R.Limits, ops: seq<RR.Op>, a: R.Arrival)
    requires RR.Run(lim, ops).Some?
    ensures var log, after := RR.Run(lim, ops).value, RR.Run(lim, ops + [RR.Arrive(a)]);
            var r := R.Push(log.st, lim, a);
            && after.Some? && after.value.st == r.st
            && after.value.reported == log.reported + if r.outcome.GapAbandoned? then r.outcome.bytes else 0
  {
    RunSnoc(lim, ops, RR.Arrive(a));
  }

  // Two reassemblers that differ at most in what they have handed out.
  ghost predicate SameWindow(a: R.State, b: R.State) {
    a.(contiguous := []) == b.(contiguous := [])
  }

  lemma PushIgnoresQueue(a: R.State, b: R.State, lim: R.Limits, x: R.Arrival)
    requires SameWindow(a, b)
    ensures SameWindow(R.Push(a, lim, x).st, R.Push(b, lim, x).st)
    ensures R.Push(a, lim, x).outcome == R.Push(b, lim, x).outcome
  {
    if x.payload != [] {
      var a1, b1 := R.SetIsn(a, x.seqno), R.SetIsn(b, x.seqno);
      var rel := R.Relative(a1.base.value, x.seqno);
      var seg := R.Segment(x.packet, x.start, x.end, x.payload);
      if rel > a.next {
        BufferIgnoresQueue(a1, b1, lim, R.Entry(rel, seg), x.clock);
      } else {
        DeliveryIgnoresQueue(a1, b1, lim, seg, rel, x.clock);
      }
    }
  }

  lemma BufferIgnoresQueue(a: R.State, b: R.State, lim: R.Limits, e: R.Entry, clock: R.Clock)
    requires SameWindow(a, b)
    ensures SameWindow(R.Buffer(a, lim, e, clock).st, R.Buffer(b, lim, e, clock).st)
    ensures R.Buffer(a, lim, e, clock).outcome == R.Buffer(b, lim, e, clock).outcome
  {
    var since := if a.pending == [] then Some(clock.openedAt) else a.since;
    var p := R.Insert(a.pending, e);
    assert R.Settle(a, lim, p, since, clock.checkedAt).outcome == R.Settle(b, lim, p, since, clock.checkedAt).outcome;
  }

  lemma DeliveryIgnoresQueue(a: R.State, b: R.State, lim: R.Limits, seg: R.Segment, rel: nat, clock: R.Clock)
    requires SameWindow(a, b) && rel <= a.next
    ensures var r, s := R.PushRelative(a, lim, seg, rel, clock), R.PushRelative(b, lim, seg, rel, clock);
            SameWindow(r.st, s.st) && r.outcome == s.outcome
  {
  }

  // In sync, the direction's reassembler is that of its frames; out of sync, that one has
  // reported a loss.
  ghost predicate Tracks(h: Half, log: RR.Log) {
    if h.desynced then log.reported > 0 else log.reported == 0 && SameWindow(h.reasm, log.st)
  }

  lemma {:induction false} AbandonedIsPositive(lim: R.Limits, ops: seq<RR.Op>, f: Frame)
    requires RR.Run(lim, ops).Some? && GivenUp(lim, ops, f).Some?
    ensures GivenUp(lim, ops, f).value > 0
  {
    RR.RunKeepsValid(lim, ops);
    RS.EvictionIsExact(Meets(lim, ops, f), lim, f.arrival);
  }

  lemma {:induction false} TakeInTracks(lim: R.Limits, h: Half, f: Frame, ops: seq<RR.Op>)
    requires RR.Run(lim, ops).Some? && Tracks(h, RR.Run(lim, ops).value) && Silent(h)
    ensures RR.Run(lim, Announce(ops, f)).Some?
    ensures var t := TakeIn(lim, h, f);
            && Tracks(t.half, RR.Run(lim, Announce(ops, f)).value)
            && t.gap == if h.desynced then None else GivenUp(lim, ops, f)
  {
    FeedOne(lim, ops, f);
    if h.desynced {
      TakeInSilent(lim, h, f);
    } else {
      InSyncTracks(lim, h, f, ops);
    }
  }

  lemma {:induction false} InSyncTracks(lim: R.Limits, h: Half, f: Frame, ops: seq<RR.Op>)
    requires RR.Run(lim, ops).Some? && Tracks(h, RR.Run(lim, ops).value) && !h.desynced
    ensures RR.Run(lim, Announce(ops, f)).Some?
    ensures Tracks(TakeIn(lim, h, f).half, RR.Run(lim, Announce(ops, f)).value)
    ensures TakeIn(lim, h, f).gap == GivenUp(lim, ops, f)
  {
    FeedOne(lim, ops, f);
    if GivenUp(lim, ops, f).Some? {
      AbandonedIsPositive(lim, ops, f);
    }
    PushTracks(lim, h, f, RR.Run(lim, ops).value.st, RR.Run(lim, Announce(ops, f)).value);
  }

  lemma {:induction false} PushTracks(lim: R.Limits, h: Half, f: Frame, st: R.State, after: RR.Log)
    requires !h.desynced && SameWindow(h.reasm, st)
    requires var met := if f.flags.syn then R.SetIsn(st, (f.arrival.seqno + 1) % R.SEQ_SPACE) else st;
             var r := R.Push(met, lim, f.arrival);
             && after.st == r.st && after.reported == (if r.outcome.GapAbandoned? then r.outcome.bytes else 0)
             && (r.outcome.GapAbandoned? ==> r.outcome.bytes > 0)
    ensures var met := if f.flags.syn then R.SetIsn(st, (f.arrival.seqno + 1) % R.SEQ_SPACE) else st;
            var t, outcome := TakeIn(lim, h, f), R.Push(met, lim, f.arrival).outcome;
            Tracks(t.half, after) && t.gap == if outcome.GapAbandoned? then Some(outcome.bytes) else None
  {
    var mine := if f.flags.syn then R.SetIsn(h.reasm, (f.arrival.seqno + 1) % R.SEQ_SPACE) else h.reasm;
    var met := if f.flags.syn then R.SetIsn(st, (f.arrival.seqno + 1) % R.SEQ_SPACE) else st;
    PushIgnoresQueue(mine, met, lim, f.arrival);
    TakeInFollowsPush(lim, h, f, mine);
  }

  lemma TakeInFollowsPush(lim: R.Limits, h: Half, f: Frame, st: R.State)
    requires !h.desynced
    requires st == if f.flags.syn then R.SetIsn(h.reasm, (f.arrival.seqno + 1) % R.SEQ_SPACE) else h.reasm
    ensures var t, r := TakeIn(lim, h, f), R.Push(st, lim, f.arrival);
            if r.outcome.GapAbandoned? then t.gap == Some(r.outcome.bytes) && t.half.desynced
            else t.gap == None && !t.half.desynced && SameWindow(t.half.reasm, r.st)
  {
  }

  lemma {:induction false} FlowTracks(lim: R.Limits, frames: seq<Frame>)
    ensures RR.Run(lim, Fed(frames)).Some?
    ensures Tracks(FlowOf(lim, frames).half, RR.Run(lim, Fed(frames)).value)
    decreases |frames|
  {
    if frames != [] {
      var init := frames[..|frames| - 1];
      FlowTracks(lim, init);
      FlowSilent(lim, init);
      TakeInTracks(lim, FlowOf(lim, init).half, frames[|frames| - 1], Fed(init));
    }
  }

  // The i-th segment makes the reassembler of the earlier ones abandon a gap.
  ghost predicate Abandons(lim: R.Limits, frames: seq<Frame>, i: nat)
    requires i < |frames|
  {
    RR.Run(lim, Fed(frames[..i])).Some? && GivenUp(lim, Fed(frames[..i]), frames[i]).Some?
  }

  // A frame's gap is what its segment makes the reassembler report, while in sync.
  lemma GapIsReported(lim: R.Limits, frames: seq<Frame>, f: Frame)
    ensures RR.Run(lim, Fed(frames)).Some?
    ensures TakeIn(lim, FlowOf(lim, frames).half, f).gap
         == if FlowOf(lim, frames).half.desynced then None else GivenUp(lim, Fed(frames), f)
  {
    FlowTracks(lim, frames);
    FlowSilent(lim, frames);
    TakeInTracks(lim, FlowOf(lim, frames).half, f, Fed(frames));
  }

  // For each frame, whether its segment abandons a gap.
  function Losses(lim: R.Limits, frames: seq<Frame>): (r: seq<bool>)
    ensures |r| == |frames|
    decreases |frames|
  {
    if frames == [] then []
    else
      var init, f := frames[..|frames| - 1], frames[|frames| - 1];
      FedRuns(lim, init);
      Losses(lim, init) + [GivenUp(lim, Fed(init), f).Some?]
  }

  lemma {:induction false} LossesAre(lim: R.Limits, frames: seq<Frame>, i: nat)
    requires i < |frames|
    ensures Losses(lim, frames)[i] <==> Abandons(lim, frames, i)
    decreases |frames|
  {
    var init := frames[..|frames| - 1];
    FedRuns(lim, init);
    if i < |init| {
      LossesAre(lim, init, i);
      assert frames[..i] == init[..i] && frames[i] == init[i];
    }
  }

  lemma {:induction false} DesyncOnLoss(lim: R.Limits, frames: seq<Frame>)
    ensures FlowOf(lim, frames).half.desynced <==> true in Losses(lim, frames)
    decreases |frames|
  {
    if frames != [] {
      var init, f := frames[..|frames| - 1], frames[|frames| - 1];
      DesyncOnLoss(lim, init);
      StaysUnlessGap(lim, frames);
      GapIsReported(lim, init, f);
    }
  }

  // A direction is desynchronised exactly when one of its segments abandoned a gap.
  lemma {:induction false} DesyncExactlyOnAbandonedGap(lim: R.Limits, frames: seq<Frame>)
    ensures FlowOf(lim, frames).half.desynced <==> SomeAbandons(lim, frames)
  {
    DesyncOnLoss(lim, frames);
    var losses := Losses(lim, frames);
    if true in losses {
      var i :| 0 <= i < |losses| && losses[i];
      LossesAre(lim, frames, i);
    }
    if SomeAbandons(lim, frames) {
      var i: nat :| i < |frames| && Abandons(lim, frames, i);
      LossesAre(lim, frames, i);
    }
  }

  ghost predicate SomeAbandons(lim: R.Limits, frames: seq<Frame>) {
    exists i: nat :: i < |frames| && Abandons(lim, frames, i)
  }

  // The same for a direction of a connection, whatever the other one does.
  lemma ConnectionDesyncsExactly(env: Env, client: Endpoint, server: Endpoint, frames: seq<Frame>, isUp: bool)
    ensures var own := OfDirection(frames, client, isUp);
            Live(env, client, server, frames).conn.Side(isUp).desynced
            <==> SomeAbandons(env.limits, own)
  {
    var own := OfDirection(frames, client, isUp);
    DirectionsAreIndependent(env, client, server, frames, isUp);
    DesyncExactlyOnAbandonedGap(env.limits, own);
    assert Bare(Live(env, client, server, frames).conn.Side(isUp)).desynced == FlowOf(env.limits, own).half.desynced;
  }

  // ----- frames within the limits -----

  function PayloadBytes(frames: seq<Frame>): nat
    decreases |frames|
  {
    if frames == [] then 0 else PayloadBytes(frames[..|frames| - 1]) + |frames[|frames| - 1].arrival.payload|
  }

  // No more bytes and packets than the caps, and no two clock readings further apart than the age limit.
  ghost predicate WithinLimits(lim: R.Limits, frames: seq<Frame>) {
    && PayloadBytes(frames) <= lim.maxBytes && |frames| <= lim.maxPackets
    && forall f, g :: f in frames && g in frames ==> f.arrival.clock.checkedAt - g.arrival.clock.openedAt <= lim.maxAge
  }

  // What waits is no more than what came, and since no earlier than some frame.
  ghost predicate Modest(st: R.State, frames: seq<Frame>) {
    && R.PendingBytes(st.pending) <= PayloadBytes(frames) && |st.pending| <= |frames|
    && (st.since.Some? ==> exists g :: g in frames && st.since.value == g.arrival.clock.openedAt)
  }

  lemma {:induction false} InsertIsModest(p: seq<R.Entry>, e: R.Entry)
    ensures R.PendingBytes(R.Insert(p, e)) <= R.PendingBytes(p) + |e.seg.data|
    ensures |R.Insert(p, e)| <= |p| + 1
  {
    if p != [] && e.key > p[0].key {
      InsertIsModest(p[1..], e);
    }
  }

  lemma PushIsModest(lim: R.Limits, st: R.State, frames: seq<Frame>)
    requires frames != [] && WithinLimits(lim, frames)
    requires RS.Valid(st, lim) && Modest(st, frames[..|frames| - 1])
    ensures var r := R.Push(st, lim, frames[|frames| - 1].arrival);
            !r.outcome.GapAbandoned? && Modest(r.st, frames)
  {
    var a := frames[|frames| - 1].arrival;
    ModestGrows(st, frames);
    if a.payload != [] {
      var st1 := R.SetIsn(st, a.seqno);
      var rel := R.Relative(st1.base.value, a.seqno);
      var seg := R.Segment(a.packet, a.start, a.end, a.payload);
      assert Modest(st1, frames);
      if rel <= st.next {
        NowIsModest(lim, st1, frames, seg, rel, a.clock);
      } else {
        WaitIsModest(lim, st1, frames, R.Entry(rel, seg));
      }
    }
  }

  lemma NowIsModest(lim: R.Limits, st: R.State, frames: seq<Frame>, seg: R.Segment, rel: nat, clock: R.Clock)
    requires Modest(st, frames) && rel <= st.next
    ensures var r := R.PushRelative(st, lim, seg, rel, clock); !r.outcome.GapAbandoned? && Modest(r.st, frames)
  {
    DrainIsModest(rel + |seg.data|, st.pending);
  }

  lemma ModestGrows(st: R.State, frames: seq<Frame>)
    requires frames != [] && Modest(st, frames[..|frames| - 1])
    ensures Modest(st, frames)
  {
    var init := frames[..|frames| - 1];
    if st.since.Some? {
      var g :| g in init && st.since.value == g.arrival.clock.openedAt;
      assert g in frames;
    }
  }

  lemma WaitIsModest(lim: R.Limits, st: R.State, frames: seq<Frame>, e: R.Entry)
    requires frames != [] && WithinLimits(lim, frames) && Modest(st, frames[..|frames| - 1])
    requires st.since.None? <==> st.pending == []
    requires |e.seg.data| == |frames[|frames| - 1].arrival.payload|
    ensures var r := R.Buffer(st, lim, e, frames[|frames| - 1].arrival.clock);
            !r.outcome.GapAbandoned? && Modest(r.st, frames)
  {
    var f := frames[|frames| - 1];
    assert f in frames;
    ModestGrows(st, frames);
    InsertIsModest(st.pending, e);
    var since := if st.pending == [] then Some(f.arrival.clock.openedAt) else st.since;
    assert exists g :: g in frames && since.value == g.arrival.clock.openedAt;
    assert !R.Aged(since, f.arrival.clock.checkedAt, lim);
    assert R.Fits(R.Insert(st.pending, e), lim);
  }

  lemma DrainIsModest(next: nat, p: seq<R.Entry>)
    ensures R.PendingBytes(R.Drain(next, p).rest) <= R.PendingBytes(p) && |R.Drain(next, p).rest| <= |p|
  {
    RS.DrainIsPrefix(next, p);
    var k := |p| - |R.Drain(next, p).rest|;
    RS.PendingBytesAppend(p[..k], p[k..]);
    assert p == p[..k] + p[k..];
  }

  lemma WithinLimitsPrefix(lim: R.Limits, frames: seq<Frame>)
    requires frames != [] && WithinLimits(lim, frames)
    ensures WithinLimits(lim, frames[..|frames| - 1])
  {
    assert forall f :: f in frames[..|frames| - 1] ==> f in frames;
  }

  // Frames within the limits never lose sync, whatever their order.
  lemma {:induction false} WithinLimitsStaysInSync(lim: R.Limits, frames: seq<Frame>)
    requires WithinLimits(lim, frames)
    ensures !FlowOf(lim, frames).half.desynced
    ensures RR.Run(lim, Fed(frames)).Some? && Modest(RR.Run(lim, Fed(frames)).value.st, frames)
    decreases |frames|
  {
    if frames != [] {
      var init, f := frames[..|frames| - 1], frames[|frames| - 1];
      var ops := Fed(init);
      WithinLimitsPrefix(lim, frames);
      WithinLimitsStaysInSync(lim, init);
      RR.RunKeepsValid(lim, ops);
      FeedOne(lim, ops, f);
      PushIsModest(lim, Meets(lim, ops, f), frames);
      GapIsReported(lim, init, f);
      StaysUnlessGap(lim, frames);
    }
  }

  lemma StaysUnlessGap(lim: R.Limits, frames: seq<Frame>)
    requires frames != []
    ensures var before := FlowOf(lim, frames[..|frames| - 1]).half;
            FlowOf(lim, frames).half.desynced
            <==> before.desynced || TakeIn(lim, before, frames[|frames| - 1]).gap.Some?
  {
    FlowSilent(lim, frames[..|frames| - 1]);
    TakeInSilent(lim, FlowOf(lim, frames[..|frames| - 1]).half, frames[|frames| - 1]);
  }

  // So honest frames within the limits, in any order, cut and repetition, yield every record that
  // ends before the first position none of them carries.
  lemma WithinLimitsYieldsEverything(lim: R.Limits, frames: seq<Frame>, stream: Bytes, base: R.U32)
    requires WithinLimits(lim, frames) && HonestDirection(stream, base, frames)
    ensures var w := FlowOf(lim, frames);
            var next := w.half.reasm.next;
            && !w.half.desynced && next <= |stream| && w.records == Records(stream[..next])
            && !Captured(base, frames, next) && forall x: nat :: x < next ==> Captured(base, frames, x)
  {
    WithinLimitsStaysInSync(lim, frames);
    AnchorIsBase(lim, frames);
    RecordsAreFramesOfPrefix(lim, frames, stream, base);
    NextIsFirstHole(lim, frames, base);
  }
}
