// What holds over the life of one connection: its two directions do not disturb each other,
// a desynchronised direction stays silent, and the records extracted are the frames of the
// true stream.
module ConnectionRuns {
  import opened Common
  import opened Streaming
  import opened Framing
  import opened Pipeline
  import R = Reassembly
  import RS = ReassemblySteps
  import RR = ReassemblyRuns

  // Everything one direction has yielded so far.
  datatype Trail = Trail(records: seq<Bytes>, kinds: seq<Kind>, messages: seq<Message>, dropped: nat)

  datatype Life = Life(conn: Conn, up: Trail, down: Trail)
  {
    function Trail(isUp: bool): Trail {
      if isUp then up else down
    }
  }

  const NO_TRAIL := Trail.Trail([], [], [], 0)

  function Extend(t: Trail, a: Absorbed): Trail {
    Trail.Trail(t.records + a.records, t.kinds + a.kinds, t.messages + a.messages, t.dropped + a.dropped)
  }

  function Grow(env: Env, l: Life, f: Frame): Life {
    var a := Absorb(env, l.conn, f);
    if a.isUp then Life(a.conn, Extend(l.up, a), l.down) else Life(a.conn, l.up, Extend(l.down, a))
  }

  // One incarnation, from its first frame.
  function Live(env: Env, client: Endpoint, server: Endpoint, frames: seq<Frame>): Life
    decreases |frames|
  {
    if frames == [] then Life(NewConn(client, server), NO_TRAIL, NO_TRAIL)
    else Grow(env, Live(env, client, server, frames[..|frames| - 1]), frames[|frames| - 1])
  }

  // ----- one direction on its own -----

  datatype Flow = Flow(half: Half, records: seq<Bytes>)

  function FlowStep(lim: R.Limits, w: Flow, f: Frame): Flow {
    var t := TakeIn(lim, w.half, f);
    Flow(t.half, w.records + t.records)
  }

  // Reassembly and record extraction of one direction, fed nothing but its own frames.
  function FlowOf(lim: R.Limits, frames: seq<Frame>): Flow
    decreases |frames|
  {
    if frames == [] then Flow(NEW_HALF, [])
    else FlowStep(lim, FlowOf(lim, frames[..|frames| - 1]), frames[|frames| - 1])
  }

  function OfDirection(frames: seq<Frame>, client: Endpoint, isUp: bool): seq<Frame>
    decreases |frames|
  {
    if frames == [] then []
    else
      var rest := OfDirection(frames[..|frames| - 1], client, isUp);
      if (frames[|frames| - 1].src == client) == isUp then rest + [frames[|frames| - 1]] else rest
  }

  function Bare(h: Half): Half {
    h.(tail := [])
  }

  lemma {:induction false} HandleAllKeepsSides(env: Env, conn: Conn, isUp: bool, records: seq<Bytes>, n: nat, f: Frame)
    requires forall r :: r in records ==> IsRecord(r)
    ensures var b := HandleAll(env, conn, isUp, records, n, f).conn;
            && b.client == conn.client && b.server == conn.server
            && Bare(b.Side(isUp)) == Bare(conn.Side(isUp)) && b.Side(!isUp) == conn.Side(!isUp)
    decreases |records|
  {
    if records != [] {
      assert IsRecord(records[0]);
      var h := Handle(env, conn, isUp, records[0], f.keylogs(n), f.timestamp);
      HandleAllKeepsSides(env, h.conn, isUp, records[1..], n + 1, f);
    }
  }

  lemma AbsorbSides(env: Env, conn: Conn, f: Frame)
    ensures var a := Absorb(env, conn, f);
            var t := TakeIn(env.limits, Bare(conn.Side(a.isUp)), f);
            && a.isUp == (f.src == conn.client)
            && a.conn.client == conn.client && a.conn.server == conn.server
            && Bare(a.conn.Side(a.isUp)) == t.half && a.records == t.records && a.gap == t.gap
            && a.conn.Side(!a.isUp) == conn.Side(!a.isUp)
  {
    var isUp := f.src == conn.client;
    var (half, gap) := Receive(env.limits, conn.Side(isUp), f);
    assert Receive(env.limits, Bare(conn.Side(isUp)), f) == (Bare(half), gap);
    var conn1 := conn.WithSide(isUp, half).(rst := conn.rst || f.flags.rst);
    RecordsPartition(Queued(conn1, isUp));
    HandleAllKeepsSides(env, conn1.WithSide(isUp, Settle(conn1.Side(isUp))), isUp, Records(Queued(conn1, isUp)), 0, f);
  }

  // Each direction's reassembly state and records are those it would have with the other
  // direction's frames removed, gaps, losses and all.
  lemma {:induction false} DirectionsAreIndependent(env: Env, client: Endpoint, server: Endpoint, frames: seq<Frame>,
                                                    isUp: bool)
    ensures var l := Live(env, client, server, frames);
            var w := FlowOf(env.limits, OfDirection(frames, client, isUp));
            && l.conn.client == client && l.conn.server == server
            && Bare(l.conn.Side(isUp)) == w.half && l.Trail(isUp).records == w.records
    decreases |frames|
  {
    if frames != [] {
      var init, f := frames[..|frames| - 1], frames[|frames| - 1];
      DirectionsAreIndependent(env, client, server, init, isUp);
      var before := Live(env, client, server, init);
      AbsorbSides(env, before.conn, f);
      if (f.src == client) == isUp {
        var own := OfDirection(frames, client, isUp);
        assert own[..|own| - 1] == OfDirection(init, client, isUp);
      }
    }
  }

  // ----- desynchronisation -----

  ghost predicate Silent(h: Half) {
    h.desynced ==> h.reasm.contiguous == [] && h.reasm.pending == []
  }

  lemma TakeInSilent(lim: R.Limits, h: Half, f: Frame)
    requires Silent(h)
    ensures var t := TakeIn(lim, h, f);
            && Silent(t.half)
            && (h.desynced ==> t.half.desynced && t.records == [] && t.gap.None?)
            && (t.half.desynced <==> h.desynced || t.gap.Some?)
            && (t.half.desynced ==> t.records == [])
  {
    assert Records([]) == [] && DropRecords([]) == [];
  }

  lemma {:induction false} FlowSilent(lim: R.Limits, frames: seq<Frame>)
    ensures Silent(FlowOf(lim, frames).half)
    decreases |frames|
  {
    if frames != [] {
      FlowSilent(lim, frames[..|frames| - 1]);
      TakeInSilent(lim, FlowOf(lim, frames[..|frames| - 1]).half, frames[|frames| - 1]);
    }
  }

  // Once a direction is desynchronised it holds nothing and yields no record, ever.
  lemma {:induction false} DesyncIsPermanent(lim: R.Limits, frames: seq<Frame>, n: nat)
    requires n <= |frames| && FlowOf(lim, frames[..n]).half.desynced
    ensures var w := FlowOf(lim, frames);
            && w.half.desynced && w.half.reasm.contiguous == [] && w.half.reasm.pending == []
            && w.records == FlowOf(lim, frames[..n]).records
    decreases |frames|
  {
    FlowSilent(lim, frames);
    if n == |frames| {
      assert frames[..n] == frames;
    } else {
      var init := frames[..|frames| - 1];
      assert init[..n] == frames[..n];
      DesyncIsPermanent(lim, init, n);
      TakeInSilent(lim, FlowOf(lim, init).half, frames[|frames| - 1]);
    }
  }

  lemma NoRecordsNoEffect(env: Env, conn: Conn, f: Frame)
    requires Absorb(env, conn, f).records == []
    ensures var a := Absorb(env, conn, f); a.kinds == [] && a.messages == [] && a.dropped == 0
  {
  }

  lemma GrowSilent(env: Env, l: Life, f: Frame, isUp: bool)
    requires l.conn.Side(isUp).desynced && Silent(l.conn.Side(isUp))
    ensures var g := Grow(env, l, f);
            g.conn.Side(isUp).desynced && Silent(g.conn.Side(isUp)) && g.Trail(isUp) == l.Trail(isUp)
  {
    var a := Absorb(env, l.conn, f);
    AbsorbSides(env, l.conn, f);
    if a.isUp == isUp {
      TakeInSilent(env.limits, Bare(l.conn.Side(isUp)), f);
      NoRecordsNoEffect(env, l.conn, f);
      ExtendByNothing(l.Trail(isUp), a);
      assert Bare(a.conn.Side(isUp)).desynced;
    }
  }

  lemma ExtendByNothing(t: Trail, a: Absorbed)
    requires a.records == [] && a.kinds == [] && a.messages == [] && a.dropped == 0
    ensures Extend(t, a) == t
  {
  }

  // For the whole connection: nothing more comes out of a desynchronised direction.
  lemma {:induction false} DesyncSilencesDirection(env: Env, client: Endpoint, server: Endpoint, frames: seq<Frame>,
                                                   n: nat, isUp: bool)
    requires n <= |frames| && Live(env, client, server, frames[..n]).conn.Side(isUp).desynced
    ensures var l := Live(env, client, server, frames);
            && l.conn.Side(isUp).desynced && Silent(l.conn.Side(isUp))
            && l.Trail(isUp) == Live(env, client, server, frames[..n]).Trail(isUp)
    decreases |frames|
  {
    if n == |frames| {
      assert frames[..n] == frames;
      DirectionsAreIndependent(env, client, server, frames, isUp);
      FlowSilent(env.limits, OfDirection(frames, client, isUp));
      assert Silent(Bare(Live(env, client, server, frames).conn.Side(isUp)));
    } else {
      var init := frames[..|frames| - 1];
      assert init[..n] == frames[..n];
      DesyncSilencesDirection(env, client, server, init, n, isUp);
      GrowSilent(env, Live(env, client, server, init), frames[|frames| - 1], isUp);
    }
  }

  // ----- records are the frames of the true stream -----

  lemma {:induction false} TakeTwice(c: seq<R.Segment>, m: nat, n: nat)
    requires m + n <= |R.Concat(c)|
    ensures n <= |R.Concat(R.Take(c, m).rest)|
    ensures R.Take(R.Take(c, m).rest, n).rest == R.Take(c, m + n).rest
  {
    RS.TakeSplits(c, m);
    if m != 0 {
      if |c[0].data| <= m {
        TakeTwice(c[1..], m - |c[0].data|, n);
      } else {
        var d := [R.Trim(c[0], m)] + c[1..];
        assert d[1..] == c[1..];
        if n != 0 && |c[0].data| <= m + n {
          assert R.Take(c, m + n).rest == R.Take(c[1..], m + n - |c[0].data|).rest;
        }
      }
    }
  }

  // The bytes of the records at the front of a queue are those that taking them hands out.
  lemma RecordsAreTaken(c: seq<R.Segment>)
    ensures RecordBytes(R.Concat(c)) <= |R.Concat(c)|
    ensures Flatten(Records(R.Concat(c))) == R.Take(c, RecordBytes(R.Concat(c))).bytes
  {
    RecordsPartition(R.Concat(c));
    RS.TakeSplits(c, RecordBytes(R.Concat(c)));
  }

  // Taking the records one by one leaves what taking all their bytes at once leaves.
  lemma {:induction false} DropIsTake(c: seq<R.Segment>)
    ensures DropRecords(c) == R.Take(c, RecordBytes(R.Concat(c))).rest
    decreases |R.Concat(c)|
  {
    var q := R.Concat(c);
    if WholeRecord(q).Item? {
      var n := WholeRecord(q).size;
      RS.TakeSplits(c, n);
      var rest := R.Take(c, n).rest;
      assert R.Concat(rest) == q[n..] && RecordBytes(q) == n + RecordBytes(q[n..]);
      assert DropRecords(c) == DropRecords(rest);
      DropIsTake(rest);
      TakeTwice(c, n, RecordBytes(q[n..]));
    } else {
      assert RecordBytes(q) == 0;
    }
  }

  // The reassembler calls that one frame amounts to while its direction is in sync.
  function Announce(ops: seq<RR.Op>, f: Frame): seq<RR.Op> {
    ops + Anchoring(f) + (if f.arrival.payload != [] then [RR.Arrive(f.arrival)] else [])
  }

  function CallsFor(lim: R.Limits, ops: seq<RR.Op>, h: Half, f: Frame): seq<RR.Op> {
    Announce(ops, f) + [RR.Consume(RecordBytes(R.Concat(Receive(lim, h, f).0.reasm.contiguous)))]
  }

  function Calls(lim: R.Limits, frames: seq<Frame>): seq<RR.Op>
    decreases |frames|
  {
    if frames == [] then []
    else
      CallsFor(lim, Calls(lim, frames[..|frames| - 1]), FlowOf(lim, frames[..|frames| - 1]).half, frames[|frames| - 1])
  }

  // The flow and the reassembler's own run tell the same story, with nothing reported lost.
  ghost predicate Matches(w: Flow, log: RR.Log) {
    && log.st == w.half.reasm
    && log.taken == Flatten(w.records)
    && log.reported == 0
  }

  lemma RunSnoc(lim: R.Limits, ops: seq<RR.Op>, op: RR.Op)
    requires RR.Run(lim, ops).Some?
    ensures RR.Run(lim, ops + [op]) == RR.Step(lim, RR.Run(lim, ops).value, op)
  {
    assert (ops + [op])[..|ops|] == ops;
  }

  lemma {:induction false} FlowIsRun(lim: R.Limits, frames: seq<Frame>)
    requires !FlowOf(lim, frames).half.desynced
    ensures RR.Run(lim, Calls(lim, frames)).Some?
    ensures Matches(FlowOf(lim, frames), RR.Run(lim, Calls(lim, frames)).value)
    decreases |frames|
  {
    if frames != [] {
      var init := frames[..|frames| - 1];
      StaysInSync(lim, frames);
      FlowIsRun(lim, init);
      StepIsRun(lim, Calls(lim, init), FlowOf(lim, init), frames[|frames| - 1]);
    }
  }

  lemma StepIsRun(lim: R.Limits, ops: seq<RR.Op>, w: Flow, f: Frame)
    requires RR.Run(lim, ops).Some? && Matches(w, RR.Run(lim, ops).value)
    requires !w.half.desynced && Receive(lim, w.half, f).1.None?
    ensures RR.Run(lim, CallsFor(lim, ops, w.half, f)).Some?
    ensures Matches(FlowStep(lim, w, f), RR.Run(lim, CallsFor(lim, ops, w.half, f)).value)
  {
    RunReceives(lim, ops, w, f);
    RunExtracts(lim, Announce(ops, f), w, f);
  }

  lemma StaysInSync(lim: R.Limits, frames: seq<Frame>)
    requires frames != [] && !FlowOf(lim, frames).half.desynced
    ensures var before := FlowOf(lim, frames[..|frames| - 1]).half;
            !before.desynced && Receive(lim, before, frames[|frames| - 1]).1.None?
  {
    FlowSilent(lim, frames[..|frames| - 1]);
    TakeInSilent(lim, FlowOf(lim, frames[..|frames| - 1]).half, frames[|frames| - 1]);
  }

  lemma RunExtracts(lim: R.Limits, ops: seq<RR.Op>, w: Flow, f: Frame)
    requires RR.Run(lim, ops).Some?
    requires var log := RR.Run(lim, ops).value;
             log.st == Receive(lim, w.half, f).0.reasm && log.taken == Flatten(w.records) && log.reported == 0
    ensures var c := Receive(lim, w.half, f).0.reasm.contiguous;
            var r := RR.Run(lim, ops + [RR.Consume(RecordBytes(R.Concat(c)))]);
            r.Some? && Matches(FlowStep(lim, w, f), r.value)
  {
    var c := Receive(lim, w.half, f).0.reasm.contiguous;
    RunSnoc(lim, ops, RR.Consume(RecordBytes(R.Concat(c))));
    DropIsTake(c);
    RecordsAreTaken(c);
    FlattenAppend(w.records, Records(R.Concat(c)));
  }

  function Anchoring(f: Frame): seq<RR.Op> {
    if f.flags.syn then [RR.Isn((f.arrival.seqno + 1) % R.SEQ_SPACE)] else []
  }

  lemma RunAnchors(lim: R.Limits, ops: seq<RR.Op>, f: Frame)
    requires RR.Run(lim, ops).Some?
    ensures var log := RR.Run(lim, ops).value;
            var st := if f.flags.syn then R.SetIsn(log.st, (f.arrival.seqno + 1) % R.SEQ_SPACE) else log.st;
            RR.Run(lim, ops + Anchoring(f)) == Some(log.(st := st))
  {
    if f.flags.syn {
      RunSnoc(lim, ops, Anchoring(f)[0]);
    } else {
      assert ops + Anchoring(f) == ops;
    }
  }

  lemma RunReceives(lim: R.Limits, ops: seq<RR.Op>, w: Flow, f: Frame)
    requires RR.Run(lim, ops).Some? && Matches(w, RR.Run(lim, ops).value)
    requires !w.half.desynced && Receive(lim, w.half, f).1.None?
    ensures RR.Run(lim, Announce(ops, f)).Some?
    ensures var log := RR.Run(lim, Announce(ops, f)).value;
            log.st == Receive(lim, w.half, f).0.reasm && log.taken == Flatten(w.records) && log.reported == 0
  {
    RunAnchors(lim, ops, f);
    var anchored := ops + Anchoring(f);
    if f.arrival.payload != [] {
      RunArrives(lim, anchored, f.arrival);
    } else {
      assert Announce(ops, f) == anchored;
    }
  }

  lemma RunArrives(lim: R.Limits, ops: seq<RR.Op>, a: R.Arrival)
    requires RR.Run(lim, ops).Some? && !R.Push(RR.Run(lim, ops).value.st, lim, a).outcome.GapAbandoned?
    ensures var log, after := RR.Run(lim, ops).value, RR.Run(lim, ops + [RR.Arrive(a)]);
            && after.Some? && after.value.st == R.Push(log.st, lim, a).st
            && after.value.taken == log.taken && after.value.reported == log.reported
  {
    RunSnoc(lim, ops, RR.Arrive(a));
  }

  // The base the direction is anchored to, and honest segments of one stream.
  ghost predicate HonestFrames(stream: Bytes, base: R.U32, frames: seq<Frame>) {
    forall f :: f in frames && f.arrival.payload != [] ==> RR.Honest(stream, base, f.arrival)
  }

  lemma {:induction false} CallsArriveFromFrames(lim: R.Limits, frames: seq<Frame>, op: RR.Op)
    requires op.Arrive?
    ensures op in Calls(lim, frames) <==> Brings(frames, op)
    decreases |frames|
  {
    if frames != [] {
      var init, f := frames[..|frames| - 1], frames[|frames| - 1];
      CallsArriveFromFrames(lim, init, op);
      CallsForArrives(lim, Calls(lim, init), FlowOf(lim, init).half, f, op);
      BringsSnoc(frames, op);
    }
  }

  // Some frame brings this arrival.
  ghost predicate Brings(frames: seq<Frame>, op: RR.Op) {
    exists f :: f in frames && f.arrival.payload != [] && op == RR.Arrive(f.arrival)
  }

  lemma BringsSnoc(frames: seq<Frame>, op: RR.Op)
    requires frames != []
    ensures var f := frames[|frames| - 1];
            Brings(frames, op) <==>
            Brings(frames[..|frames| - 1], op) || (f.arrival.payload != [] && op == RR.Arrive(f.arrival))
  {
    var init, f := frames[..|frames| - 1], frames[|frames| - 1];
    assert frames == init + [f] && f in frames;
    if Brings(init, op) {
      var g :| g in init && g.arrival.payload != [] && op == RR.Arrive(g.arrival);
      assert g in frames;
    }
  }

  lemma CallsForArrives(lim: R.Limits, ops: seq<RR.Op>, h: Half, f: Frame, op: RR.Op)
    requires op.Arrive?
    ensures op in CallsFor(lim, ops, h, f) <==> op in ops || (f.arrival.payload != [] && op == RR.Arrive(f.arrival))
  {
  }

  // Until a direction desynchronises, the records it has yielded are exactly the
  // length-delimited frames of the hole-free prefix of the true stream, and less than one
  // whole record is left queued.
  lemma RecordsAreFramesOfPrefix(lim: R.Limits, frames: seq<Frame>, stream: Bytes, base: R.U32)
    requires !FlowOf(lim, frames).half.desynced
    requires |stream| <= R.SEQ_SPACE && HonestFrames(stream, base, frames)
    requires FlowOf(lim, frames).half.reasm.base in {None, Some(base)}
    ensures var w := FlowOf(lim, frames);
            var next := w.half.reasm.next;
            && next <= |stream|
            && w.records == Records(stream[..next])
            && R.Concat(w.half.reasm.contiguous) == stream[RecordBytes(stream[..next])..next]
            && WholeRecord(R.Concat(w.half.reasm.contiguous)).NoItem?
  {
    var w := FlowOf(lim, frames);
    var next := w.half.reasm.next;
    FlowIsRun(lim, frames);
    assert RR.HonestRun(stream, base, Calls(lim, frames)) by {
      forall op | op in Calls(lim, frames) && op.Arrive? && op.a.payload != []
        ensures RR.Honest(stream, base, op.a)
      {
        CallsArriveFromFrames(lim, frames, op);
        var f :| f in frames && f.arrival.payload != [] && op == RR.Arrive(f.arrival);
      }
    }
    RR.LosslessPrefix(lim, Calls(lim, frames), stream, base);
    FlowRemainder(lim, frames);
    RecordsRoundTrip(w.records, R.Concat(w.half.reasm.contiguous));
  }

  lemma {:induction false} FlowRemainder(lim: R.Limits, frames: seq<Frame>)
    ensures var w := FlowOf(lim, frames);
            && (forall r :: r in w.records ==> IsRecord(r))
            && WholeRecord(R.Concat(w.half.reasm.contiguous)).NoItem?
    decreases |frames|
  {
    if frames != [] {
      FlowRemainder(lim, frames[..|frames| - 1]);
      var h := Receive(lim, FlowOf(lim, frames[..|frames| - 1]).half, frames[|frames| - 1]).0;
      SettleLeavesNoRecord(h.reasm.contiguous);
    }
  }

  lemma SettleLeavesNoRecord(c: seq<R.Segment>)
    ensures WholeRecord(R.Concat(DropRecords(c))).NoItem?
  {
    DropIsTake(c);
    RS.TakeSplits(c, RecordBytes(R.Concat(c)));
    RecordsAreDelimited();
    ParseLeavesNoItem(WholeRecord, R.Concat(c));
  }

  // Two captures of the same direction that cover the same stream positions, cut and ordered
  // differently, yield the same records.
  lemma SegmentationIsIrrelevant(limA: R.Limits, a: seq<Frame>, limB: R.Limits, b: seq<Frame>, stream: Bytes,
                                 base: R.U32)
    requires !FlowOf(limA, a).half.desynced && !FlowOf(limB, b).half.desynced
    requires |stream| <= R.SEQ_SPACE && HonestFrames(stream, base, a) && HonestFrames(stream, base, b)
    requires FlowOf(limA, a).half.reasm.base in {None, Some(base)}
             && FlowOf(limB, b).half.reasm.base in {None, Some(base)}
    requires forall x: nat :: Captured(base, a, x) <==> Captured(base, b, x)
    ensures FlowOf(limA, a).half.reasm.next == FlowOf(limB, b).half.reasm.next
    ensures FlowOf(limA, a).records == FlowOf(limB, b).records
  {
    SameFirstHole(limA, a, limB, b, base);
    assert FlowOf(limA, a).records == Records(stream[..FlowOf(limA, a).half.reasm.next]) by {
      RecordsAreFramesOfPrefix(limA, a, stream, base);
    }
    assert FlowOf(limB, b).records == Records(stream[..FlowOf(limB, b).half.reasm.next]) by {
      RecordsAreFramesOfPrefix(limB, b, stream, base);
    }
  }

  lemma SameFirstHole(limA: R.Limits, a: seq<Frame>, limB: R.Limits, b: seq<Frame>, base: R.U32)
    requires !FlowOf(limA, a).half.desynced && !FlowOf(limB, b).half.desynced
    requires FlowOf(limA, a).half.reasm.base in {None, Some(base)}
             && FlowOf(limB, b).half.reasm.base in {None, Some(base)}
    requires forall x: nat :: Captured(base, a, x) <==> Captured(base, b, x)
    ensures FlowOf(limA, a).half.reasm.next == FlowOf(limB, b).half.reasm.next
  {
    NextIsFirstHole(limA, a, base);
    NextIsFirstHole(limB, b, base);
  }

  // The delivered length is the first stream position no frame carried.
  lemma NextIsFirstHole(lim: R.Limits, frames: seq<Frame>, base: R.U32)
    requires !FlowOf(lim, frames).half.desynced && FlowOf(lim, frames).half.reasm.base in {None, Some(base)}
    ensures var next := FlowOf(lim, frames).half.reasm.next;
            (forall x: nat :: x < next ==> Captured(base, frames, x)) && !Captured(base, frames, next)
  {
    FlowIsRun(lim, frames);
    RR.DeliveredIsLongestCoveredPrefix(lim, Calls(lim, frames), base);
    forall x: nat
      ensures Captured(base, frames, x) <==> RR.Pushed(base, Calls(lim, frames), x)
    {
      CapturedIsPushed(lim, base, frames, x);
    }
  }

  ghost predicate Captured(base: R.U32, frames: seq<Frame>, x: nat) {
    exists f :: f in frames && RS.Carries(base, f.arrival, x)
  }

  lemma CapturedIsPushed(lim: R.Limits, base: R.U32, frames: seq<Frame>, x: nat)
    ensures Captured(base, frames, x) <==> RR.Pushed(base, Calls(lim, frames), x)
  {
    if Captured(base, frames, x) {
      var f :| f in frames && RS.Carries(base, f.arrival, x);
      CallsArriveFromFrames(lim, frames, RR.Arrive(f.arrival));
    }
    if RR.Pushed(base, Calls(lim, frames), x) {
      var op :| op in Calls(lim, frames) && op.Arrive? && RS.Carries(base, op.a, x);
      CallsArriveFromFrames(lim, frames, op);
    }
  }

  // ----- the same, from the frames alone -----

  // The sequence number that a direction's first SYN or first data anchors its stream at.
  function Anchor(frames: seq<Frame>): Option<R.U32>
    decreases |frames|
  {
    if frames == [] then None
    else NextAnchor(Anchor(frames[..|frames| - 1]), frames[|frames| - 1])
  }

  function NextAnchor(before: Option<R.U32>, f: Frame): Option<R.U32> {
    if before.Some? then before
    else if f.flags.syn then Some((f.arrival.seqno + 1) % R.SEQ_SPACE)
    else if f.arrival.payload != [] then Some(f.arrival.seqno)
    else None
  }

  lemma {:induction false} AnchorIsBase(lim: R.Limits, frames: seq<Frame>)
    requires !FlowOf(lim, frames).half.desynced
    ensures FlowOf(lim, frames).half.reasm.base == Anchor(frames)
    decreases |frames|
  {
    if frames != [] {
      var init, f := frames[..|frames| - 1], frames[|frames| - 1];
      StaysInSync(lim, frames);
      AnchorIsBase(lim, init);
      StepAnchors(lim, FlowOf(lim, init), f);
    }
  }

  lemma StepAnchors(lim: R.Limits, w: Flow, f: Frame)
    requires !w.half.desynced && Receive(lim, w.half, f).1.None?
    ensures FlowStep(lim, w, f).half.reasm.base == NextAnchor(w.half.reasm.base, f)
  {
    TakeInAnchors(lim, w.half, f);
  }

  lemma TakeInAnchors(lim: R.Limits, h: Half, f: Frame)
    requires !h.desynced && Receive(lim, h, f).1.None?
    ensures TakeIn(lim, h, f).half.reasm.base == NextAnchor(h.reasm.base, f)
  {
    ReceiveAnchors(lim, h, f);
    assert TakeIn(lim, h, f).half == Settle(Receive(lim, h, f).0);
  }

  lemma ReceiveAnchors(lim: R.Limits, h: Half, f: Frame)
    requires !h.desynced && Receive(lim, h, f).1.None?
    ensures Receive(lim, h, f).0.reasm.base == NextAnchor(h.reasm.base, f)
  {
    PushAnchors(if f.flags.syn then R.SetIsn(h.reasm, (f.arrival.seqno + 1) % R.SEQ_SPACE) else h.reasm, lim,
                f.arrival);
  }

  lemma PushAnchors(st: R.State, lim: R.Limits, a: R.Arrival)
    ensures R.Push(st, lim, a).st.base == if a.payload == [] then st.base else R.SetIsn(st, a.seqno).base
  {
  }

  // All of a direction's frames are honest segments of a stream that starts where they anchor it.
  ghost predicate HonestDirection(stream: Bytes, base: R.U32, frames: seq<Frame>) {
    && |stream| <= R.SEQ_SPACE && HonestFrames(stream, base, frames)
    && Anchor(frames) in {None, Some(base)}
  }

  lemma RecordsOfPrefix(stream: Bytes, n: nat)
    requires n <= |stream|
    ensures Records(stream[..n]) <= Records(stream)
  {
    RecordsAreDelimited();
    assert stream[..n] + stream[n..] == stream;
    ParseAppend(WholeRecord, stream[..n], stream[n..]);
  }

  // Even across a gap, a direction never yields anything but the first records of its stream.
  lemma {:induction false} YieldsFirstRecords(lim: R.Limits, frames: seq<Frame>, stream: Bytes, base: R.U32)
    requires HonestDirection(stream, base, frames)
    ensures FlowOf(lim, frames).records <= Records(stream)
    decreases |frames|
  {
    if !FlowOf(lim, frames).half.desynced {
      AnchorIsBase(lim, frames);
      RecordsAreFramesOfPrefix(lim, frames, stream, base);
      RecordsOfPrefix(stream, FlowOf(lim, frames).half.reasm.next);
    } else {
      var init := frames[..|frames| - 1];
      FlowSilent(lim, init);
      TakeInSilent(lim, FlowOf(lim, init).half, frames[|frames| - 1]);
      YieldsFirstRecords(lim, init, stream, base);
    }
  }

  // For a whole connection, whatever happens in the other direction: the records yielded are
  // the frames of the stream up to its first hole, and that hole is the first uncaptured byte.
  lemma ConnectionExtractsStream(env: Env, client: Endpoint, server: Endpoint, frames: seq<Frame>, isUp: bool,
                                 stream: Bytes, base: R.U32)
    requires var h := Live(env, client, server, frames).conn.Side(isUp);
             !h.desynced && h.reasm.base in {None, Some(base)}
    requires |stream| <= R.SEQ_SPACE && HonestFrames(stream, base, OfDirection(frames, client, isUp))
    ensures var l := Live(env, client, server, frames);
            var next := l.conn.Side(isUp).reasm.next;
            && next <= |stream| && l.Trail(isUp).records == Records(stream[..next])
            && !Captured(base, OfDirection(frames, client, isUp), next)
            && forall x: nat :: x < next ==> Captured(base, OfDirection(frames, client, isUp), x)
  {
    var own := OfDirection(frames, client, isUp);
    DirectionsAreIndependent(env, client, server, frames, isUp);
    var h := Live(env, client, server, frames).conn.Side(isUp);
    assert FlowOf(env.limits, own).half == Bare(h);
    RecordsAreFramesOfPrefix(env.limits, own, stream, base);
    NextIsFirstHole(env.limits, own, base);
  }
}
