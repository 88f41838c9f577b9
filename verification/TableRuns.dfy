// What holds of every capture: connections do not interfere, the table holds exactly the
// connections still open, and every record is counted once.
module TableRuns {
  import opened Common
  import opened Pipeline

  // The table after a capture; what each frame emitted, dropped and abandoned; each record's kind.
  datatype Run = Run(table: Table, outs: seq<seq<Message>>, drops: seq<nat>, gaps: seq<Option<nat>>, kinds: seq<Kind>)

  function Extend(env: Env, r: Run, f: Frame): Run {
    var (table, messages) := Process(env, r.table, f);
    var a := Absorb(env, Lookup(r.table, f), f);
    Run(table, r.outs + [messages], r.drops + [a.dropped], r.gaps + [a.gap], r.kinds + a.kinds)
  }

  function RunAll(env: Env, frames: seq<Frame>): (r: Run)
    ensures |r.outs| == |r.drops| == |r.gaps| == |frames|
    decreases |frames|
  {
    if frames == [] then Run(EMPTY_TABLE, [], [], [], [])
    else Extend(env, RunAll(env, frames[..|frames| - 1]), frames[|frames| - 1])
  }

  // ----- keys -----

  // Two frames share a key exactly when they join the same two endpoints, in either direction.
  lemma KeysAreUnorderedPairs(a: Endpoint, b: Endpoint, c: Endpoint, d: Endpoint)
    ensures KeyOf(a, b) == KeyOf(c, d) <==> (a == c && b == d) || (a == d && b == c)
  {
  }

  // ----- interleaving -----

  function Only(frames: seq<Frame>, k: ConnKey): seq<Frame>
    decreases |frames|
  {
    if frames == [] then []
    else
      var rest := Only(frames[..|frames| - 1], k);
      if FrameKey(frames[|frames| - 1]) == k then rest + [frames[|frames| - 1]] else rest
  }

  function OutsOf(frames: seq<Frame>, outs: seq<seq<Message>>, k: ConnKey): seq<seq<Message>>
    requires |outs| == |frames|
    decreases |frames|
  {
    if frames == [] then []
    else
      var rest := OutsOf(frames[..|frames| - 1], outs[..|frames| - 1], k);
      if FrameKey(frames[|frames| - 1]) == k then rest + [outs[|frames| - 1]] else rest
  }

  ghost predicate SameEntry(a: Table, b: Table, k: ConnKey) {
    (k in a.conns <==> k in b.conns) && (k in a.conns ==> a.conns[k] == b.conns[k])
  }

  lemma ProcessIsLocal(env: Env, a: Table, b: Table, f: Frame)
    requires SameEntry(a, b, FrameKey(f))
    ensures SameEntry(Process(env, a, f).0, Process(env, b, f).0, FrameKey(f))
    ensures Process(env, a, f).1 == Process(env, b, f).1
  {
  }

  lemma ProcessSparesOthers(env: Env, t: Table, f: Frame, k: ConnKey)
    requires k != FrameKey(f)
    ensures SameEntry(t, Process(env, t, f).0, k)
  {
  }

  // The messages of a connection, frame by frame, and its table entry are those of the capture
  // that contains only its own frames, however the frames of other connections interleave.
  lemma {:induction false} InterleavingIndependence(env: Env, frames: seq<Frame>, k: ConnKey)
    ensures OutsOf(frames, RunAll(env, frames).outs, k) == RunAll(env, Only(frames, k)).outs
    ensures SameEntry(RunAll(env, frames).table, RunAll(env, Only(frames, k)).table, k)
    decreases |frames|
  {
    if frames != [] {
      var init, f := frames[..|frames| - 1], frames[|frames| - 1];
      InterleavingIndependence(env, init, k);
      assert RunAll(env, frames).outs[..|init|] == RunAll(env, init).outs;
      var mixed, alone := RunAll(env, init).table, RunAll(env, Only(init, k)).table;
      if FrameKey(f) == k {
        assert Only(frames, k)[..|Only(frames, k)| - 1] == Only(init, k);
        ProcessIsLocal(env, mixed, alone, f);
      } else {
        ProcessSparesOthers(env, mixed, f, k);
      }
    }
  }

  // ----- connection lifetimes -----

  // A connection as its close flags alone tell it: the endpoints that have sent FIN.
  datatype Presence = Absent | Open(fins: set<Endpoint>)

  function PresenceStep(l: Presence, f: Frame): Presence {
    var fins := (if l.Open? then l.fins else {}) + (if f.flags.fin then {f.src} else {});
    if f.flags.rst || (f.src != f.dst && {f.src, f.dst} <= fins) then Absent else Open(fins)
  }

  // The current incarnation of a key after a capture.
  function PresenceOf(frames: seq<Frame>, k: ConnKey): Presence
    decreases |frames|
  {
    if frames == [] then Absent
    else
      var before := PresenceOf(frames[..|frames| - 1], k);
      if FrameKey(frames[|frames| - 1]) == k then PresenceStep(before, frames[|frames| - 1]) else before
  }

  // The entry's latches are the fold's, whichever endpoint was labelled client.
  ghost predicate Reflects(c: Conn, l: Presence, k: ConnKey) {
    && l.Open? && !c.rst
    && KeyOf(c.client, c.server) == k
    && (c.up.fin <==> c.client in l.fins)
    && (c.down.fin <==> c.server in l.fins && c.server != c.client)
  }

  lemma {:induction false} HandleAllKeepsFlags(env: Env, conn: Conn, isUp: bool, records: seq<Bytes>, n: nat, f: Frame)
    requires forall r :: r in records ==> Framing.IsRecord(r)
    ensures var b := HandleAll(env, conn, isUp, records, n, f).conn;
            b.client == conn.client && b.server == conn.server && b.rst == conn.rst
            && b.up == conn.up.(tail := b.up.tail) && b.down == conn.down.(tail := b.down.tail)
    decreases |records|
  {
    if records != [] {
      assert Framing.IsRecord(records[0]);
      var h := Handle(env, conn, isUp, records[0], f.keylogs(n), f.timestamp);
      HandleAllKeepsFlags(env, h.conn, isUp, records[1..], n + 1, f);
    }
  }

  lemma AbsorbFlags(env: Env, conn: Conn, f: Frame)
    ensures var a, isUp := Absorb(env, conn, f).conn, f.src == conn.client;
            && a.client == conn.client && a.server == conn.server && a.rst == (conn.rst || f.flags.rst)
            && a.up.fin == (conn.up.fin || (isUp && f.flags.fin))
            && a.down.fin == (conn.down.fin || (!isUp && f.flags.fin))
  {
    var isUp := f.src == conn.client;
    var (half, gap) := Receive(env.limits, conn.Side(isUp), f);
    var conn1 := conn.WithSide(isUp, half).(rst := conn.rst || f.flags.rst);
    Framing.RecordsPartition(Queued(conn1, isUp));
    HandleAllKeepsFlags(env, conn1.WithSide(isUp, Settle(conn1.Side(isUp))), isUp, Framing.Records(Queued(conn1, isUp)),
                        0, f);
  }

  lemma AbsorbReflects(env: Env, c: Conn, l: Presence, f: Frame)
    requires Reflects(c, l, FrameKey(f)) || (l.Absent? && c == NewConn(f.src, f.dst))
    ensures var a := Absorb(env, c, f).conn;
            if PresenceStep(l, f).Absent? then a.IsClosed()
            else !a.IsClosed() && Reflects(a, PresenceStep(l, f), FrameKey(f))
  {
    AbsorbFlags(env, c, f);
    KeysAreUnorderedPairs(c.client, c.server, f.src, f.dst);
  }

  // A key is in the table exactly when its current incarnation has seen no RST and not a FIN
  // from each of two distinct endpoints; a half-closed connection stays.
  lemma {:induction false} TableHoldsOpenConnections(env: Env, frames: seq<Frame>, k: ConnKey)
    ensures var t := RunAll(env, frames).table;
            && (k in t.conns <==> PresenceOf(frames, k).Open?)
            && (k in t.conns ==> Reflects(t.conns[k], PresenceOf(frames, k), k))
    decreases |frames|
  {
    if frames != [] {
      var init, f := frames[..|frames| - 1], frames[|frames| - 1];
      TableHoldsOpenConnections(env, init, k);
      var t := RunAll(env, init).table;
      if FrameKey(f) == k {
        AbsorbReflects(env, Lookup(t, f), PresenceOf(init, k), f);
      } else {
        ProcessSparesOthers(env, t, f, k);
      }
    }
  }

  // How many incarnations the capture opened: frames whose key was absent.
  function Openings(frames: seq<Frame>): nat
    decreases |frames|
  {
    if frames == [] then 0
    else
      Openings(frames[..|frames| - 1])
      + if PresenceOf(frames[..|frames| - 1], FrameKey(frames[|frames| - 1])).Absent? then 1 else 0
  }

  lemma {:induction false} TallyTouchesOnlyRecords(s: Stats, ks: seq<Kind>)
    ensures TallyAll(s, ks).evicted == s.evicted && TallyAll(s, ks).tailDropped == s.tailDropped
    ensures TallyAll(s, ks).gapBytes == s.gapBytes && TallyAll(s, ks).desynced == s.desynced
    decreases |ks|
  {
    if ks != [] {
      TallyTouchesOnlyRecords(Tally(s, ks[0]), ks[1..]);
    }
  }

  // Every incarnation opened is either still in the table or counted as evicted.
  lemma {:induction false} OpeningsAreConserved(env: Env, frames: seq<Frame>)
    ensures var t := RunAll(env, frames).table; Openings(frames) == |t.conns| + t.stats.evicted
    decreases |frames|
  {
    if frames != [] {
      var init, f := frames[..|frames| - 1], frames[|frames| - 1];
      OpeningsAreConserved(env, init);
      var t, k := RunAll(env, init).table, FrameKey(f);
      TableHoldsOpenConnections(env, init, k);
      var a := Absorb(env, Lookup(t, f), f);
      TallyTouchesOnlyRecords(Gapping(t.stats, a.gap), a.kinds);
      MapSizes(t.conns, k, a.conn);
    }
  }

  lemma MapSizes(m: map<ConnKey, Conn>, k: ConnKey, c: Conn)
    ensures |m[k := c]| == |m| + if k in m then 0 else 1
    ensures |m - {k}| == |m| - if k in m then 1 else 0
  {
    assert m[k := c].Keys == m.Keys + {k};
    assert (m - {k}).Keys == m.Keys - {k};
    assert |m[k := c]| == |m[k := c].Keys| && |m - {k}| == |(m - {k}).Keys| && |m| == |m.Keys|;
  }

  // ----- accounting -----

  datatype Bucket = Decrypted | MissingKey | Unauthenticated | NoHello | Plain

  function BucketOf(k: Kind): Bucket {
    match k
    case PlaintextHandshake => Plain
    case NoClientHello => NoHello
    case Readable(_) => Decrypted
    case KeyMissing => MissingKey
    case Unauthentic => Unauthenticated
  }

  function Count(ks: seq<Kind>, b: Bucket): nat {
    if ks == [] then 0 else (if BucketOf(ks[0]) == b then 1 else 0) + Count(ks[1..], b)
  }

  lemma {:induction false} CountAppend(ks: seq<Kind>, ls: seq<Kind>, b: Bucket)
    ensures Count(ks + ls, b) == Count(ks, b) + Count(ls, b)
  {
    if ks == [] {
      assert ks + ls == ls;
    } else {
      CountAppend(ks[1..], ls, b);
      assert (ks + ls)[1..] == ks[1..] + ls;
    }
  }

  // The six record counters.
  datatype Census = Census(seen: nat, decrypted: nat, keyMissing: nat, unauthentic: nat, noClientHello: nat,
                           plaintext: nat)

  function Counters(s: Stats): Census {
    Census(s.seen, s.decrypted, s.keyMissing, s.unauthentic, s.noClientHello, s.plaintext)
  }

  // What the counters should read after records of these kinds.
  function CensusOf(ks: seq<Kind>): Census {
    Census(|ks|, Count(ks, Decrypted), Count(ks, MissingKey), Count(ks, Unauthenticated), Count(ks, NoHello),
           Count(ks, Plain))
  }

  function Sum(a: Census, b: Census): Census {
    Census(a.seen + b.seen, a.decrypted + b.decrypted, a.keyMissing + b.keyMissing, a.unauthentic + b.unauthentic,
           a.noClientHello + b.noClientHello, a.plaintext + b.plaintext)
  }

  lemma {:induction false} TallyCounts(s: Stats, ks: seq<Kind>)
    ensures Counters(TallyAll(s, ks)) == Sum(Counters(s), CensusOf(ks))
    decreases |ks|
  {
    if ks != [] {
      TallyCounts(Tally(s, ks[0]), ks[1..]);
    }
  }

  lemma CensusAppend(ks: seq<Kind>, ls: seq<Kind>)
    ensures CensusOf(ks + ls) == Sum(CensusOf(ks), CensusOf(ls))
  {
    var a, b, all := CensusOf(ks), CensusOf(ls), CensusOf(ks + ls);
    assert all.decrypted == a.decrypted + b.decrypted by { CountAppend(ks, ls, Decrypted); }
    assert all.keyMissing == a.keyMissing + b.keyMissing by { CountAppend(ks, ls, MissingKey); }
    assert all.unauthentic == a.unauthentic + b.unauthentic by { CountAppend(ks, ls, Unauthenticated); }
    assert all.noClientHello == a.noClientHello + b.noClientHello by { CountAppend(ks, ls, NoHello); }
    assert all.plaintext == a.plaintext + b.plaintext by { CountAppend(ks, ls, Plain); }
  }

  function Total(ns: seq<nat>): nat
    decreases |ns|
  {
    if ns == [] then 0 else Total(ns[..|ns| - 1]) + ns[|ns| - 1]
  }

  // Over any capture the discard counter is exactly the bytes its frames dropped.
  lemma {:induction false} DropsAreCounted(env: Env, frames: seq<Frame>)
    ensures RunAll(env, frames).table.stats.tailDropped == Total(RunAll(env, frames).drops)
    decreases |frames|
  {
    if frames != [] {
      var init, f := frames[..|frames| - 1], frames[|frames| - 1];
      DropsAreCounted(env, init);
      var before := RunAll(env, init);
      var a := Absorb(env, Lookup(before.table, f), f);
      TallyTouchesOnlyRecords(Gapping(before.table.stats, a.gap), a.kinds);
      assert RunAll(env, frames).drops[..|init|] == before.drops;
    }
  }

  function AbandonedBytes(gaps: seq<Option<nat>>): nat
    decreases |gaps|
  {
    if gaps == [] then 0
    else AbandonedBytes(gaps[..|gaps| - 1]) + if gaps[|gaps| - 1].Some? then gaps[|gaps| - 1].value else 0
  }

  function AbandonedGaps(gaps: seq<Option<nat>>): nat
    decreases |gaps|
  {
    if gaps == [] then 0 else AbandonedGaps(gaps[..|gaps| - 1]) + if gaps[|gaps| - 1].Some? then 1 else 0
  }

  // Over any capture the gap counters are exactly the bytes its frames abandoned and the number
  // of directions they desynchronised.
  lemma {:induction false} GapsAreCounted(env: Env, frames: seq<Frame>)
    ensures GapsCounted(RunAll(env, frames).table.stats, RunAll(env, frames).gaps)
    decreases |frames|
  {
    if frames != [] {
      var init, f := frames[..|frames| - 1], frames[|frames| - 1];
      GapsAreCounted(env, init);
      ProcessGaps(env, RunAll(env, init).table, RunAll(env, init).gaps, f);
    }
  }

  ghost predicate GapsCounted(s: Stats, gaps: seq<Option<nat>>) {
    s.gapBytes == AbandonedBytes(gaps) && s.desynced == AbandonedGaps(gaps)
  }

  lemma GappingCounts(s: Stats, gaps: seq<Option<nat>>, gap: Option<nat>)
    requires GapsCounted(s, gaps)
    ensures GapsCounted(Gapping(s, gap), gaps + [gap])
  {
    assert (gaps + [gap])[..|gaps|] == gaps;
  }

  lemma {:induction false} ProcessGaps(env: Env, t: Table, gaps: seq<Option<nat>>, f: Frame)
    requires GapsCounted(t.stats, gaps)
    ensures GapsCounted(Process(env, t, f).0.stats, gaps + [Absorb(env, Lookup(t, f), f).gap])
  {
    var a := Absorb(env, Lookup(t, f), f);
    GappingCounts(t.stats, gaps, a.gap);
    TallyTouchesOnlyRecords(Gapping(t.stats, a.gap), a.kinds);
  }

  // ----- whose messages they are -----

  ghost predicate SentBy(ms: seq<Message>, f: Frame) {
    forall m :: m in ms ==> m.src == f.src && m.dst == f.dst && m.timestamp == f.timestamp
  }

  lemma {:induction false} HandleAllSends(env: Env, conn: Conn, isUp: bool, records: seq<Bytes>, n: nat, f: Frame)
    requires forall r :: r in records ==> Framing.IsRecord(r)
    requires (if isUp then (conn.client, conn.server) else (conn.server, conn.client)) == (f.src, f.dst)
    ensures SentBy(HandleAll(env, conn, isUp, records, n, f).messages, f)
    decreases |records|
  {
    if records != [] {
      assert Framing.IsRecord(records[0]);
      var h := Handle(env, conn, isUp, records[0], f.keylogs(n), f.timestamp);
      HandleAllSends(env, h.conn, isUp, records[1..], n + 1, f);
    }
  }

  lemma AbsorbSends(env: Env, conn: Conn, f: Frame)
    requires KeyOf(conn.client, conn.server) == FrameKey(f)
    ensures SentBy(Absorb(env, conn, f).messages, f)
  {
    var isUp := f.src == conn.client;
    KeysAreUnorderedPairs(conn.client, conn.server, f.src, f.dst);
    var (half, gap) := Receive(env.limits, conn.Side(isUp), f);
    var conn1 := conn.WithSide(isUp, half).(rst := conn.rst || f.flags.rst);
    Framing.RecordsPartition(Queued(conn1, isUp));
    HandleAllSends(env, conn1.WithSide(isUp, Settle(conn1.Side(isUp))), isUp, Framing.Records(Queued(conn1, isUp)), 0,
                   f);
  }

  // Every message a frame completes names that frame's own endpoints, source and destination as
  // they are, and its time.
  lemma {:induction false} MessagesNameTheirFrame(env: Env, frames: seq<Frame>)
    ensures AllSent(RunAll(env, frames).outs, frames)
    decreases |frames|
  {
    if frames != [] {
      var init, f := frames[..|frames| - 1], frames[|frames| - 1];
      MessagesNameTheirFrame(env, init);
      TableHoldsOpenConnections(env, init, FrameKey(f));
      ExtendSends(env, RunAll(env, init), init, f);
      assert init + [f] == frames;
    }
  }

  ghost predicate AllSent(outs: seq<seq<Message>>, frames: seq<Frame>) {
    |outs| == |frames| && forall i :: 0 <= i < |frames| ==> SentBy(outs[i], frames[i])
  }

  lemma ExtendSends(env: Env, r: Run, frames: seq<Frame>, f: Frame)
    requires AllSent(r.outs, frames)
    requires FrameKey(f) in r.table.conns ==>
               var c := r.table.conns[FrameKey(f)]; KeyOf(c.client, c.server) == FrameKey(f)
    ensures AllSent(Extend(env, r, f).outs, frames + [f])
  {
    AbsorbSends(env, Lookup(r.table, f), f);
  }

  // The five outcomes partition the records seen.
  lemma {:induction false} CensusBalances(ks: seq<Kind>)
    ensures var c := CensusOf(ks);
            c.seen == c.decrypted + c.keyMissing + c.unauthentic + c.noClientHello + c.plaintext
  {
    if ks != [] {
      CensusBalances(ks[1..]);
    }
  }

  // The plaintexts of the application records among these.
  function Apps(ks: seq<Kind>): seq<Bytes> {
    if ks == [] then []
    else (if IsApplication(ks[0]) then [ks[0].record.plaintext] else []) + Apps(ks[1..])
  }

  lemma {:induction false} AppsAppend(a: seq<Kind>, b: seq<Kind>)
    ensures Apps(a + b) == Apps(a) + Apps(b)
  {
    if a == [] {
      assert a + b == b;
    } else {
      AppsAppend(a[1..], b);
      assert (a + b)[1..] == a[1..] + b && (a + b)[0] == a[0];
      var first := if IsApplication(a[0]) then [a[0].record.plaintext] else [];
      Assoc(first, Apps(a[1..]), Apps(b));
    }
  }

  function Payloads(ms: seq<Message>): seq<Bytes> {
    if ms == [] then [] else [ms[0].appData] + Payloads(ms[1..])
  }

  lemma {:induction false} PayloadsAppend(a: seq<Message>, b: seq<Message>)
    ensures Payloads(a + b) == Payloads(a) + Payloads(b)
  {
    if a == [] {
      assert a + b == b;
    } else {
      PayloadsAppend(a[1..], b);
      assert (a + b)[1..] == a[1..] + b && (a + b)[0] == a[0];
      Assoc([a[0].appData], Payloads(a[1..]), Payloads(b));
    }
  }

  // One message per decrypted application record, carrying its plaintext.
  lemma {:induction false} OneMessagePerApplicationRecord(env: Env, conn: Conn, isUp: bool, records: seq<Bytes>, n: nat,
                                                          f: Frame)
    requires forall r :: r in records ==> Framing.IsRecord(r)
    ensures var b := HandleAll(env, conn, isUp, records, n, f);
            |b.kinds| == |records| && Payloads(b.messages) == Apps(b.kinds)
    decreases |records|
  {
    if records != [] {
      assert Framing.IsRecord(records[0]);
      var h := Handle(env, conn, isUp, records[0], f.keylogs(n), f.timestamp);
      var b := HandleAll(env, h.conn, isUp, records[1..], n + 1, f);
      OneMessagePerApplicationRecord(env, h.conn, isUp, records[1..], n + 1, f);
      PayloadsAppend(h.messages, b.messages);
      AppsAppend([h.kind], b.kinds);
    }
  }

  lemma AbsorbPayloads(env: Env, conn: Conn, f: Frame)
    ensures var a := Absorb(env, conn, f); |a.kinds| == |a.records| && Payloads(a.messages) == Apps(a.kinds)
  {
    var isUp := f.src == conn.client;
    var (half, gap) := Receive(env.limits, conn.Side(isUp), f);
    var conn1 := conn.WithSide(isUp, half).(rst := conn.rst || f.flags.rst);
    Framing.RecordsPartition(Queued(conn1, isUp));
    OneMessagePerApplicationRecord(env, conn1.WithSide(isUp, Settle(conn1.Side(isUp))), isUp,
                                   Framing.Records(Queued(conn1, isUp)), 0, f);
  }

  function AllPayloads(outs: seq<seq<Message>>): seq<Bytes>
    decreases |outs|
  {
    if outs == [] then [] else AllPayloads(outs[..|outs| - 1]) + Payloads(outs[|outs| - 1])
  }

  lemma ExtendAccounts(env: Env, r: Run, f: Frame)
    requires Counters(r.table.stats) == CensusOf(r.kinds)
    ensures Counters(Extend(env, r, f).table.stats) == CensusOf(Extend(env, r, f).kinds)
  {
    var a := Absorb(env, Lookup(r.table, f), f);
    TallyCounts(Gapping(r.table.stats, a.gap), a.kinds);
    CensusAppend(r.kinds, a.kinds);
  }

  // Over any capture each record is counted under exactly one outcome, and each counter is
  // the number of records with that outcome.
  lemma {:induction false} RecordsAreAccountedFor(env: Env, frames: seq<Frame>)
    ensures Counters(RunAll(env, frames).table.stats) == CensusOf(RunAll(env, frames).kinds)
    decreases |frames|
  {
    if frames != [] {
      RecordsAreAccountedFor(env, frames[..|frames| - 1]);
      ExtendAccounts(env, RunAll(env, frames[..|frames| - 1]), frames[|frames| - 1]);
    }
  }

  lemma OutcomesSumToRecordsSeen(env: Env, frames: seq<Frame>)
    ensures var s := RunAll(env, frames).table.stats;
            s.seen == s.decrypted + s.keyMissing + s.unauthentic + s.noClientHello + s.plaintext
  {
    RecordsAreAccountedFor(env, frames);
    CensusBalances(RunAll(env, frames).kinds);
  }

  // The messages emitted carry, in order, exactly the plaintexts of the decrypted application records.
  lemma {:induction false} MessagesAreApplicationRecords(env: Env, frames: seq<Frame>)
    ensures AllPayloads(RunAll(env, frames).outs) == Apps(RunAll(env, frames).kinds)
    decreases |frames|
  {
    if frames != [] {
      var init, f := frames[..|frames| - 1], frames[|frames| - 1];
      MessagesAreApplicationRecords(env, init);
      var before := RunAll(env, init);
      var a := Absorb(env, Lookup(before.table, f), f);
      AbsorbPayloads(env, Lookup(before.table, f), f);
      AppsAppend(before.kinds, a.kinds);
      assert RunAll(env, frames).outs[..|init|] == before.outs;
    }
  }
}
