// The orchestrator as the program has it: one object holding the connection table and the
// counters, draining records in a loop. Proved against the functions of Pipeline.
module Orchestrators {
  import opened Common
  import opened Fields
  import opened Keylogs
  import opened Streaming
  import opened Framing
  import opened Pipeline
  import R = Reassembly
  import RS = ReassemblySteps
  import D = Decryption

  lemma {:induction false} TallySnoc(s: Stats, ks: seq<Kind>, k: Kind)
    ensures TallyAll(s, ks + [k]) == Tally(TallyAll(s, ks), k)
    decreases |ks|
  {
    if ks == [] {
      assert ks + [k] == [k];
    } else {
      assert (ks + [k])[1..] == ks[1..] + [k];
      TallySnoc(Tally(s, ks[0]), ks[1..], k);
    }
  }

  lemma TallyStep(s: Stats, ks: seq<Kind>, dropped: nat, h: Handled)
    ensures Dropping(Tally(Dropping(TallyAll(s, ks), dropped), h.kind), h.dropped)
         == Dropping(TallyAll(s, ks + [h.kind]), dropped + h.dropped)
  {
    TallySnoc(s, ks, h.kind);
  }

  // Appends a batch to what has been handled before it.
  function After(kinds: seq<Kind>, dropped: nat, out: seq<Message>, b: Batch): Batch {
    Batch(b.conn, kinds + b.kinds, dropped + b.dropped, out + b.messages)
  }

  lemma AfterStep(kinds: seq<Kind>, dropped: nat, out: seq<Message>, h: Handled, b: Batch)
    ensures After(kinds, dropped, out, After([h.kind], h.dropped, h.messages, b))
         == After(kinds + [h.kind], dropped + h.dropped, out + h.messages, b)
  {
    assert kinds + ([h.kind] + b.kinds) == kinds + [h.kind] + b.kinds;
    assert out + (h.messages + b.messages) == out + h.messages + b.messages;
  }

  // Handling a record neither reads nor changes the reassemblers.
  lemma HandleSettles(env: Env, conn: Conn, isUp: bool, record: Bytes, keylog: Keylog, timestamp: nat)
    requires |record| >= HEADER
    ensures var h := Handle(env, conn, isUp, record, keylog, timestamp);
            && h.conn.up.reasm == conn.up.reasm && h.conn.down.reasm == conn.down.reasm
            && Handle(env, conn.WithSide(isUp, Settle(conn.Side(isUp))), isUp, record, keylog, timestamp)
               == h.(conn := h.conn.WithSide(isUp, Settle(h.conn.Side(isUp))))
  {
  }

  // The connection after taking the first n queued bytes of one direction.
  function Consume(conn: Conn, isUp: bool, n: nat): Conn
    requires n <= |Queued(conn, isUp)|
  {
    var h := conn.Side(isUp);
    conn.WithSide(isUp, h.(reasm := h.reasm.(contiguous := R.Take(h.reasm.contiguous, n).rest)))
  }

  // Taking and handling one record at a time is taking them all and then handling them.
  lemma DrainUnfolds(env: Env, conn: Conn, isUp: bool, n: nat, f: Frame)
    ensures var q := Queued(conn, isUp);
            if WholeRecord(q).NoItem? then DrainAll(env, conn, isUp, n, f) == Batch(conn, [], 0, [])
            else
              var h := Handle(env, Consume(conn, isUp, WholeRecord(q).size), isUp, WholeRecord(q).value, f.keylogs(n),
                              f.timestamp);
              && |Queued(h.conn, isUp)| < |q|
              && DrainAll(env, conn, isUp, n, f)
                 == After([h.kind], h.dropped, h.messages, DrainAll(env, h.conn, isUp, n + 1, f))
  {
    var q := Queued(conn, isUp);
    if WholeRecord(q).Item? {
      var conn1 := Consume(conn, isUp, WholeRecord(q).size);
      RS.TakeSplits(conn.Side(isUp).reasm.contiguous, WholeRecord(q).size);
      HandleFirst(env, conn, conn1, isUp, WholeRecord(q).value, Records(Queued(conn1, isUp)), n, f);
    } else {
      assert Records(q) == [];
    }
  }

  lemma HandleFirst(env: Env, conn: Conn, conn1: Conn, isUp: bool, record: Bytes, rest: seq<Bytes>, n: nat, f: Frame)
    requires conn.WithSide(isUp, Settle(conn.Side(isUp))) == conn1.WithSide(isUp, Settle(conn1.Side(isUp)))
    requires Records(Queued(conn, isUp)) == [record] + rest && rest == Records(Queued(conn1, isUp))
    requires IsRecord(record)
    ensures var h := Handle(env, conn1, isUp, record, f.keylogs(n), f.timestamp);
            && Queued(h.conn, isUp) == Queued(conn1, isUp)
            && DrainAll(env, conn, isUp, n, f)
               == After([h.kind], h.dropped, h.messages, DrainAll(env, h.conn, isUp, n + 1, f))
  {
    HandleSettles(env, conn1, isUp, record, f.keylogs(n), f.timestamp);
    assert ([record] + rest)[1..] == rest;
    RecordsPartition(Queued(conn, isUp));
  }

  lemma UpdateTwice(m: map<ConnKey, Conn>, k: ConnKey, a: Conn, b: Conn)
    ensures m[k := a][k := b] == m[k := b]
  {
  }

  class Orchestrator {
    const env: Env
    var connections: map<ConnKey, Conn>
    var stats: Stats

    ghost function Abstract(): Table
      reads this
    {
      Table(connections, stats)
    }

    constructor (env: Env)
      ensures Abstract() == EMPTY_TABLE && this.env == env
    {
      this.env := env;
      connections, stats := map[], NO_STATS;
    }

    method ProcessFrame(f: Frame) returns (messages: seq<Message>)
      modifies this
      ensures Abstract() == Process(env, old(Abstract()), f).0
      ensures messages == Process(env, old(Abstract()), f).1
    {
      var key := FrameKey(f);
      if key !in connections {
        connections := connections[key := NewConn(f.src, f.dst)];
      }
      messages := AbsorbFrame(key, f);
      if connections[key].IsClosed() {
        connections := connections - {key};
        stats := stats.(evicted := stats.evicted + 1);
        assert connections == old(connections) - {key};
      }
    }

    method AbsorbFrame(key: ConnKey, f: Frame) returns (messages: seq<Message>)
      requires key in connections
      modifies this
      ensures var a := Absorb(env, old(connections)[key], f);
              && connections == old(connections)[key := a.conn]
              && stats == Dropping(TallyAll(Gapping(old(stats), a.gap), a.kinds), a.dropped)
              && messages == a.messages
    {
      var isUp := f.src == connections[key].client;
      ReceiveFrame(key, isUp, f);
      ghost var received := connections[key];
      messages := DrainRecords(key, isUp, f);
      UpdateTwice(old(connections), key, received, connections[key]);
    }

    // Header flags and payload of one frame.
    method ReceiveFrame(key: ConnKey, isUp: bool, f: Frame)
      requires key in connections
      modifies this
      ensures var conn := old(connections)[key];
              var (half, gap) := Receive(env.limits, conn.Side(isUp), f);
              && connections == old(connections)[key := conn.WithSide(isUp, half).(rst := conn.rst || f.flags.rst)]
              && stats == Gapping(old(stats), gap)
    {
      var conn := connections[key];
      var half, gap := ReceiveSide(conn.Side(isUp), f);
      if f.flags.rst {
        conn := conn.(rst := true);
      }
      if gap.Some? {
        stats := stats.(gapBytes := stats.gapBytes + gap.value, desynced := stats.desynced + 1);
      }
      connections := connections[key := conn.WithSide(isUp, half)];
    }

    // Anchoring, closing, reassembly and desynchronisation of one direction.
    method ReceiveSide(h: Half, f: Frame) returns (half: Half, gap: Option<nat>)
      ensures (half, gap) == Receive(env.limits, h, f)
    {
      half := AnchorSide(h, f);
      gap := None;
      if f.arrival.payload != [] && !half.desynced {
        var r := R.Push(half.reasm, env.limits, f.arrival);
        half := half.(reasm := r.st);
        if r.outcome.GapAbandoned? {
          gap := Some(r.outcome.bytes);
          half := half.(reasm := R.FRESH, desynced := true);
        }
      }
    }

    method AnchorSide(h: Half, f: Frame) returns (half: Half)
      ensures var first := (f.arrival.seqno + 1) % R.SEQ_SPACE;
              half == h.(reasm := if f.flags.syn then R.SetIsn(h.reasm, first) else h.reasm,
                         fin := h.fin || f.flags.fin)
    {
      half := h;
      if f.flags.syn {
        half := half.(reasm := R.SetIsn(half.reasm, (f.arrival.seqno + 1) % R.SEQ_SPACE));
      }
      if f.flags.fin {
        half := half.(fin := true);
      }
    }

    // Takes and handles every whole record now queued in one direction.
    method DrainRecords(key: ConnKey, isUp: bool, f: Frame) returns (out: seq<Message>)
      requires key in connections
      modifies this
      ensures var b := DrainAll(env, old(connections)[key], isUp, 0, f);
              && connections == old(connections)[key := b.conn]
              && stats == Dropping(TallyAll(old(stats), b.kinds), b.dropped)
              && out == b.messages
    {
      out := [];
      var n: nat := 0;
      ghost var goal := DrainAll(env, connections[key], isUp, 0, f);
      ghost var kinds: seq<Kind>, dropped: nat := [], 0;
      while |Queued(connections[key], isUp)| >= HEADER
        invariant key in connections && connections == old(connections)[key := connections[key]]
        invariant goal == After(kinds, dropped, out, DrainAll(env, connections[key], isUp, n, f))
        invariant stats == Dropping(TallyAll(old(stats), kinds), dropped)
        decreases |Queued(connections[key], isUp)|
      {
        var header := Queued(connections[key], isUp);
        var total := HEADER + BodyLength(header);
        if |header| < total {
          break;
        }
        DrainUnfolds(env, connections[key], isUp, n, f);
        ghost var h := Handle(env, Consume(connections[key], isUp, total), isUp, header[..total], f.keylogs(n),
                              f.timestamp);
        TallyStep(old(stats), kinds, dropped, h);
        AfterStep(kinds, dropped, out, h, DrainAll(env, h.conn, isUp, n + 1, f));
        var record := TakeRecord(key, isUp, total);
        var messages := HandleRecord(key, isUp, record, f.keylogs(n), f.timestamp);
        out := out + messages;
        kinds, dropped := kinds + [h.kind], dropped + h.dropped;
        n := n + 1;
      }
      DrainUnfolds(env, connections[key], isUp, n, f);
      assert kinds + [] == kinds && out + [] == out;
    }

    method TakeRecord(key: ConnKey, isUp: bool, total: nat) returns (record: Bytes)
      requires key in connections && total <= |Queued(connections[key], isUp)|
      modifies this`connections
      ensures connections == old(connections)[key := Consume(old(connections)[key], isUp, total)]
      ensures record == Queued(old(connections)[key], isUp)[..total]
    {
      var conn := connections[key];
      var half := conn.Side(isUp);
      RS.TakeSplits(half.reasm.contiguous, total);
      var taken := R.Take(half.reasm.contiguous, total);
      record := taken.bytes;
      connections := connections[key := conn.WithSide(isUp, half.(reasm := half.reasm.(contiguous := taken.rest)))];
    }

    method HandleRecord(key: ConnKey, isUp: bool, record: Bytes, keylog: Keylog, timestamp: nat)
      returns (out: seq<Message>)
      requires key in connections && |record| >= HEADER
      modifies this
      ensures var h := Handle(env, old(connections)[key], isUp, record, keylog, timestamp);
              && connections == old(connections)[key := h.conn]
              && stats == Dropping(Tally(old(stats), h.kind), h.dropped)
              && out == h.messages
    {
      var kind := ClassifyRecord(key, isUp, record, keylog);
      CountRecord(kind);
      out := [];
      if kind.Readable? && kind.record.ctype == APPLICATION_DATA {
        var m := DissectAndEmit(key, isUp, kind.record.plaintext, timestamp);
        out := [m];
      }
    }

    method CountRecord(kind: Kind)
      modifies this`stats
      ensures stats == Tally(old(stats), kind)
    {
      stats := stats.(seen := stats.seen + 1);
      match kind {
        case PlaintextHandshake => stats := stats.(plaintext := stats.plaintext + 1);
        case NoClientHello => stats := stats.(noClientHello := stats.noClientHello + 1);
        case KeyMissing => stats := stats.(keyMissing := stats.keyMissing + 1);
        case Unauthentic => stats := stats.(unauthentic := stats.unauthentic + 1);
        case Readable(_) => stats := stats.(decrypted := stats.decrypted + 1);
      }
    }

    method ClassifyRecord(key: ConnKey, isUp: bool, record: Bytes, keylog: Keylog) returns (kind: Kind)
      requires key in connections && |record| >= HEADER
      modifies this`connections
      ensures var conn := old(connections)[key];
              var (tls, k) := Classify(env.crypto, conn.tls, isUp, record, keylog);
              kind == k && connections == old(connections)[key := conn.(tls := tls)]
    {
      var conn := connections[key];
      var outer, body := record[0], record[HEADER..];
      if outer == CHANGE_CIPHER_SPEC {
        return PlaintextHandshake;
      }
      var clientRandom := D.HelloRandom(body, D.CLIENT_HELLO);
      if isUp && conn.tls.None? && clientRandom.Some? {
        connections := connections[key := conn.(tls := Some(D.NewConnection(clientRandom.value)))];
        return PlaintextHandshake;
      }
      var serverRandom := D.HelloRandom(body, D.SERVER_HELLO);
      if !isUp && serverRandom.Some? && conn.tls.Some? {
        var learned := D.SetServerRandom(conn.tls.value, serverRandom.value);
        if learned.1 {
          connections := connections[key := conn.(tls := Some(learned.0))];
          return PlaintextHandshake;
        }
      }
      if conn.tls.None? {
        return NoClientHello;
      }
      var decrypted := D.Decrypt(env.crypto, conn.tls.value, keylog, isUp, outer, body);
      connections := connections[key := conn.(tls := Some(decrypted.0))];
      match decrypted.1 {
        case Ok(r) => return Readable(r);
        case NoKey => return KeyMissing;
        case AuthFailed => return Unauthentic;
      }
    }

    method DissectAndEmit(key: ConnKey, isUp: bool, plaintext: Bytes, timestamp: nat) returns (m: Message)
      requires key in connections
      modifies this
      ensures var conn := old(connections)[key];
              var carry := Dissect(env, conn.server.port, conn.Side(isUp).tail, plaintext);
              && connections == old(connections)[key := conn.WithSide(isUp, conn.Side(isUp).(tail := carry.tail))]
              && stats == Dropping(old(stats), carry.dropped)
              && m == Message(if isUp then conn.client else conn.server, if isUp then conn.server else conn.client,
                              plaintext, carry.fields, timestamp)
    {
      var conn := connections[key];
      var half := conn.Side(isUp);
      var buf := half.tail + plaintext;
      connections := connections[key := conn.WithSide(isUp, half.(tail := []))];
      var fields := NO_FIELDS;
      match env.dissect(conn.server.port, buf) {
        case Dissected(dissected, consumed) =>
          SetTailCapped(key, isUp, buf[Min(consumed, |buf|)..]);
          fields := dissected;
        case NoDissector =>
        case Failed =>
          SetTailCapped(key, isUp, buf);
      }
      var src := if isUp then conn.client else conn.server;
      var dst := if isUp then conn.server else conn.client;
      m := Message(src, dst, plaintext, fields, timestamp);
    }

    method SetTailCapped(key: ConnKey, isUp: bool, bytes: Bytes)
      requires key in connections
      modifies this
      ensures var conn := old(connections)[key];
              var c := Cap(bytes, env.maxTail);
              && connections == old(connections)[key := conn.WithSide(isUp, conn.Side(isUp).(tail := c.kept))]
              && stats == Dropping(old(stats), c.dropped)
    {
      var kept := bytes;
      if |bytes| > env.maxTail {
        var discard := |bytes| - env.maxTail;
        kept := bytes[discard..];
        stats := stats.(tailDropped := stats.tailDropped + discard);
      }
      var conn := connections[key];
      connections := connections[key := conn.WithSide(isUp, conn.Side(isUp).(tail := kept))];
    }
  }
}
