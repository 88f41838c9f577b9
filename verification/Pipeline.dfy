// From captured TCP frames to dissected messages: the connection table, the closing and desync
// latches, TLS record extraction, classification, decryption and streaming dissection.
module Pipeline {
  import opened Common
  import opened Fields
  import opened Keylogs
  import opened RecordProtection
  import R = Reassembly
  import RS = ReassemblySteps
  import opened Streaming
  import opened Framing
  import D = Decryption

  // ----- endpoints and keys -----

  // An address is its position in the total order of IP addresses.
  datatype Endpoint = Endpoint(ip: nat, port: nat)

  predicate AtMost(a: Endpoint, b: Endpoint) {
    a.ip < b.ip || (a.ip == b.ip && a.port <= b.port)
  }

  datatype ConnKey = ConnKey(lo: Endpoint, hi: Endpoint)

  function KeyOf(a: Endpoint, b: Endpoint): ConnKey {
    if AtMost(a, b) then ConnKey(a, b) else ConnKey(b, a)
  }

  // ----- inputs and outputs -----

  datatype Flags = Flags(syn: bool, ack: bool, fin: bool, rst: bool)

  // A captured frame, with what its handling reads from outside: the clock (inside the
  // arrival) and the key log in force for each record it completes.
  datatype Frame = Frame(src: Endpoint, dst: Endpoint, flags: Flags, arrival: R.Arrival,
                         timestamp: nat, keylogs: nat -> Keylog)

  function FrameKey(f: Frame): ConnKey {
    KeyOf(f.src, f.dst)
  }

  datatype Message = Message(src: Endpoint, dst: Endpoint, appData: Bytes, fields: FrameFields, timestamp: nat)

  datatype Dissection = NoDissector | Failed | Dissected(fields: FrameFields, consumed: nat)

  datatype Env = Env(limits: R.Limits, maxTail: nat, crypto: Crypto, dissect: (nat, Bytes) -> Dissection)

  // ----- one connection -----

  datatype Half = Half(reasm: R.State, tail: Bytes, desynced: bool, fin: bool)

  datatype Conn = Conn(client: Endpoint, server: Endpoint, up: Half, down: Half,
                       tls: Option<D.Connection>, rst: bool)
  {
    function Side(isUp: bool): Half {
      if isUp then up else down
    }

    function WithSide(isUp: bool, h: Half): Conn {
      if isUp then this.(up := h) else this.(down := h)
    }

    predicate IsClosed() {
      rst || (up.fin && down.fin)
    }
  }

  const NEW_HALF := Half(R.FRESH, [], false, false)

  // The sender of the first frame is the client: it either sent the opening SYN or is the best guess.
  function NewConn(client: Endpoint, server: Endpoint): Conn {
    Conn(client, server, NEW_HALF, NEW_HALF, None, false)
  }

  // ----- reassembly and record extraction -----

  // The queue after every whole record at its front has been taken.
  function DropRecords(c: seq<R.Segment>): seq<R.Segment>
    decreases |R.Concat(c)|
  {
    var item := WholeRecord(R.Concat(c));
    if item.NoItem? then c
    else
      RS.TakeSplits(c, item.size);
      DropRecords(R.Take(c, item.size).rest)
  }

  // What a frame's header and payload do to its direction; the gap tells the bytes abandoned,
  // after which the direction is desynchronised and holds nothing.
  function Receive(lim: R.Limits, h: Half, f: Frame): (Half, Option<nat>) {
    var reasm := if f.flags.syn then R.SetIsn(h.reasm, (f.arrival.seqno + 1) % R.SEQ_SPACE) else h.reasm;
    var h1 := h.(reasm := reasm, fin := h.fin || f.flags.fin);
    if f.arrival.payload == [] || h.desynced then (h1, None)
    else
      var r := R.Push(reasm, lim, f.arrival);
      if r.outcome.GapAbandoned? then (h1.(reasm := R.FRESH, desynced := true), Some(r.outcome.bytes))
      else (h1.(reasm := r.st), None)
  }

  // The direction with every whole record taken off its queue.
  function Settle(h: Half): Half {
    h.(reasm := h.reasm.(contiguous := DropRecords(h.reasm.contiguous)))
  }

  datatype Intake = Intake(half: Half, gap: Option<nat>, records: seq<Bytes>)

  function TakeIn(lim: R.Limits, h: Half, f: Frame): (t: Intake)
    ensures forall r :: r in t.records ==> IsRecord(r)
  {
    var (h1, gap) := Receive(lim, h, f);
    var queued := R.Concat(h1.reasm.contiguous);
    RecordsPartition(queued);
    Intake(Settle(h1), gap, Records(queued))
  }

  // ----- dissection -----

  datatype Capped = Capped(kept: Bytes, dropped: nat)

  // Keeps the most recent `max` bytes.
  function Cap(bytes: Bytes, max: nat): Capped {
    if |bytes| > max then Capped(bytes[|bytes| - max..], |bytes| - max) else Capped(bytes, 0)
  }

  datatype Carry = Carry(tail: Bytes, dropped: nat, fields: FrameFields)

  // The tail left by dissecting the carried tail followed by one record's plaintext.
  function Dissect(env: Env, port: nat, tail: Bytes, plaintext: Bytes): Carry {
    var buf := tail + plaintext;
    match env.dissect(port, buf)
    case Dissected(fields, consumed) =>
      var c := Cap(buf[Min(consumed, |buf|)..], env.maxTail);
      Carry(c.kept, c.dropped, fields)
    case NoDissector => Carry([], 0, NO_FIELDS)
    case Failed =>
      var c := Cap(buf, env.maxTail);
      Carry(c.kept, c.dropped, NO_FIELDS)
  }

  // ----- record handling -----

  datatype Kind = PlaintextHandshake | NoClientHello | Readable(record: D.Decrypted) | KeyMissing | Unauthentic

  const CHANGE_CIPHER_SPEC: Byte := 0x14
  const APPLICATION_DATA: Byte := 0x17

  predicate IsApplication(k: Kind) {
    k.Readable? && k.record.ctype == APPLICATION_DATA
  }

  // What one record of a connection turns out to be, and what that teaches the TLS state.
  function Classify(c: Crypto, tls: Option<D.Connection>, isUp: bool, record: Bytes, keylog: Keylog)
    : (Option<D.Connection>, Kind)
    requires |record| >= HEADER
  {
    var outer, body := record[0], record[HEADER..];
    var clientRandom := D.HelloRandom(body, D.CLIENT_HELLO);
    var serverRandom := D.HelloRandom(body, D.SERVER_HELLO);
    if outer == CHANGE_CIPHER_SPEC then (tls, PlaintextHandshake)
    else if isUp && tls.None? && clientRandom.Some? then (Some(D.NewConnection(clientRandom.value)), PlaintextHandshake)
    else if !isUp && serverRandom.Some? && tls.Some? && D.SetServerRandom(tls.value, serverRandom.value).1 then
      (Some(D.SetServerRandom(tls.value, serverRandom.value).0), PlaintextHandshake)
    else if tls.None? then (tls, NoClientHello)
    else
      var (st, r) := D.Decrypt(c, tls.value, keylog, isUp, outer, body);
      (Some(st), match r
                 case Ok(rec) => Readable(rec)
                 case NoKey => KeyMissing
                 case AuthFailed => Unauthentic)
  }

  datatype Handled = Handled(conn: Conn, kind: Kind, dropped: nat, messages: seq<Message>)

  function Emit(env: Env, conn: Conn, isUp: bool, plaintext: Bytes, timestamp: nat): (Conn, nat, Message) {
    var h := conn.Side(isUp);
    var carry := Dissect(env, conn.server.port, h.tail, plaintext);
    var (src, dst) := if isUp then (conn.client, conn.server) else (conn.server, conn.client);
    (conn.WithSide(isUp, h.(tail := carry.tail)), carry.dropped, Message(src, dst, plaintext, carry.fields, timestamp))
  }

  // Classifies one record; application data is dissected and emitted as one message.
  function Handle(env: Env, conn: Conn, isUp: bool, record: Bytes, keylog: Keylog, timestamp: nat): Handled
    requires |record| >= HEADER
  {
    var (tls, kind) := Classify(env.crypto, conn.tls, isUp, record, keylog);
    var conn1 := conn.(tls := tls);
    if IsApplication(kind) then
      var (conn2, dropped, m) := Emit(env, conn1, isUp, kind.record.plaintext, timestamp);
      Handled(conn2, kind, dropped, [m])
    else Handled(conn1, kind, 0, [])
  }

  datatype Batch = Batch(conn: Conn, kinds: seq<Kind>, dropped: nat, messages: seq<Message>)

  // Handles the records of one frame, of which the first is its n-th.
  function HandleAll(env: Env, conn: Conn, isUp: bool, records: seq<Bytes>, n: nat, f: Frame): Batch
    requires forall r :: r in records ==> IsRecord(r)
    decreases |records|
  {
    if records == [] then Batch(conn, [], 0, [])
    else
      assert IsRecord(records[0]);
      var h := Handle(env, conn, isUp, records[0], f.keylogs(n), f.timestamp);
      var rest := HandleAll(env, h.conn, isUp, records[1..], n + 1, f);
      Batch(rest.conn, [h.kind] + rest.kinds, h.dropped + rest.dropped, h.messages + rest.messages)
  }

  // ----- one frame -----

  datatype Absorbed = Absorbed(conn: Conn, isUp: bool, gap: Option<nat>, records: seq<Bytes>,
                               kinds: seq<Kind>, dropped: nat, messages: seq<Message>)

  function Queued(conn: Conn, isUp: bool): Bytes {
    R.Concat(conn.Side(isUp).reasm.contiguous)
  }

  // All whole records queued in one direction, taken at once and then handled in order.
  function DrainAll(env: Env, conn: Conn, isUp: bool, n: nat, f: Frame): Batch {
    RecordsPartition(Queued(conn, isUp));
    HandleAll(env, conn.WithSide(isUp, Settle(conn.Side(isUp))), isUp, Records(Queued(conn, isUp)), n, f)
  }

  function Absorb(env: Env, conn: Conn, f: Frame): Absorbed {
    var isUp := f.src == conn.client;
    var (half, gap) := Receive(env.limits, conn.Side(isUp), f);
    var conn1 := conn.WithSide(isUp, half).(rst := conn.rst || f.flags.rst);
    var b := DrainAll(env, conn1, isUp, 0, f);
    Absorbed(b.conn, isUp, gap, Records(Queued(conn1, isUp)), b.kinds, b.dropped, b.messages)
  }

  // ----- the table -----

  datatype Stats = Stats(evicted: nat, gapBytes: nat, tailDropped: nat, desynced: nat, seen: nat, decrypted: nat,
                         keyMissing: nat, unauthentic: nat, noClientHello: nat, plaintext: nat)

  const NO_STATS := Stats(0, 0, 0, 0, 0, 0, 0, 0, 0, 0)

  function Tally(s: Stats, k: Kind): Stats {
    var s1 := s.(seen := s.seen + 1);
    match k
    case PlaintextHandshake => s1.(plaintext := s.plaintext + 1)
    case NoClientHello => s1.(noClientHello := s.noClientHello + 1)
    case Readable(_) => s1.(decrypted := s.decrypted + 1)
    case KeyMissing => s1.(keyMissing := s.keyMissing + 1)
    case Unauthentic => s1.(unauthentic := s.unauthentic + 1)
  }

  function TallyAll(s: Stats, kinds: seq<Kind>): Stats
    decreases |kinds|
  {
    if kinds == [] then s else TallyAll(Tally(s, kinds[0]), kinds[1..])
  }

  datatype Table = Table(conns: map<ConnKey, Conn>, stats: Stats)

  const EMPTY_TABLE := Table(map[], NO_STATS)

  function Lookup(t: Table, f: Frame): Conn {
    if FrameKey(f) in t.conns then t.conns[FrameKey(f)] else NewConn(f.src, f.dst)
  }

  // Adds dropped tail bytes to the counters.
  function Dropping(s: Stats, n: nat): Stats {
    s.(tailDropped := s.tailDropped + n)
  }

  function Gapping(s: Stats, gap: Option<nat>): Stats {
    if gap.None? then s else s.(gapBytes := s.gapBytes + gap.value, desynced := s.desynced + 1)
  }

  // The table and the messages after one frame.
  function Process(env: Env, t: Table, f: Frame): (Table, seq<Message>) {
    var a := Absorb(env, Lookup(t, f), f);
    var s := Dropping(TallyAll(Gapping(t.stats, a.gap), a.kinds), a.dropped);
    if a.conn.IsClosed() then (Table(t.conns - {FrameKey(f)}, s.(evicted := s.evicted + 1)), a.messages)
    else (Table(t.conns[FrameKey(f) := a.conn], s), a.messages)
  }
}
