// Streaming dissection over the life of a connection: the carried tail makes the split of
// application data into TLS records invisible, and nothing is dropped uncounted.
module DissectionRuns {
  import opened Common
  import opened Fields
  import Keylogs
  import opened Streaming
  import opened Framing
  import opened Pipeline
  import opened ConnectionRuns
  import T = TableRuns

  // A direction's dissection state: the tail, what has been consumed and dropped, and the
  // fields reported so far.
  datatype Carried = Carried(tail: Bytes, consumed: Bytes, dropped: nat, fields: seq<FrameFields>)

  // The bytes the dissector took off the front of a buffer.
  function Consumed(env: Env, port: nat, buf: Bytes): Bytes {
    match env.dissect(port, buf)
    case Dissected(_, n) => buf[..Min(n, |buf|)]
    case NoDissector => []
    case Failed => []
  }

  // The last n bytes, or all there are.
  function Last(s: Bytes, n: nat): Bytes {
    s[|s| - Min(n, |s|)..]
  }

  // One more record: the tail is the end of what the dissector left, as much as may be kept.
  // Nothing is kept for a port without a dissector.
  function CarryOne(env: Env, port: nat, c: Carried, plaintext: Bytes): Carried {
    var buf := c.tail + plaintext;
    var d := env.dissect(port, buf);
    if d.NoDissector? then Carried([], c.consumed, c.dropped, c.fields + [NO_FIELDS])
    else
      var used := Consumed(env, port, buf);
      var tail := Last(buf[|used|..], env.maxTail);
      Carried(tail, c.consumed + used, c.dropped + (|buf| - |used| - |tail|),
              c.fields + [if d.Dissected? then d.fields else NO_FIELDS])
  }

  // Dissecting a record keeps what the dissector left of the buffer, up to the cap and no less,
  // and drops exactly the excess.
  lemma DissectKeepsWhatFits(env: Env, port: nat, tail: Bytes, plaintext: Bytes)
    ensures var buf, d := tail + plaintext, env.dissect(port, tail + plaintext);
            var r := Dissect(env, port, tail, plaintext);
            var left := if d.Dissected? then |buf| - Min(d.consumed, |buf|) else |buf|;
            if d.NoDissector? then r == Carry([], 0, NO_FIELDS)
            else
              && |r.tail| == Min(env.maxTail, left) && IsSuffix(r.tail, buf)
              && r.dropped == (if left > env.maxTail then left - env.maxTail else 0)
              && r.fields == if d.Dissected? then d.fields else NO_FIELDS
  {
  }

  lemma DissectIsCarry(env: Env, port: nat, c: Carried, plaintext: Bytes)
    ensures var r, d := Dissect(env, port, c.tail, plaintext), CarryOne(env, port, c, plaintext);
            r.tail == d.tail && c.dropped + r.dropped == d.dropped && c.fields + [r.fields] == d.fields
  {
    var buf := c.tail + plaintext;
    var left := buf[|Consumed(env, port, buf)|..];
    assert |left| <= env.maxTail ==> Last(left, env.maxTail) == left;
    assert buf[0..] == buf;
  }

  function CarryAll(env: Env, port: nat, c: Carried, plaintexts: seq<Bytes>): Carried
    decreases |plaintexts|
  {
    if plaintexts == [] then c
    else CarryAll(env, port, CarryOne(env, port, c, plaintexts[0]), plaintexts[1..])
  }

  const NOTHING := Carried([], [], 0, [])

  lemma {:induction false} CarryAppend(env: Env, port: nat, c: Carried, p: seq<Bytes>, q: seq<Bytes>)
    ensures CarryAll(env, port, c, p + q) == CarryAll(env, port, CarryAll(env, port, c, p), q)
    decreases |p|
  {
    if p == [] {
      assert p + q == q;
    } else {
      assert (p + q)[1..] == p[1..] + q;
      CarryAppend(env, port, CarryOne(env, port, c, p[0]), p[1..], q);
    }
  }

  function FieldsOf(ms: seq<Message>): seq<FrameFields> {
    if ms == [] then [] else [ms[0].fields] + FieldsOf(ms[1..])
  }

  lemma {:induction false} FieldsOfAppend(a: seq<Message>, b: seq<Message>)
    ensures FieldsOf(a + b) == FieldsOf(a) + FieldsOf(b)
  {
    if a == [] {
      assert a + b == b;
    } else {
      FieldsOfAppend(a[1..], b);
      assert (a + b)[1..] == a[1..] + b && (a + b)[0] == a[0];
      Assoc([a[0].fields], FieldsOf(a[1..]), FieldsOf(b));
    }
  }

  // ----- the pipeline's tails are this fold -----

  // The connection's side, and the messages and drops after some records, continue `from`.
  ghost predicate Continues(env: Env, port: nat, from: Carried, plaintexts: seq<Bytes>,
                            tail: Bytes, dropped: nat, fields: seq<FrameFields>) {
    var to := CarryAll(env, port, from, plaintexts);
    tail == to.tail && from.dropped + dropped == to.dropped && from.fields + fields == to.fields
  }

  lemma ContinuesTwice(env: Env, port: nat, from: Carried, p: seq<Bytes>, tail: Bytes,
                       dropped: nat, fields: seq<FrameFields>,
                       q: seq<Bytes>, tail': Bytes, dropped': nat, fields': seq<FrameFields>)
    requires Continues(env, port, from, p, tail, dropped, fields)
    requires Continues(env, port, CarryAll(env, port, from, p), q, tail', dropped', fields')
    ensures Continues(env, port, from, p + q, tail', dropped + dropped', fields + fields')
  {
    CarryAppend(env, port, from, p, q);
    Assoc(from.fields, fields, fields');
  }

  lemma HandleCarries(env: Env, conn: Conn, isUp: bool, record: Bytes, keylog: Keylogs.Keylog, timestamp: nat,
                      from: Carried)
    requires |record| >= HEADER && conn.Side(isUp).tail == from.tail
    ensures var h := Handle(env, conn, isUp, record, keylog, timestamp);
            && h.conn.server == conn.server
            && Continues(env, conn.server.port, from, T.Apps([h.kind]), h.conn.Side(isUp).tail, h.dropped,
                         FieldsOf(h.messages))
  {
    var h := Handle(env, conn, isUp, record, keylog, timestamp);
    if IsApplication(h.kind) {
      var plain := h.kind.record.plaintext;
      assert T.Apps([h.kind]) == [plain];
      assert CarryAll(env, conn.server.port, from, [plain]) == CarryOne(env, conn.server.port, from, plain);
      DissectIsCarry(env, conn.server.port, from, plain);
      assert FieldsOf(h.messages) == [h.messages[0].fields];
    } else {
      assert T.Apps([h.kind]) == [];
    }
  }

  lemma {:induction false} HandleAllCarries(env: Env, conn: Conn, isUp: bool, records: seq<Bytes>, n: nat, f: Frame,
                                            from: Carried)
    requires forall r :: r in records ==> IsRecord(r)
    requires conn.Side(isUp).tail == from.tail
    ensures var b := HandleAll(env, conn, isUp, records, n, f);
            Continues(env, conn.server.port, from, T.Apps(b.kinds), b.conn.Side(isUp).tail, b.dropped,
                      FieldsOf(b.messages))
    decreases |records|
  {
    if records != [] {
      assert IsRecord(records[0]);
      var port := conn.server.port;
      var h := Handle(env, conn, isUp, records[0], f.keylogs(n), f.timestamp);
      var b := HandleAll(env, h.conn, isUp, records[1..], n + 1, f);
      HandleCarries(env, conn, isUp, records[0], f.keylogs(n), f.timestamp, from);
      var mid := CarryAll(env, port, from, T.Apps([h.kind]));
      HandleAllCarries(env, h.conn, isUp, records[1..], n + 1, f, mid);
      ContinuesTwice(env, port, from, T.Apps([h.kind]), h.conn.Side(isUp).tail, h.dropped, FieldsOf(h.messages),
                     T.Apps(b.kinds), b.conn.Side(isUp).tail, b.dropped, FieldsOf(b.messages));
      T.AppsAppend([h.kind], b.kinds);
      FieldsOfAppend(h.messages, b.messages);
    }
  }

  lemma AbsorbCarries(env: Env, conn: Conn, f: Frame, from: Carried)
    requires conn.Side(f.src == conn.client).tail == from.tail
    ensures var a := Absorb(env, conn, f);
            Continues(env, conn.server.port, from, T.Apps(a.kinds), a.conn.Side(a.isUp).tail, a.dropped,
                      FieldsOf(a.messages))
  {
    var isUp := f.src == conn.client;
    var (half, gap) := Receive(env.limits, conn.Side(isUp), f);
    var conn1 := conn.WithSide(isUp, half).(rst := conn.rst || f.flags.rst);
    RecordsPartition(Queued(conn1, isUp));
    HandleAllCarries(env, conn1.WithSide(isUp, Settle(conn1.Side(isUp))), isUp, Records(Queued(conn1, isUp)), 0, f,
                     from);
  }

  ghost predicate Folded(env: Env, l: Life, isUp: bool) {
    var t := l.Trail(isUp);
    Continues(env, l.conn.server.port, NOTHING, T.Apps(t.kinds), l.conn.Side(isUp).tail, t.dropped,
              FieldsOf(t.messages))
  }

  lemma GrowFolds(env: Env, l: Life, f: Frame, isUp: bool)
    requires Folded(env, l, isUp)
    ensures Folded(env, Grow(env, l, f), isUp)
  {
    var t, a, port := l.Trail(isUp), Absorb(env, l.conn, f), l.conn.server.port;
    AbsorbSides(env, l.conn, f);
    if a.isUp == isUp {
      var from := CarryAll(env, port, NOTHING, T.Apps(t.kinds));
      AbsorbCarries(env, l.conn, f, from);
      ContinuesTwice(env, port, NOTHING, T.Apps(t.kinds), l.conn.Side(isUp).tail, t.dropped, FieldsOf(t.messages),
                     T.Apps(a.kinds), a.conn.Side(isUp).tail, a.dropped, FieldsOf(a.messages));
      T.AppsAppend(t.kinds, a.kinds);
      FieldsOfAppend(t.messages, a.messages);
    }
  }

  // A direction's tail, its messages' fields and its dropped bytes are the fold of its
  // application plaintexts, in order, by the dissector of the server's port.
  lemma {:induction false} TailsFoldPlaintexts(env: Env, client: Endpoint, server: Endpoint, frames: seq<Frame>,
                                               isUp: bool)
    ensures Folded(env, Live(env, client, server, frames), isUp)
    decreases |frames|
  {
    if frames != [] {
      TailsFoldPlaintexts(env, client, server, frames[..|frames| - 1], isUp);
      GrowFolds(env, Live(env, client, server, frames[..|frames| - 1]), frames[|frames| - 1], isUp);
    }
  }

  // ----- conservation -----

  ghost predicate Registered(env: Env, port: nat) {
    forall buf :: !env.dissect(port, buf).NoDissector?
  }

  ghost predicate IsSuffix(t: Bytes, s: Bytes) {
    |t| <= |s| && t == s[|s| - |t|..]
  }

  // What the tail, the consumed and the dropped bytes must add up to, of all plaintext so far.
  ghost predicate Accounted(env: Env, consumed: Bytes, dropped: nat, tail: Bytes, all: Bytes) {
    && |consumed| + dropped + |tail| == |all|
    && IsSuffix(tail, all)
    && |tail| <= env.maxTail
    && (dropped == 0 ==> consumed + tail == all)
  }

  ghost predicate Conserved(env: Env, c: Carried, all: Bytes) {
    Accounted(env, c.consumed, c.dropped, c.tail, all)
  }

  lemma CarryOneConserves(env: Env, port: nat, c: Carried, plaintext: Bytes, all: Bytes)
    requires Registered(env, port) && Conserved(env, c, all)
    ensures Conserved(env, CarryOne(env, port, c, plaintext), all + plaintext)
  {
    var buf := c.tail + plaintext;
    assert !env.dissect(port, buf).NoDissector?;
    SplitConserves(c, plaintext, all, Consumed(env, port, buf), env.maxTail);
  }

  lemma SplitConserves(c: Carried, plaintext: Bytes, all: Bytes, used: Bytes, max: nat)
    requires |c.consumed| + c.dropped + |c.tail| == |all| && IsSuffix(c.tail, all)
    requires c.dropped == 0 ==> c.consumed + c.tail == all
    requires used <= c.tail + plaintext
    ensures var left := (c.tail + plaintext)[|used|..];
            var kept := Last(left, max);
            && |c.consumed + used| + (c.dropped + |left| - |kept|) + |kept| == |all + plaintext|
            && IsSuffix(kept, all + plaintext) && |kept| <= max
            && (c.dropped + |left| - |kept| == 0 ==> c.consumed + used + kept == all + plaintext)
  {
    var left := (c.tail + plaintext)[|used|..];
    SuffixGrows(c.tail, all, plaintext);
    SuffixOfSuffix(c.tail + plaintext, all + plaintext, |used|);
    if |left| > max {
      SuffixOfSuffix(left, all + plaintext, |left| - max);
    } else if c.dropped == 0 {
      Regroup(c.consumed, c.tail, plaintext, used, left);
    }
  }

  lemma SuffixGrows(t: Bytes, s: Bytes, p: Bytes)
    requires IsSuffix(t, s)
    ensures IsSuffix(t + p, s + p)
  {
  }

  lemma SuffixOfSuffix(t: Bytes, s: Bytes, n: nat)
    requires IsSuffix(t, s) && n <= |t|
    ensures IsSuffix(t[n..], s)
  {
  }

  lemma Regroup(consumed: Bytes, tail: Bytes, plaintext: Bytes, used: Bytes, left: Bytes)
    requires used <= tail + plaintext && left == (tail + plaintext)[|used|..]
    ensures consumed + used + left == consumed + tail + plaintext
  {
    assert used + left == tail + plaintext;
    Assoc(consumed, used, left);
    Assoc(consumed, tail, plaintext);
  }

  // For a registered port: consumed bytes, dropped bytes and the tail account for every byte of
  // application plaintext; the tail is the most recent of them and within the cap; and with
  // nothing dropped, everything consumed followed by the tail is exactly the plaintext.
  lemma {:induction false} PlaintextIsConserved(env: Env, port: nat, c: Carried, plaintexts: seq<Bytes>, all: Bytes)
    requires Registered(env, port) && Conserved(env, c, all)
    ensures Conserved(env, CarryAll(env, port, c, plaintexts), all + Flatten(plaintexts))
    decreases |plaintexts|
  {
    if plaintexts == [] {
      assert all + [] == all;
    } else {
      CarryOneConserves(env, port, c, plaintexts[0], all);
      PlaintextIsConserved(env, port, CarryOne(env, port, c, plaintexts[0]), plaintexts[1..], all + plaintexts[0]);
      Assoc(all, plaintexts[0], Flatten(plaintexts[1..]));
    }
  }

  lemma {:induction false} TrailPayloads(env: Env, client: Endpoint, server: Endpoint, frames: seq<Frame>, isUp: bool)
    ensures var t := Live(env, client, server, frames).Trail(isUp); T.Payloads(t.messages) == T.Apps(t.kinds)
    decreases |frames|
  {
    if frames != [] {
      var l, f := Live(env, client, server, frames[..|frames| - 1]), frames[|frames| - 1];
      TrailPayloads(env, client, server, frames[..|frames| - 1], isUp);
      var a := Absorb(env, l.conn, f);
      T.AbsorbPayloads(env, l.conn, f);
      T.PayloadsAppend(l.Trail(isUp).messages, a.messages);
      T.AppsAppend(l.Trail(isUp).kinds, a.kinds);
    }
  }

  // All that the dissector has taken off the buffers these plaintexts led to.
  function ConsumedOf(env: Env, port: nat, plaintexts: seq<Bytes>): Bytes {
    CarryAll(env, port, NOTHING, plaintexts).consumed
  }

  // For a whole connection: in each direction the bytes consumed, the bytes dropped and the tail
  // account for every byte of the messages' plaintexts, and with nothing dropped the consumed
  // bytes followed by the tail are exactly those plaintexts.
  lemma ConnectionConservesPlaintext(env: Env, client: Endpoint, server: Endpoint, frames: seq<Frame>, isUp: bool)
    requires Registered(env, server.port)
    ensures var l := Live(env, client, server, frames);
            var plaintexts := T.Payloads(l.Trail(isUp).messages);
            var consumed := ConsumedOf(env, server.port, plaintexts);
            Accounted(env, consumed, l.Trail(isUp).dropped, l.conn.Side(isUp).tail, Flatten(plaintexts))
  {
    var l := Live(env, client, server, frames);
    var plaintexts := T.Apps(l.Trail(isUp).kinds);
    DirectionsAreIndependent(env, client, server, frames, isUp);
    TailsFoldPlaintexts(env, client, server, frames, isUp);
    TrailPayloads(env, client, server, frames, isUp);
    PlaintextIsConserved(env, server.port, NOTHING, plaintexts, []);
    assert [] + Flatten(plaintexts) == Flatten(plaintexts);
  }

  // ----- self-delimited messages -----

  // The dissector reports and consumes exactly the whole self-delimited messages of its buffer.
  ghost predicate Delimits(env: Env, port: nat, one: Bytes -> Item<(string, FieldValue)>) {
    && Delimited(one)
    && forall buf :: DissectsBy(env, port, one, buf)
  }

  ghost predicate DissectsBy(env: Env, port: nat, one: Bytes -> Item<(string, FieldValue)>, buf: Bytes) {
    var d := env.dissect(port, buf);
    d.Dissected? && d.fields.entries == Parse(one, buf).items && d.consumed == Parse(one, buf).used
  }

  function EntriesOf(fs: seq<FrameFields>): seq<(string, FieldValue)>
    decreases |fs|
  {
    if fs == [] then [] else EntriesOf(fs[..|fs| - 1]) + fs[|fs| - 1].entries
  }

  lemma CarryOneFeeds(env: Env, port: nat, one: Bytes -> Item<(string, FieldValue)>, c: Carried, last: Bytes)
    requires DissectsBy(env, port, one, c.tail + last) && CarryOne(env, port, c, last).dropped == c.dropped
    ensures var d := CarryOne(env, port, c, last);
            var r := Parse(one, c.tail + last);
            EntriesOf(d.fields) == EntriesOf(c.fields) + r.items && d.tail == (c.tail + last)[r.used..]
  {
    var d := CarryOne(env, port, c, last);
    assert d.fields[..|d.fields| - 1] == c.fields;
  }

  // ----- when nothing is dropped -----

  // What the dissector would have left over without a cap.
  function Unread(env: Env, port: nat, plaintexts: seq<Bytes>): Bytes
    decreases |plaintexts|
  {
    if plaintexts == [] then []
    else
      var buf := Unread(env, port, plaintexts[..|plaintexts| - 1]) + plaintexts[|plaintexts| - 1];
      buf[|Consumed(env, port, buf)|..]
  }

  // After none of the records does it leave more than the cap.
  predicate NeverOverflows(env: Env, port: nat, plaintexts: seq<Bytes>)
    decreases |plaintexts|
  {
    |Unread(env, port, plaintexts)| <= env.maxTail
    && (plaintexts != [] ==> NeverOverflows(env, port, plaintexts[..|plaintexts| - 1]))
  }

  lemma CarrySnoc(env: Env, port: nat, plaintexts: seq<Bytes>)
    requires plaintexts != []
    ensures CarryAll(env, port, NOTHING, plaintexts)
         == CarryOne(env, port, CarryAll(env, port, NOTHING, plaintexts[..|plaintexts| - 1]),
                     plaintexts[|plaintexts| - 1])
  {
    var init, last := plaintexts[..|plaintexts| - 1], plaintexts[|plaintexts| - 1];
    assert plaintexts == init + [last];
    CarryAppend(env, port, NOTHING, init, [last]);
    var c := CarryAll(env, port, NOTHING, init);
    assert CarryAll(env, port, c, [last]) == CarryAll(env, port, CarryOne(env, port, c, last), []);
  }

  // For a registered port nothing is dropped exactly when what the dissector leaves never exceeds
  // the cap; everything left is then the tail.
  lemma {:induction false} NothingDroppedExactly(env: Env, port: nat, plaintexts: seq<Bytes>)
    requires Registered(env, port)
    ensures var c := CarryAll(env, port, NOTHING, plaintexts);
            && (c.dropped == 0 <==> NeverOverflows(env, port, plaintexts))
            && (c.dropped == 0 ==> c.tail == Unread(env, port, plaintexts))
    decreases |plaintexts|
  {
    if plaintexts != [] {
      var init, last := plaintexts[..|plaintexts| - 1], plaintexts[|plaintexts| - 1];
      NothingDroppedExactly(env, port, init);
      CarrySnoc(env, port, plaintexts);
      var c := CarryAll(env, port, NOTHING, init);
      var left := (c.tail + last)[|Consumed(env, port, c.tail + last)|..];
      assert !env.dissect(port, c.tail + last).NoDissector?;
      assert |left| <= env.maxTail ==> Last(left, env.maxTail) == left;
    }
  }

  // The same of a connection's direction and its messages' plaintexts.
  lemma ConnectionDropsExactly(env: Env, client: Endpoint, server: Endpoint, frames: seq<Frame>, isUp: bool)
    requires Registered(env, server.port)
    ensures var l := Live(env, client, server, frames);
            var plaintexts := T.Payloads(l.Trail(isUp).messages);
            && (l.Trail(isUp).dropped == 0 <==> NeverOverflows(env, server.port, plaintexts))
            && (l.Trail(isUp).dropped == 0 ==> l.conn.Side(isUp).tail == Unread(env, server.port, plaintexts))
  {
    DirectionsAreIndependent(env, client, server, frames, isUp);
    TailsFoldPlaintexts(env, client, server, frames, isUp);
    TrailPayloads(env, client, server, frames, isUp);
    NothingDroppedExactly(env, server.port, T.Payloads(Live(env, client, server, frames).Trail(isUp).messages));
  }

  // A dissector of self-delimited messages leaves the incomplete one at the end.
  lemma {:induction false} UnreadIsRemainder(env: Env, port: nat, one: Bytes -> Item<(string, FieldValue)>,
                                             plaintexts: seq<Bytes>)
    requires Delimits(env, port, one)
    ensures Unread(env, port, plaintexts) == Feed(one, plaintexts).tail
    decreases |plaintexts|
  {
    if plaintexts != [] {
      var init, last := plaintexts[..|plaintexts| - 1], plaintexts[|plaintexts| - 1];
      UnreadIsRemainder(env, port, one, init);
      assert DissectsBy(env, port, one, Unread(env, port, init) + last);
    }
  }

  // After none of the records is the front of an incomplete message longer than the cap.
  predicate FitsTail(env: Env, one: Bytes -> Item<(string, FieldValue)>, plaintexts: seq<Bytes>)
    decreases |plaintexts|
  {
    Remainder(one, Flatten(plaintexts)) <= env.maxTail
    && (plaintexts != [] ==> FitsTail(env, one, plaintexts[..|plaintexts| - 1]))
  }

  function Remainder(one: Bytes -> Item<(string, FieldValue)>, s: Bytes): nat {
    |s| - Parse(one, s).used
  }

  lemma {:induction false} FitsIsNoOverflow(env: Env, port: nat, one: Bytes -> Item<(string, FieldValue)>,
                                            plaintexts: seq<Bytes>)
    requires Delimits(env, port, one)
    ensures NeverOverflows(env, port, plaintexts) <==> FitsTail(env, one, plaintexts)
    decreases |plaintexts|
  {
    UnreadIsRemainder(env, port, one, plaintexts);
    ChunkingIsIrrelevant(one, plaintexts);
    assert |Unread(env, port, plaintexts)| == Remainder(one, Flatten(plaintexts));
    if plaintexts != [] {
      FitsIsNoOverflow(env, port, one, plaintexts[..|plaintexts| - 1]);
    }
  }

  lemma FitsExactly(env: Env, port: nat, one: Bytes -> Item<(string, FieldValue)>, plaintexts: seq<Bytes>)
    requires Delimits(env, port, one)
    ensures CarryAll(env, port, NOTHING, plaintexts).dropped == 0 <==> FitsTail(env, one, plaintexts)
  {
    forall buf
      ensures !env.dissect(port, buf).NoDissector?
    {
      assert DissectsBy(env, port, one, buf);
    }
    NothingDroppedExactly(env, port, plaintexts);
    FitsIsNoOverflow(env, port, one, plaintexts);
  }

  // With nothing dropped, the fold is the chunk-by-chunk parse of the plaintext stream.
  lemma {:induction false} FoldIsFeed(env: Env, port: nat, one: Bytes -> Item<(string, FieldValue)>,
                                      plaintexts: seq<Bytes>)
    requires Delimits(env, port, one) && CarryAll(env, port, NOTHING, plaintexts).dropped == 0
    ensures var c := CarryAll(env, port, NOTHING, plaintexts);
            Fed(EntriesOf(c.fields), c.tail) == Feed(one, plaintexts)
    decreases |plaintexts|
  {
    if plaintexts != [] {
      var init, last := plaintexts[..|plaintexts| - 1], plaintexts[|plaintexts| - 1];
      CarrySnoc(env, port, plaintexts);
      var c := CarryAll(env, port, NOTHING, init);
      assert DissectsBy(env, port, one, c.tail + last);
      FoldIsFeed(env, port, one, init);
      CarryOneFeeds(env, port, one, c, last);
    }
  }

  // However application data is split into records, the messages dissected from it are those
  // of the undivided plaintext, and so is the tail.
  lemma RecordSplitIsInvisible(env: Env, port: nat, one: Bytes -> Item<(string, FieldValue)>, plaintexts: seq<Bytes>)
    requires Delimits(env, port, one) && FitsTail(env, one, plaintexts)
    ensures var c := CarryAll(env, port, NOTHING, plaintexts);
            var whole := Flatten(plaintexts);
            && c.dropped == 0
            && EntriesOf(c.fields) == Parse(one, whole).items
            && c.tail == whole[Parse(one, whole).used..]
  {
    FitsExactly(env, port, one, plaintexts);
    FoldIsFeed(env, port, one, plaintexts);
    ChunkingIsIrrelevant(one, plaintexts);
  }

  lemma FoldedDissects(env: Env, l: Life, isUp: bool, one: Bytes -> Item<(string, FieldValue)>)
    requires Folded(env, l, isUp) && Delimits(env, l.conn.server.port, one)
    requires FitsTail(env, one, T.Apps(l.Trail(isUp).kinds))
    ensures l.Trail(isUp).dropped == 0
    ensures EntriesOf(FieldsOf(l.Trail(isUp).messages)) == Parse(one, Flatten(T.Apps(l.Trail(isUp).kinds))).items
  {
    var t := l.Trail(isUp);
    RecordSplitIsInvisible(env, l.conn.server.port, one, T.Apps(t.kinds));
    assert [] + FieldsOf(t.messages) == FieldsOf(t.messages);
  }

  // For a whole connection: the entries of a direction's messages are those of its plaintext stream.
  lemma ConnectionDissectsStream(env: Env, client: Endpoint, server: Endpoint, frames: seq<Frame>, isUp: bool,
                                 one: Bytes -> Item<(string, FieldValue)>)
    requires Delimits(env, server.port, one)
    requires FitsTail(env, one, T.Apps(Live(env, client, server, frames).Trail(isUp).kinds))
    ensures var t := Live(env, client, server, frames).Trail(isUp);
            t.dropped == 0 && EntriesOf(FieldsOf(t.messages)) == Parse(one, Flatten(T.Apps(t.kinds))).items
  {
    TailsFoldPlaintexts(env, client, server, frames, isUp);
    DirectionsAreIndependent(env, client, server, frames, isUp);
    FoldedDissects(env, Live(env, client, server, frames), isUp, one);
  }
}
