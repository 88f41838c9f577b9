// From frames to plaintext: what a capture of an honest connection reveals is exactly what
// its endpoints protected.
module EndToEnd {
  import opened Common
  import opened Keylogs
  import opened RecordProtection
  import opened Framing
  import opened Pipeline
  import opened ConnectionRuns
  import D = Decryption
  import DR = DecryptionRuns
  import I = IdealDecryption
  import T = TableRuns

  // A record as the pipeline handles it: its direction and the key log in force.
  datatype Seen = Seen(isUp: bool, record: Bytes, keylog: Keylog)

  ghost predicate AllRecords(seens: seq<Seen>) {
    forall s :: s in seens ==> IsRecord(s.record)
  }

  datatype Classified = Classified(tls: Option<D.Connection>, kinds: seq<Kind>)

  function ClassifyAll(c: Crypto, tls: Option<D.Connection>, seens: seq<Seen>): (r: Classified)
    requires AllRecords(seens)
    ensures |r.kinds| == |seens|
    decreases |seens|
  {
    if seens == [] then Classified(tls, [])
    else
      assert IsRecord(seens[0].record);
      var (tls1, kind) := Classify(c, tls, seens[0].isUp, seens[0].record, seens[0].keylog);
      var rest := ClassifyAll(c, tls1, seens[1..]);
      Classified(rest.tls, [kind] + rest.kinds)
  }

  lemma {:induction false} ClassifyAppend(c: Crypto, tls: Option<D.Connection>, p: seq<Seen>, q: seq<Seen>)
    requires AllRecords(p) && AllRecords(q)
    ensures AllRecords(p + q)
    ensures var a := ClassifyAll(c, tls, p);
            var b := ClassifyAll(c, a.tls, q);
            ClassifyAll(c, tls, p + q) == Classified(b.tls, a.kinds + b.kinds)
    decreases |p|
  {
    if p == [] {
      assert p + q == q;
    } else {
      assert IsRecord(p[0].record);
      var (tls1, kind) := Classify(c, tls, p[0].isUp, p[0].record, p[0].keylog);
      assert (p + q)[1..] == p[1..] + q && (p + q)[0] == p[0];
      ClassifyAppend(c, tls1, p[1..], q);
      var a := ClassifyAll(c, tls1, p[1..]);
      Assoc([kind], a.kinds, ClassifyAll(c, a.tls, q).kinds);
    }
  }

  // The application plaintexts of one direction among classified records.
  function AppsIn(seens: seq<Seen>, kinds: seq<Kind>, isUp: bool): seq<Bytes>
    requires |seens| == |kinds|
  {
    if seens == [] then []
    else
      (if seens[0].isUp == isUp && IsApplication(kinds[0]) then [kinds[0].record.plaintext] else [])
      + AppsIn(seens[1..], kinds[1..], isUp)
  }

  lemma {:induction false} AppsInAppend(p: seq<Seen>, ks: seq<Kind>, q: seq<Seen>, ls: seq<Kind>, isUp: bool)
    requires |p| == |ks| && |q| == |ls|
    ensures AppsIn(p + q, ks + ls, isUp) == AppsIn(p, ks, isUp) + AppsIn(q, ls, isUp)
  {
    if p == [] {
      assert p + q == q && ks + ls == ls;
    } else {
      AppsInAppend(p[1..], ks[1..], q, ls, isUp);
      assert (p + q)[1..] == p[1..] + q && (ks + ls)[1..] == ks[1..] + ls;
      assert (p + q)[0] == p[0] && (ks + ls)[0] == ks[0];
      var first := if p[0].isUp == isUp && IsApplication(ks[0]) then [ks[0].record.plaintext] else [];
      Assoc(first, AppsIn(p[1..], ks[1..], isUp), AppsIn(q, ls, isUp));
    }
  }

  // ----- the pipeline classifies what it sees, in order -----

  function SeenIn(records: seq<Bytes>, isUp: bool, n: nat, f: Frame): (s: seq<Seen>)
    ensures |s| == |records| && forall i :: 0 <= i < |s| ==> s[i].record == records[i] && s[i].isUp == isUp
  {
    if records == [] then [] else [Seen(isUp, records[0], f.keylogs(n))] + SeenIn(records[1..], isUp, n + 1, f)
  }

  lemma {:induction false} HandleAllClassifies(env: Env, conn: Conn, isUp: bool, records: seq<Bytes>, n: nat, f: Frame)
    requires forall r :: r in records ==> IsRecord(r)
    ensures AllRecords(SeenIn(records, isUp, n, f))
    ensures var b := HandleAll(env, conn, isUp, records, n, f);
            Classified(b.conn.tls, b.kinds) == ClassifyAll(env.crypto, conn.tls, SeenIn(records, isUp, n, f))
    decreases |records|
  {
    var seens := SeenIn(records, isUp, n, f);
    assert forall s :: s in seens ==> s.record in records;
    if records != [] {
      assert IsRecord(records[0]);
      var h := Handle(env, conn, isUp, records[0], f.keylogs(n), f.timestamp);
      HandleAllClassifies(env, h.conn, isUp, records[1..], n + 1, f);
      assert seens[1..] == SeenIn(records[1..], isUp, n + 1, f);
    }
  }

  lemma {:induction false} OneDirection(records: seq<Bytes>, isUp: bool, n: nat, f: Frame, ks: seq<Kind>, dir: bool)
    requires |ks| == |records|
    ensures AppsIn(SeenIn(records, isUp, n, f), ks, dir) == if dir == isUp then T.Apps(ks) else []
    decreases |records|
  {
    if records != [] {
      OneDirection(records[1..], isUp, n + 1, f, ks[1..], dir);
      assert SeenIn(records, isUp, n, f)[1..] == SeenIn(records[1..], isUp, n + 1, f);
    }
  }

  // Every record of a connection's life, in the order handled.
  function AllSeen(env: Env, client: Endpoint, server: Endpoint, frames: seq<Frame>): (r: seq<Seen>)
    ensures AllRecords(r)
    decreases |frames|
  {
    if frames == [] then []
    else
      var f := frames[|frames| - 1];
      var conn := Live(env, client, server, frames[..|frames| - 1]).conn;
      var a := Absorb(env, conn, f);
      AbsorbClassifies(env, conn, f);
      AllSeen(env, client, server, frames[..|frames| - 1]) + SeenIn(a.records, a.isUp, 0, f)
  }

  lemma AbsorbClassifies(env: Env, conn: Conn, f: Frame)
    ensures var a := Absorb(env, conn, f);
            var seens := SeenIn(a.records, a.isUp, 0, f);
            && AllRecords(seens) && |a.kinds| == |a.records|
            && Classified(a.conn.tls, a.kinds) == ClassifyAll(env.crypto, conn.tls, seens)
  {
    var isUp := f.src == conn.client;
    var (half, gap) := Receive(env.limits, conn.Side(isUp), f);
    var conn1 := conn.WithSide(isUp, half).(rst := conn.rst || f.flags.rst);
    RecordsPartition(Queued(conn1, isUp));
    HandleAllClassifies(env, conn1.WithSide(isUp, Settle(conn1.Side(isUp))), isUp, Records(Queued(conn1, isUp)), 0, f);
  }

  // A direction's messages carry the application plaintexts among the records it yielded.
  ghost predicate Told(env: Env, l: Life, seens: seq<Seen>) {
    && AllRecords(seens)
    && var k := ClassifyAll(env.crypto, None, seens);
       l.conn.tls == k.tls && forall isUp :: T.Payloads(l.Trail(isUp).messages) == AppsIn(seens, k.kinds, isUp)
  }

  lemma GrowTells(env: Env, l: Life, f: Frame, seens: seq<Seen>)
    requires Told(env, l, seens)
    ensures var a := Absorb(env, l.conn, f);
            Told(env, Grow(env, l, f), seens + SeenIn(a.records, a.isUp, 0, f))
  {
    var a := Absorb(env, l.conn, f);
    var more := SeenIn(a.records, a.isUp, 0, f);
    AbsorbClassifies(env, l.conn, f);
    T.AbsorbPayloads(env, l.conn, f);
    ClassifyAppend(env.crypto, None, seens, more);
    var k := ClassifyAll(env.crypto, None, seens);
    forall isUp
      ensures T.Payloads(Grow(env, l, f).Trail(isUp).messages) == AppsIn(seens + more, k.kinds + a.kinds, isUp)
    {
      AppsInAppend(seens, k.kinds, more, a.kinds, isUp);
      OneDirection(a.records, a.isUp, 0, f, a.kinds, isUp);
      T.PayloadsAppend(l.Trail(isUp).messages, a.messages);
    }
  }

  lemma {:induction false} LifeTells(env: Env, client: Endpoint, server: Endpoint, frames: seq<Frame>)
    ensures Told(env, Live(env, client, server, frames), AllSeen(env, client, server, frames))
    decreases |frames|
  {
    if frames != [] {
      var init := frames[..|frames| - 1];
      LifeTells(env, client, server, init);
      GrowTells(env, Live(env, client, server, init), frames[|frames| - 1], AllSeen(env, client, server, init));
    }
  }

  // ----- classification is a decryption run -----

  // The decryption event a record amounts to once the client's hello is known.
  function EventOf(st: D.Connection, s: Seen, o: DR.Origin): Option<DR.Event>
    requires |s.record| >= HEADER
  {
    var outer, body := s.record[0], s.record[HEADER..];
    var random := D.HelloRandom(body, D.SERVER_HELLO);
    if outer == CHANGE_CIPHER_SPEC then None
    else if !s.isUp && random.Some? && st.serverRandom.None? then Some(DR.Learn(random.value))
    else Some(DR.Present(s.isUp, outer, body, s.keylog, o))
  }

  // The events of the records after the client's hello; `origins` tells where each came from.
  function Events(c: Crypto, random: Bytes, seens: seq<Seen>, origins: nat -> DR.Origin): seq<DR.Event>
    requires AllRecords(seens)
    decreases |seens|
  {
    if seens == [] then []
    else
      var n := |seens| - 1;
      assert IsRecord(seens[n].record);
      var before := Events(c, random, seens[..n], origins);
      var e := EventOf(DR.Run(c, D.NewConnection(random), before).st, seens[n], origins(n));
      if e.None? then before else before + [e.value]
  }

  // The application plaintexts a direction's endpoint protected, among these events.
  function SentApps(evs: seq<DR.Event>, isUp: bool): seq<Bytes>
    decreases |evs|
  {
    if evs == [] then []
    else SentApps(evs[..|evs| - 1], isUp) + SentApp(evs[|evs| - 1], isUp)
  }

  function SentApp(e: DR.Event, isUp: bool): seq<Bytes> {
    if e.Present? && e.isUp == isUp && !e.origin.Unsealed? && I.Meant(e).ctype == APPLICATION_DATA
    then [I.Meant(e).plaintext] else []
  }

  lemma OneRecord(c: Crypto, st: D.Connection, s: Seen, o: DR.Origin, isUp: bool)
    requires IsRecord(s.record)
    ensures var (tls, kind) := Classify(c, Some(st), s.isUp, s.record, s.keylog);
            var e := EventOf(st, s, o);
            var apps := AppsIn([s], [kind], isUp);
            if e.None? then tls == Some(st) && apps == []
            else if e.value.Learn? then tls == Some(D.SetServerRandom(st, e.value.random).0) && apps == []
            else
              var (st1, r) := D.Decrypt(c, st, s.keylog, s.isUp, e.value.outer, e.value.body);
              tls == Some(st1) && (I.Follows(e.value, r) ==> apps == SentApp(e.value, isUp))
  {
    assert [s][1..] == [];
  }

  lemma ClassifySnoc(c: Crypto, tls: Option<D.Connection>, seens: seq<Seen>)
    requires AllRecords(seens) && seens != []
    ensures AllRecords(seens[..|seens| - 1]) && IsRecord(seens[|seens| - 1].record)
    ensures var s := seens[|seens| - 1];
            var before := ClassifyAll(c, tls, seens[..|seens| - 1]);
            var (tls1, kind) := Classify(c, before.tls, s.isUp, s.record, s.keylog);
            ClassifyAll(c, tls, seens) == Classified(tls1, before.kinds + [kind])
  {
    var init, s := seens[..|seens| - 1], seens[|seens| - 1];
    assert seens == init + [s];
    assert IsRecord(s.record);
    ClassifyAppend(c, tls, init, [s]);
    assert [s][1..] == [];
  }

  ghost predicate ReadsSent(c: Crypto, random: Bytes, seens: seq<Seen>, evs: seq<DR.Event>, isUp: bool)
    requires AllRecords(seens)
  {
    var k := ClassifyAll(c, Some(D.NewConnection(random)), seens);
    k.tls == Some(DR.Run(c, D.NewConnection(random), evs).st) && AppsIn(seens, k.kinds, isUp) == SentApps(evs, isUp)
  }

  lemma ReadsOneMore(c: Crypto, random: Bytes, seens: seq<Seen>, before: seq<DR.Event>, o: DR.Origin, isUp: bool)
    requires AllRecords(seens) && seens != [] && AllRecords(seens[..|seens| - 1]) && IsRecord(seens[|seens| - 1].record)
    requires ReadsSent(c, random, seens[..|seens| - 1], before, isUp)
    requires var e := EventOf(DR.Run(c, D.NewConnection(random), before).st, seens[|seens| - 1], o);
             e.Some? ==> I.Follows(e.value, DR.Run(c, D.NewConnection(random), before + [e.value]).outcomes[|before|])
    ensures var e := EventOf(DR.Run(c, D.NewConnection(random), before).st, seens[|seens| - 1], o);
            ReadsSent(c, random, seens, if e.None? then before else before + [e.value], isUp)
  {
    var st := D.NewConnection(random);
    var init, s := seens[..|seens| - 1], seens[|seens| - 1];
    var now := DR.Run(c, st, before).st;
    var e := EventOf(now, s, o);
    ClassifySnoc(c, Some(st), seens);
    OneRecord(c, now, s, o, isUp);
    assert seens == init + [s];
    AppsInAppend(init, ClassifyAll(c, Some(st), init).kinds, [s],
                 [Classify(c, Some(now), s.isUp, s.record, s.keylog).1], isUp);
    if e.Some? {
      assert (before + [e.value])[..|before|] == before;
    }
  }

  lemma LastFollows(c: Crypto, seals: iset<I.Seal>, full: Keylog, random: Bytes, evs: seq<DR.Event>)
    requires I.GenuineRun(c, seals, full, D.NewConnection(random), evs) && I.InOrder(evs, random) && evs != []
    ensures I.Follows(evs[|evs| - 1], DR.Run(c, D.NewConnection(random), evs).outcomes[|evs| - 1])
    ensures I.GenuineRun(c, seals, full, D.NewConnection(random), evs[..|evs| - 1])
            && I.InOrder(evs[..|evs| - 1], random)
  {
    I.StaysInStep(c, seals, full, random, evs);
    I.GenuinePrefix(c, seals, full, D.NewConnection(random), evs);
    I.InOrderPrefix(evs, random);
  }

  // Under an ideal AEAD and in-order senders, the plaintexts read are those sent.
  lemma {:induction false} ReadsWhatWasSent(c: Crypto, seals: iset<I.Seal>, full: Keylog, random: Bytes,
                                            seens: seq<Seen>, origins: nat -> DR.Origin, isUp: bool)
    requires AllRecords(seens)
    requires var evs := Events(c, random, seens, origins);
             I.GenuineRun(c, seals, full, D.NewConnection(random), evs) && I.InOrder(evs, random)
    ensures ReadsSent(c, random, seens, Events(c, random, seens, origins), isUp)
    decreases |seens|
  {
    if seens != [] {
      var n := |seens| - 1;
      assert IsRecord(seens[n].record);
      var evs, before := Events(c, random, seens, origins), Events(c, random, seens[..n], origins);
      if evs != before {
        assert evs[..|evs| - 1] == before;
        LastFollows(c, seals, full, random, evs);
      }
      ReadsWhatWasSent(c, seals, full, random, seens[..n], origins, isUp);
      ReadsOneMore(c, random, seens, before, origins(n), isUp);
    }
  }

  // The first record of the connection is the client's hello.
  predicate StartsWithHello(seens: seq<Seen>, random: Bytes) {
    && seens != [] && seens[0].isUp && |seens[0].record| >= HEADER
    && seens[0].record[0] != CHANGE_CIPHER_SPEC
    && D.HelloRandom(seens[0].record[HEADER..], D.CLIENT_HELLO) == Some(random)
  }

  // A capture that starts with the connection, of senders that protect their records in order
  // and log their secrets: the messages emitted for a direction carry, in order, exactly the
  // application plaintexts its endpoint protected in the records extracted.
  lemma CaptureRevealsPlaintext(env: Env, seals: iset<I.Seal>, full: Keylog, client: Endpoint, server: Endpoint,
                                frames: seq<Frame>, random: Bytes, origins: nat -> DR.Origin, isUp: bool)
    requires StartsWithHello(AllSeen(env, client, server, frames), random)
    requires var evs := Events(env.crypto, random, AllSeen(env, client, server, frames)[1..], origins);
             I.GenuineRun(env.crypto, seals, full, D.NewConnection(random), evs) && I.InOrder(evs, random)
    ensures T.Payloads(Live(env, client, server, frames).Trail(isUp).messages)
         == SentApps(Events(env.crypto, random, AllSeen(env, client, server, frames)[1..], origins), isUp)
  {
    var seens := AllSeen(env, client, server, frames);
    LifeTells(env, client, server, frames);
    ReadsWhatWasSent(env.crypto, seals, full, random, seens[1..], origins, isUp);
    var k := ClassifyAll(env.crypto, None, seens);
    assert Classify(env.crypto, None, true, seens[0].record, seens[0].keylog)
        == (Some(D.NewConnection(random)), PlaintextHandshake);
    assert k.kinds[1..] == ClassifyAll(env.crypto, Some(D.NewConnection(random)), seens[1..]).kinds;
  }
}
