// From the streams two endpoints send to the messages of the table run: whatever other
// connections are captured, and however the segments of this one are cut, ordered, repeated or
// lost, what is emitted is what its endpoints protected in the records captured whole.
module Sessions {
  import opened Common
  import opened Keylogs
  import opened RecordProtection
  import opened Framing
  import opened Pipeline
  import opened ConnectionRuns
  import opened EndToEnd
  import opened Incarnations
  import R = Reassembly
  import D = Decryption
  import DR = DecryptionRuns
  import I = IdealDecryption
  import S = Sealing
  import T = TableRuns

  // ----- what the endpoints send -----

  // A record as sent, and how it was protected.
  datatype SentRecord = SentRecord(record: Bytes, origin: DR.Origin)

  // One connection: the client's hello, then what each endpoint sends.
  datatype Session = Session(hello: Bytes, clientRandom: Bytes, serverRandom: Bytes,
                             up: seq<SentRecord>, down: seq<SentRecord>)
  {
    function Dir(isUp: bool): seq<SentRecord> {
      if isUp then up else down
    }

    function All(isUp: bool): seq<SentRecord> {
      if isUp then [SentRecord(hello, DR.Unsealed)] + up else down
    }

    function Stream(isUp: bool): Bytes {
      Flatten(Bodies(All(isUp)))
    }
  }

  function Bodies(rs: seq<SentRecord>): (b: seq<Bytes>)
    ensures |b| == |rs| && forall i :: 0 <= i < |rs| ==> b[i] == rs[i].record
  {
    seq(|rs|, i requires 0 <= i < |rs| => rs[i].record)
  }

  predicate CountsFor(o: DR.Origin, v: D.Version) {
    match o
    case Unsealed => false
    case Sealed13(g, _, _, _, _, _) => v == D.Tls13(g)
    case Sealed12(_, _, _) => v.Tls12?
  }

  // How many of these records are of a generation, or of TLS 1.2.
  function CountIn(rs: seq<SentRecord>, v: D.Version): nat
    decreases |rs|
  {
    if rs == [] then 0
    else CountIn(rs[..|rs| - 1], v) + if CountsFor(rs[|rs| - 1].origin, v) then 1 else 0
  }

  // The decryption event that presenting a sent record is.
  function EventFor(r: SentRecord, isUp: bool, keylog: Keylog): DR.Event
    requires IsRecord(r.record)
  {
    DR.Present(isUp, r.record[0], r.record[HEADER..], keylog, r.origin)
  }

  // The application plaintexts protected in these records.
  function AppsSent(rs: seq<SentRecord>): seq<Bytes>
    decreases |rs|
  {
    if rs == [] then [] else AppsSent(rs[..|rs| - 1]) + AppSent(rs[|rs| - 1])
  }

  function AppSent(r: SentRecord): seq<Bytes> {
    match r.origin
    case Unsealed => []
    case Sealed13(_, _, _, content, ctype, _) => if ctype == S.TYPE_APPLICATION_DATA then [content] else []
    case Sealed12(_, _, content) => if |r.record| > 0 && r.record[0] == S.TYPE_APPLICATION_DATA then [content] else []
  }

  // A handshake record that holds a hello message.
  ghost predicate IsHello(record: Bytes, kind: Byte, random: Bytes) {
    && |record| >= HEADER && record[0] == S.TYPE_HANDSHAKE && |random| == 32
    && exists length, version, rest ::
         |length| == 3 && |version| == 2 && record[HEADER..] == D.HelloMessage(kind, length, version, random, rest)
  }

  lemma HelloIsRecognised(record: Bytes, kind: Byte, random: Bytes)
    requires IsHello(record, kind, random)
    ensures record[0] != CHANGE_CIPHER_SPEC && D.HelloRandom(record[HEADER..], kind) == Some(random)
  {
    var length, version, rest :|
      |length| == 3 && |version| == 2 && record[HEADER..] == D.HelloMessage(kind, length, version, random, rest);
    D.HelloRandomRoundTrip(kind, kind, length, version, random, rest);
  }

  // The i-th record of a direction is what its origin says, and is numbered in order.
  ghost predicate WellSent(c: Crypto, seals: iset<I.Seal>, full: Keylog, s: Session, isUp: bool, i: nat)
    requires i < |s.Dir(isUp)|
  {
    var r := s.Dir(isUp)[i];
    && IsRecord(r.record)
    && (r.record[0] == S.TYPE_CHANGE_CIPHER_SPEC ==> r.origin.Unsealed?)
    && I.Genuine(c, seals, full, s.clientRandom, Some(s.serverRandom), EventFor(r, isUp, map[]))
    && (!r.origin.Unsealed? ==> r.origin.index == CountIn(s.Dir(isUp)[..i], OriginVersion(r.origin)))
  }

  function OriginVersion(o: DR.Origin): D.Version
    requires !o.Unsealed?
  {
    if o.Sealed13? then D.Tls13(o.generation) else I.V12
  }

  ghost predicate HonestSession(c: Crypto, seals: iset<I.Seal>, full: Keylog, s: Session) {
    && I.Ideal(c, seals) && I.Separated(c, full, s.clientRandom)
    && IsRecord(s.hello) && IsHello(s.hello, S.TYPE_CLIENT_HELLO, s.clientRandom)
    && (s.down != [] ==> s.down[0].origin.Unsealed? && IsHello(s.down[0].record, S.TYPE_SERVER_HELLO, s.serverRandom))
    && forall isUp, i :: 0 <= i < |s.Dir(isUp)| ==> WellSent(c, seals, full, s, isUp, i)
  }

  // ----- what is seen of it -----

  // The records of one direction, in the order handled.
  function Of(seens: seq<Seen>, isUp: bool): seq<Bytes>
    decreases |seens|
  {
    if seens == [] then []
    else
      var n := |seens| - 1;
      Of(seens[..n], isUp) + if seens[n].isUp == isUp then [seens[n].record] else []
  }

  lemma {:induction false} OfAppend(p: seq<Seen>, q: seq<Seen>, isUp: bool)
    ensures Of(p + q, isUp) == Of(p, isUp) + Of(q, isUp)
    decreases |q|
  {
    if q == [] {
      assert p + q == p;
    } else {
      var n := |q| - 1;
      OfAppend(p, q[..n], isUp);
      assert (p + q)[..|p| + n] == p + q[..n] && (p + q)[|p| + n] == q[n];
    }
  }

  lemma {:induction false} OfOneDirection(seens: seq<Seen>, records: seq<Bytes>, dir: bool, isUp: bool)
    requires |seens| == |records|
    requires forall i :: 0 <= i < |seens| ==> seens[i].record == records[i] && seens[i].isUp == dir
    ensures Of(seens, isUp) == if dir == isUp then records else []
    decreases |seens|
  {
    if seens != [] {
      var n := |seens| - 1;
      OfOneDirection(seens[..n], records[..n], dir, isUp);
      assert records[..n] + [records[n]] == records;
    }
  }

  // The key log has every secret of the connection, and rebinds nothing.
  ghost predicate Serves(k: Keylog, full: Keylog, random: Bytes) {
    Agrees(k, full) && forall tag :: SecretFor(full, random, tag).Some? ==> SecretFor(k, random, tag).Some?
  }

  ghost predicate AllServed(seens: seq<Seen>, full: Keylog, random: Bytes) {
    forall s :: s in seens ==> Serves(s.keylog, full, random)
  }

  ghost predicate FramesServed(frames: seq<Frame>, full: Keylog, random: Bytes) {
    forall f, n: nat :: f in frames ==> Serves(f.keylogs(n), full, random)
  }

  lemma {:induction false} SeenInServed(records: seq<Bytes>, isUp: bool, n: nat, f: Frame, full: Keylog, random: Bytes)
    requires forall m: nat :: Serves(f.keylogs(m), full, random)
    ensures AllServed(SeenIn(records, isUp, n, f), full, random)
    decreases |records|
  {
    if records != [] {
      SeenInServed(records[1..], isUp, n + 1, f, full, random);
      assert Serves(f.keylogs(n), full, random);
    }
  }

  lemma {:induction false} LifeIsSeen(env: Env, client: Endpoint, server: Endpoint, frames: seq<Frame>,
                                      full: Keylog, random: Bytes)
    requires FramesServed(frames, full, random)
    ensures AllServed(AllSeen(env, client, server, frames), full, random)
    ensures forall isUp ::
              Of(AllSeen(env, client, server, frames), isUp) == Live(env, client, server, frames).Trail(isUp).records
    decreases |frames|
  {
    if frames != [] {
      var init, f := frames[..|frames| - 1], frames[|frames| - 1];
      var l := Live(env, client, server, init);
      var a := Absorb(env, l.conn, f);
      LifeIsSeen(env, client, server, init, full, random);
      assert f in frames;
      SeenInServed(a.records, a.isUp, 0, f, full, random);
      forall isUp
        ensures Of(AllSeen(env, client, server, frames), isUp) == Live(env, client, server, frames).Trail(isUp).records
      {
        OfAppend(AllSeen(env, client, server, init), SeenIn(a.records, a.isUp, 0, f), isUp);
        OfOneDirection(SeenIn(a.records, a.isUp, 0, f), a.records, a.isUp, isUp);
      }
    }
  }

  // ----- playing back a session -----

  // What is seen after the client's hello is, in each direction, the first records sent.
  ghost predicate Plays(s: Session, seens: seq<Seen>) {
    forall isUp :: Of(seens, isUp) <= Bodies(s.Dir(isUp))
  }

  // The origin of the n-th record seen.
  function OriginAt(s: Session, seens: seq<Seen>, n: nat): DR.Origin {
    if n >= |seens| then DR.Unsealed
    else
      var j := |Of(seens[..n], seens[n].isUp)|;
      if j < |s.Dir(seens[n].isUp)| then s.Dir(seens[n].isUp)[j].origin else DR.Unsealed
  }

  // No TLS 1.2 record of the client is handled before the server's hello.
  ghost predicate HelloBefore12(s: Session, seens: seq<Seen>) {
    forall n :: 0 <= n < |seens| && seens[n].isUp && OriginAt(s, seens, n).Sealed12? ==> Of(seens[..n], false) != []
  }

  lemma OfStep(seens: seq<Seen>, n: nat, isUp: bool)
    requires n < |seens|
    ensures Of(seens[..n + 1], isUp) == Of(seens[..n], isUp) + if seens[n].isUp == isUp then [seens[n].record] else []
    ensures Of(seens[..n + 1], isUp) <= Of(seens, isUp)
  {
    assert seens[..n + 1][..n] == seens[..n];
    assert seens[..n + 1] + seens[n + 1..] == seens;
    OfAppend(seens[..n + 1], seens[n + 1..], isUp);
  }

  // The records seen after the client's hello play the session back under complete key logs.
  ghost predicate PlaysBack(s: Session, seens: seq<Seen>, full: Keylog) {
    AllRecords(seens) && AllServed(seens, full, s.clientRandom) && Plays(s, seens) && HelloBefore12(s, seens)
  }

  // The n-th record seen is the next one its direction sent.
  lemma NextSent(s: Session, seens: seq<Seen>, n: nat)
    requires Plays(s, seens) && n < |seens|
    ensures var isUp := seens[n].isUp;
            var j := |Of(seens[..n], isUp)|;
            && j < |s.Dir(isUp)| && s.Dir(isUp)[j] == SentRecord(seens[n].record, OriginAt(s, seens, n))
            && |Of(seens[..n + 1], isUp)| == j + 1 && |Of(seens[..n + 1], !isUp)| == |Of(seens[..n], !isUp)|
  {
    var isUp := seens[n].isUp;
    var j := |Of(seens[..n], isUp)|;
    OfStep(seens, n, isUp);
    OfStep(seens, n, !isUp);
    assert Of(seens, isUp) <= Bodies(s.Dir(isUp));
    assert Of(seens[..n + 1], isUp)[j] == seens[n].record;
    assert Bodies(s.Dir(isUp))[j] == seens[n].record;
  }

  ghost function Origins(s: Session, seens: seq<Seen>): nat -> DR.Origin {
    (n: nat) => OriginAt(s, seens, n)
  }

  // The decryption events of the first n records seen.
  ghost function EventsUpTo(c: Crypto, s: Session, seens: seq<Seen>, n: nat): seq<DR.Event>
    requires AllRecords(seens) && n <= |seens|
  {
    Events(c, s.clientRandom, seens[..n], Origins(s, seens))
  }

  lemma EventsStep(c: Crypto, s: Session, seens: seq<Seen>, n: nat)
    requires AllRecords(seens) && n < |seens|
    ensures IsRecord(seens[n].record)
    ensures var before := EventsUpTo(c, s, seens, n);
            var e := EventOf(DR.Run(c, D.NewConnection(s.clientRandom), before).st, seens[n], OriginAt(s, seens, n));
            EventsUpTo(c, s, seens, n + 1) == if e.None? then before else before + [e.value]
  {
    assert seens[n] in seens;
    assert seens[..n + 1][..n] == seens[..n];
  }

  // The events of a direction count and say what these sent records do.
  ghost predicate Tallied(evs: seq<DR.Event>, isUp: bool, rs: seq<SentRecord>) {
    (forall v :: I.Sent(evs, isUp, v) == CountIn(rs, v)) && SentApps(evs, isUp) == AppsSent(rs)
  }

  lemma TallyUnsealed(evs: seq<DR.Event>, isUp: bool, rs: seq<SentRecord>, r: SentRecord)
    requires Tallied(evs, isUp, rs) && r.origin.Unsealed?
    ensures Tallied(evs, isUp, rs + [r])
  {
    assert (rs + [r])[..|rs|] == rs;
  }

  lemma TallyOther(evs: seq<DR.Event>, e: DR.Event, isUp: bool, rs: seq<SentRecord>)
    requires Tallied(evs, isUp, rs) && (e.Learn? || e.isUp != isUp)
    ensures Tallied(evs + [e], isUp, rs)
  {
    assert (evs + [e])[..|evs|] == evs;
  }

  lemma TallyPresent(evs: seq<DR.Event>, isUp: bool, rs: seq<SentRecord>, r: SentRecord, keylog: Keylog)
    requires Tallied(evs, isUp, rs) && IsRecord(r.record)
    ensures Tallied(evs + [EventFor(r, isUp, keylog)], isUp, rs + [r])
  {
    var e := EventFor(r, isUp, keylog);
    assert (evs + [e])[..|evs|] == evs && (rs + [r])[..|rs|] == rs;
    assert SentApp(e, isUp) == AppSent(r);
    assert SentApps(evs + [e], isUp) == SentApps(evs, isUp) + SentApp(e, isUp);
    assert AppsSent(rs + [r]) == AppsSent(rs) + AppSent(r);
  }

  lemma RunExtends(c: Crypto, seals: iset<I.Seal>, full: Keylog, random: Bytes, evs: seq<DR.Event>, e: DR.Event)
    requires I.GenuineRun(c, seals, full, D.NewConnection(random), evs) && I.InOrder(evs, random)
    requires e.Present? ==>
               && I.Genuine(c, seals, full, random, DR.Run(c, D.NewConnection(random), evs).st.serverRandom, e)
               && Agrees(e.keylog, full) && I.Keyed(random, e)
               && (I.Sealed(e) ==> I.Index(e) == I.Sent(evs, e.isUp, I.VersionOf(e)))
    ensures I.GenuineRun(c, seals, full, D.NewConnection(random), evs + [e]) && I.InOrder(evs + [e], random)
  {
    var all := evs + [e];
    forall i | 0 <= i < |all|
      ensures all[..i] == evs[..i] && all[i] == if i < |evs| then evs[i] else e
    {
    }
    assert evs[..|evs|] == evs;
  }

  // A sent record, whenever presented, is genuine and has its secret logged.
  lemma SentIsGenuine(c: Crypto, seals: iset<I.Seal>, full: Keylog, s: Session, isUp: bool, i: nat,
                      keylog: Keylog, sr: Option<Bytes>)
    requires i < |s.Dir(isUp)| && WellSent(c, seals, full, s, isUp, i) && Serves(keylog, full, s.clientRandom)
    requires s.Dir(isUp)[i].origin.Sealed12? ==> sr == Some(s.serverRandom)
    ensures var e := EventFor(s.Dir(isUp)[i], isUp, keylog);
            I.Genuine(c, seals, full, s.clientRandom, sr, e) && I.Keyed(s.clientRandom, e)
  {
  }

  // Playing back the first n records of a session: a genuine in-order decryption run that has
  // learned the server's random exactly if its hello was among them.
  ghost predicate Followed(c: Crypto, seals: iset<I.Seal>, full: Keylog, s: Session, seens: seq<Seen>, n: nat)
    requires AllRecords(seens) && n <= |seens|
  {
    var evs := EventsUpTo(c, s, seens, n);
    && I.GenuineRun(c, seals, full, D.NewConnection(s.clientRandom), evs) && I.InOrder(evs, s.clientRandom)
    && DR.Run(c, D.NewConnection(s.clientRandom), evs).st.serverRandom
       == (if Of(seens[..n], false) == [] then None else Some(s.serverRandom))
    && BothTallied(evs, s, seens, n)
  }

  ghost predicate BothTallied(evs: seq<DR.Event>, s: Session, seens: seq<Seen>, n: nat)
    requires n <= |seens|
  {
    Tallied(evs, true, Heard(s, seens, n, true)) && Tallied(evs, false, Heard(s, seens, n, false))
  }

  // What has been seen of one direction's records after n.
  function Heard(s: Session, seens: seq<Seen>, n: nat, isUp: bool): seq<SentRecord>
    requires n <= |seens|
  {
    s.Dir(isUp)[..Min(|Of(seens[..n], isUp)|, |s.Dir(isUp)|)]
  }

  lemma HeardStep(s: Session, seens: seq<Seen>, n: nat)
    requires Plays(s, seens) && n < |seens|
    ensures var isUp := seens[n].isUp;
            && Heard(s, seens, n + 1, isUp)
               == Heard(s, seens, n, isUp) + [SentRecord(seens[n].record, OriginAt(s, seens, n))]
            && Heard(s, seens, n + 1, !isUp) == Heard(s, seens, n, !isUp)
  {
    NextSent(s, seens, n);
  }

  function Appended(evs: seq<DR.Event>, e: Option<DR.Event>): seq<DR.Event> {
    if e.None? then evs else evs + [e.value]
  }

  // A record that its direction sent next, presented or (when unprotected) passed over.
  lemma TallyOwn(evs: seq<DR.Event>, e: Option<DR.Event>, isUp: bool, rs: seq<SentRecord>, r: SentRecord,
                 keylog: Keylog)
    requires Tallied(evs, isUp, rs) && IsRecord(r.record)
    requires if e.Some? && e.value.Present? then e.value == EventFor(r, isUp, keylog) else r.origin.Unsealed?
    ensures Tallied(Appended(evs, e), isUp, rs + [r])
  {
    if e.Some? && e.value.Present? {
      TallyPresent(evs, isUp, rs, r, keylog);
    } else {
      TallyUnsealed(evs, isUp, rs, r);
      if e.Some? {
        TallyOther(evs, e.value, isUp, rs + [r]);
      }
    }
  }

  lemma TallyStep(evs: seq<DR.Event>, e: Option<DR.Event>, s: Session, seens: seq<Seen>, n: nat)
    requires n < |seens| && Plays(s, seens) && IsRecord(seens[n].record)
    requires BothTallied(evs, s, seens, n)
    requires var r := SentRecord(seens[n].record, OriginAt(s, seens, n));
             if e.Some? && e.value.Present?
             then e.value == EventFor(r, seens[n].isUp, seens[n].keylog)
             else r.origin.Unsealed?
    ensures BothTallied(Appended(evs, e), s, seens, n + 1)
  {
    var isUp, r := seens[n].isUp, SentRecord(seens[n].record, OriginAt(s, seens, n));
    HeardStep(s, seens, n);
    TallyOwn(evs, e, isUp, Heard(s, seens, n, isUp), r, seens[n].keylog);
    if e.Some? {
      TallyOther(evs, e.value, !isUp, Heard(s, seens, n, !isUp));
    }
  }

  // The server's random is learned from its first record and only then.
  lemma HelloStep(st: D.Connection, s: Session, seens: seq<Seen>, n: nat)
    requires n < |seens| && Plays(s, seens) && |seens[n].record| >= HEADER
    requires s.down != [] ==>
               s.down[0].origin.Unsealed? && IsHello(s.down[0].record, S.TYPE_SERVER_HELLO, s.serverRandom)
    requires st.serverRandom == if Of(seens[..n], false) == [] then None else Some(s.serverRandom)
    ensures var e := EventOf(st, seens[n], OriginAt(s, seens, n));
            if e.Some? && e.value.Learn?
            then e.value.random == s.serverRandom && OriginAt(s, seens, n).Unsealed? && st.serverRandom.None?
                 && Of(seens[..n + 1], false) != []
            else (Of(seens[..n + 1], false) == [] <==> Of(seens[..n], false) == [])
                 && (!seens[n].isUp ==> st.serverRandom == Some(s.serverRandom))
  {
    NextSent(s, seens, n);
    if s.down != [] {
      HelloIsRecognised(s.down[0].record, S.TYPE_SERVER_HELLO, s.serverRandom);
    }
    assert Of(seens[..n + 1], false) == [] <==> |Of(seens[..n + 1], false)| == 0;
    assert Of(seens[..n], false) == [] <==> |Of(seens[..n], false)| == 0;
  }

  // The event that the next record is meets every condition on runs.
  lemma NextEvent(c: Crypto, seals: iset<I.Seal>, full: Keylog, s: Session, seens: seq<Seen>, n: nat,
                  st: D.Connection, evs: seq<DR.Event>)
    requires HonestSession(c, seals, full, s)
    requires Plays(s, seens) && HelloBefore12(s, seens) && n < |seens| && Serves(seens[n].keylog, full, s.clientRandom)
    requires st.serverRandom == if Of(seens[..n], false) == [] then None else Some(s.serverRandom)
    requires Tallied(evs, seens[n].isUp, Heard(s, seens, n, seens[n].isUp))
    ensures IsRecord(seens[n].record)
    ensures var r := SentRecord(seens[n].record, OriginAt(s, seens, n));
            var e := EventOf(st, seens[n], r.origin);
            if e.Some? && e.value.Present?
            then
              && e.value == EventFor(r, seens[n].isUp, seens[n].keylog)
              && I.Genuine(c, seals, full, s.clientRandom, st.serverRandom, e.value) && I.Keyed(s.clientRandom, e.value)
              && (I.Sealed(e.value) ==> I.Index(e.value) == I.Sent(evs, e.value.isUp, I.VersionOf(e.value)))
            else r.origin.Unsealed?
  {
    var isUp := seens[n].isUp;
    NextSent(s, seens, n);
    var j := |Of(seens[..n], isUp)|;
    assert WellSent(c, seals, full, s, isUp, j);
    HelloStep(st, s, seens, n);
    if s.Dir(isUp)[j].origin.Sealed12? ==> st.serverRandom == Some(s.serverRandom) {
      SentIsGenuine(c, seals, full, s, isUp, j, seens[n].keylog, st.serverRandom);
    }
  }

  lemma FollowStep(c: Crypto, seals: iset<I.Seal>, full: Keylog, s: Session, seens: seq<Seen>, n: nat)
    requires HonestSession(c, seals, full, s) && PlaysBack(s, seens, full)
    requires n < |seens| && Followed(c, seals, full, s, seens, n)
    ensures Followed(c, seals, full, s, seens, n + 1)
  {
    var evs := EventsUpTo(c, s, seens, n);
    var st := DR.Run(c, D.NewConnection(s.clientRandom), evs).st;
    var e := EventOf(st, seens[n], OriginAt(s, seens, n));
    assert seens[n] in seens;
    EventsStep(c, s, seens, n);
    NextEvent(c, seals, full, s, seens, n, st, evs);
    HelloStep(st, s, seens, n);
    TallyStep(evs, e, s, seens, n);
    if e.Some? {
      RunExtends(c, seals, full, s.clientRandom, evs, e.value);
      ServerRandomStep(c, s.clientRandom, evs, e.value);
    }
  }

  lemma ServerRandomStep(c: Crypto, random: Bytes, evs: seq<DR.Event>, e: DR.Event)
    ensures var before := DR.Run(c, D.NewConnection(random), evs).st.serverRandom;
            DR.Run(c, D.NewConnection(random), evs + [e]).st.serverRandom
            == if e.Learn? && before.None? then Some(e.random) else before
  {
    assert (evs + [e])[..|evs|] == evs;
    if e.Present? {
      DR.DecryptCounts(c, DR.Run(c, D.NewConnection(random), evs).st, e.keylog, e.isUp, e.outer, e.body);
    }
  }

  lemma FollowStart(c: Crypto, seals: iset<I.Seal>, full: Keylog, s: Session, seens: seq<Seen>)
    requires HonestSession(c, seals, full, s) && AllRecords(seens)
    ensures Followed(c, seals, full, s, seens, 0)
  {
    assert seens[..0] == [];
    assert EventsUpTo(c, s, seens, 0) == [];
    assert DR.Run(c, D.NewConnection(s.clientRandom), []).st == D.NewConnection(s.clientRandom);
    assert Heard(s, seens, 0, true) == [] && Heard(s, seens, 0, false) == [];
  }

  lemma SessionIsFollowed(c: Crypto, seals: iset<I.Seal>, full: Keylog, s: Session, seens: seq<Seen>, n: nat)
    requires HonestSession(c, seals, full, s) && PlaysBack(s, seens, full)
    requires n <= |seens|
    ensures Followed(c, seals, full, s, seens, n)
  {
    FollowStart(c, seals, full, s, seens);
    for i := 0 to n
      invariant Followed(c, seals, full, s, seens, i)
    {
      FollowStep(c, seals, full, s, seens, i);
    }
  }

  // ----- from streams to messages -----

  // One stream per direction, with the sequence number of its first byte.
  datatype Bases = Bases(up: R.U32, down: R.U32)
  {
    function Dir(isUp: bool): R.U32 {
      if isUp then up else down
    }
  }

  // The frames are honest segments of the session's two streams, in any order, with any
  // repetitions and losses; its secrets are logged throughout; and the hellos are handled
  // before the records that need them.
  ghost predicate Captures(env: Env, full: Keylog, s: Session, bases: Bases, frames: seq<Frame>)
    requires frames != []
  {
    && (forall isUp ::
          HonestDirection(s.Stream(isUp), bases.Dir(isUp), OfDirection(frames, frames[0].src, isUp)))
    && FramesServed(frames, full, s.clientRandom)
    && var seens := AllSeen(env, frames[0].src, frames[0].dst, frames);
       seens != [] ==> seens[0].isUp && HelloBefore12(s, seens[1..])
  }

  // Each direction has yielded the first records its endpoint sent.
  lemma FirstRecordsSent(env: Env, c: Crypto, seals: iset<I.Seal>, full: Keylog, s: Session, bases: Bases,
                         frames: seq<Frame>, isUp: bool)
    requires HonestSession(c, seals, full, s) && frames != [] && Captures(env, full, s, bases, frames)
    ensures LifeOf(env, frames).Trail(isUp).records <= Bodies(s.All(isUp))
  {
    var own := OfDirection(frames, frames[0].src, isUp);
    DirectionsAreIndependent(env, frames[0].src, frames[0].dst, frames, isUp);
    assert HonestDirection(s.Stream(isUp), bases.Dir(isUp), own);
    YieldsFirstRecords(env.limits, own, s.Stream(isUp), bases.Dir(isUp));
    RecordsSent(c, seals, full, s, isUp);
  }

  // The stream of a direction is exactly the records its endpoint sent.
  lemma RecordsSent(c: Crypto, seals: iset<I.Seal>, full: Keylog, s: Session, isUp: bool)
    requires HonestSession(c, seals, full, s)
    ensures Records(s.Stream(isUp)) == Bodies(s.All(isUp))
  {
    var sent := s.All(isUp);
    forall r | r in Bodies(sent)
      ensures IsRecord(r)
    {
      var i :| 0 <= i < |sent| && sent[i].record == r;
      if !isUp {
        assert WellSent(c, seals, full, s, isUp, i);
      } else if i > 0 {
        assert WellSent(c, seals, full, s, isUp, i - 1);
      }
    }
    RecordsRoundTrip(Bodies(sent), []);
    assert s.Stream(isUp) + [] == s.Stream(isUp);
  }

  lemma OfHead(seens: seq<Seen>, isUp: bool)
    requires seens != []
    ensures Of(seens, isUp) == (if seens[0].isUp == isUp then [seens[0].record] else []) + Of(seens[1..], isUp)
  {
    assert seens == seens[..1] + seens[1..] && seens[..1][..0] == [];
    OfAppend(seens[..1], seens[1..], isUp);
    assert Of(seens[..1], isUp) == Of([], isUp) + if seens[0].isUp == isUp then [seens[0].record] else [];
  }

  lemma BodiesHead(r: SentRecord, rs: seq<SentRecord>)
    ensures Bodies([r] + rs) == [r.record] + Bodies(rs)
  {
  }

  // The hello first, then each direction's records: what is seen plays the session back.
  lemma {:induction false} SeenPlays(s: Session, seens: seq<Seen>)
    requires seens != [] && seens[0].isUp
    requires Of(seens, true) <= Bodies(s.All(true)) && Of(seens, false) <= Bodies(s.All(false))
    ensures seens[0].record == s.hello && Plays(s, seens[1..])
    ensures forall isUp :: |Of(seens, isUp)| == |Of(seens[1..], isUp)| + if isUp then 1 else 0
  {
    OfHead(seens, true);
    OfHead(seens, false);
    assert s.All(true) == [SentRecord(s.hello, DR.Unsealed)] + s.up && s.All(false) == s.down;
    BodiesHead(SentRecord(s.hello, DR.Unsealed), s.up);
    PrefixTail(seens[0].record, Of(seens[1..], true), s.hello, Bodies(s.up));
  }

  lemma PrefixTail(x: Bytes, xs: seq<Bytes>, y: Bytes, ys: seq<Bytes>)
    requires [x] + xs <= [y] + ys
    ensures x == y && xs <= ys
  {
    assert ([x] + xs)[0] == ([y] + ys)[0];
    assert ([x] + xs)[1..] == xs && ([y] + ys)[1..] == ys;
  }

  lemma {:induction false} AppsAfterHello(s: Session, m: nat)
    requires m <= |s.up|
    ensures AppsSent(s.All(true)[..m + 1]) == AppsSent(s.up[..m])
    decreases m
  {
    var all := s.All(true);
    if m == 0 {
      assert all[..1][..0] == [] && s.up[..0] == [];
      assert AppsSent(all[..1]) == AppsSent([]) + AppSent(all[0]);
    } else {
      AppsAfterHello(s, m - 1);
      assert all[..m + 1][..m] == all[..m] && s.up[..m][..m - 1] == s.up[..m - 1];
      assert all[m] == s.up[m - 1];
    }
  }

  // What is seen of an honestly captured connection plays its session back.
  lemma {:induction false} CapturePlaysBack(env: Env, seals: iset<I.Seal>, full: Keylog, s: Session, bases: Bases,
                                            frames: seq<Frame>)
    requires HonestSession(env.crypto, seals, full, s) && frames != [] && Captures(env, full, s, bases, frames)
    ensures var seens := AllSeen(env, frames[0].src, frames[0].dst, frames);
            && (forall isUp :: Of(seens, isUp) == LifeOf(env, frames).Trail(isUp).records)
            && (seens != [] ==> PlayedBack(s, seens, full))
  {
    var seens := AllSeen(env, frames[0].src, frames[0].dst, frames);
    LifeIsSeen(env, frames[0].src, frames[0].dst, frames, full, s.clientRandom);
    FirstRecordsSent(env, env.crypto, seals, full, s, bases, frames, true);
    FirstRecordsSent(env, env.crypto, seals, full, s, bases, frames, false);
    if seens != [] {
      SeenPlaysBack(s, seens, full);
    }
  }

  // The hello, and after it the first records of each direction.
  ghost predicate PlayedBack(s: Session, seens: seq<Seen>, full: Keylog) {
    && seens != [] && seens[0].isUp && seens[0].record == s.hello && PlaysBack(s, seens[1..], full)
    && forall isUp :: |Of(seens, isUp)| == |Of(seens[1..], isUp)| + if isUp then 1 else 0
  }

  // The life of an honestly captured connection reads, in each direction, what was sent.
  lemma {:induction false} LifeReadsSession(env: Env, seals: iset<I.Seal>, full: Keylog, s: Session, bases: Bases,
                                            frames: seq<Frame>, isUp: bool)
    requires HonestSession(env.crypto, seals, full, s) && frames != [] && Captures(env, full, s, bases, frames)
    ensures var t := LifeOf(env, frames).Trail(isUp);
            |t.records| <= |s.All(isUp)| && T.Payloads(t.messages) == AppsSent(s.All(isUp)[..|t.records|])
  {
    var client, server := frames[0].src, frames[0].dst;
    var seens := AllSeen(env, client, server, frames);
    CapturePlaysBack(env, seals, full, s, bases, frames);
    assert Of(seens, isUp) == LifeOf(env, frames).Trail(isUp).records;
    if seens == [] {
      NothingSeen(env, client, server, frames, isUp);
      assert s.All(isUp)[..0] == [];
    } else {
      SessionIsRead(env, seals, full, s, client, server, frames, isUp);
      AppsOfAll(s, isUp, |Of(seens[1..], isUp)|);
    }
  }

  lemma {:induction false} SeenPlaysBack(s: Session, seens: seq<Seen>, full: Keylog)
    requires seens != [] && seens[0].isUp && AllRecords(seens) && AllServed(seens, full, s.clientRandom)
    requires Of(seens, true) <= Bodies(s.All(true)) && Of(seens, false) <= Bodies(s.All(false))
    requires HelloBefore12(s, seens[1..])
    ensures PlayedBack(s, seens, full)
  {
    SeenPlays(s, seens);
  }

  lemma NothingSeen(env: Env, client: Endpoint, server: Endpoint, frames: seq<Frame>, isUp: bool)
    requires AllSeen(env, client, server, frames) == []
    ensures T.Payloads(Live(env, client, server, frames).Trail(isUp).messages) == []
  {
    LifeTells(env, client, server, frames);
  }

  lemma AppsOfAll(s: Session, isUp: bool, m: nat)
    requires m <= |s.Dir(isUp)|
    ensures var n := m + if isUp then 1 else 0;
            n <= |s.All(isUp)| && AppsSent(s.All(isUp)[..n]) == AppsSent(s.Dir(isUp)[..m])
  {
    if isUp {
      AppsAfterHello(s, m);
    }
  }

  lemma {:induction false} SessionIsRead(env: Env, seals: iset<I.Seal>, full: Keylog, s: Session, client: Endpoint,
                                         server: Endpoint, frames: seq<Frame>, isUp: bool)
    requires HonestSession(env.crypto, seals, full, s)
    requires PlayedBack(s, AllSeen(env, client, server, frames), full)
    ensures var m := |Of(AllSeen(env, client, server, frames)[1..], isUp)|;
            && m <= |s.Dir(isUp)|
            && T.Payloads(Live(env, client, server, frames).Trail(isUp).messages) == AppsSent(s.Dir(isUp)[..m])
  {
    var seens := AllSeen(env, client, server, frames);
    var rest := seens[1..];
    assert rest[..|rest|] == rest;
    SessionIsFollowed(env.crypto, seals, full, s, rest, |rest|);
    HelloIsRecognised(s.hello, S.TYPE_CLIENT_HELLO, s.clientRandom);
    CaptureRevealsPlaintext(env, seals, full, client, server, frames, s.clientRandom, Origins(s, rest), isUp);
    assert Of(rest, isUp) <= Bodies(s.Dir(isUp));
    assert Heard(s, rest, |rest|, isUp) == s.Dir(isUp)[..|Of(rest, isUp)|];
  }

  // From captured frames to messages. Take any capture, of any number of connections, in which the
  // latest incarnation of a key is an honest session: the messages the table run emitted for it
  // in one direction carry, in order, exactly the application plaintexts its endpoint protected
  // in its first m records. Unless a gap was abandoned, those are all the records that end before
  // the first byte of the stream that no frame of the incarnation carried.
  lemma CaptureRevealsSession(env: Env, seals: iset<I.Seal>, full: Keylog, s: Session, bases: Bases,
                              frames: seq<Frame>, k: ConnKey, isUp: bool)
    requires HonestSession(env.crypto, seals, full, s)
    requires Latest(frames, k) != [] && Captures(env, full, s, bases, Latest(frames, k))
    ensures var cur := Latest(frames, k);
            var l, own := LifeOf(env, cur), OfDirection(cur, cur[0].src, isUp);
            var m, next := |l.Trail(isUp).records|, l.conn.Side(isUp).reasm.next;
            && m <= |s.All(isUp)|
            && T.Payloads(YieldOf(env, frames, k, isUp).messages) == AppsSent(s.All(isUp)[..m])
            && (!l.conn.Side(isUp).desynced ==>
                  && next <= |s.Stream(isUp)| && m == |Records(s.Stream(isUp)[..next])|
                  && !Captured(bases.Dir(isUp), own, next)
                  && forall x: nat :: x < next ==> Captured(bases.Dir(isUp), own, x))
  {
    var cur := Latest(frames, k);
    var l, own := LifeOf(env, cur), OfDirection(cur, cur[0].src, isUp);
    TableIsLatestIncarnation(env, frames, k);
    assert Yielded(l.Trail(isUp), YieldOf(env, frames, k, isUp));
    LifeReadsSession(env, seals, full, s, bases, cur, isUp);
    if !l.conn.Side(isUp).desynced {
      assert HonestDirection(s.Stream(isUp), bases.Dir(isUp), own);
      DirectionsAreIndependent(env, cur[0].src, cur[0].dst, cur, isUp);
      AnchorIsBase(env.limits, own);
      ConnectionExtractsStream(env, cur[0].src, cur[0].dst, cur, isUp, s.Stream(isUp), bases.Dir(isUp));
    }
  }
}
