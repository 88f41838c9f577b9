// The assumptions of the end-to-end theorem can be met together: a session whose client protects
// one message of any content, captured in a single frame, yields a message with that content.
module SessionExample {
  import opened Common
  import opened Keylogs
  import opened RecordProtection
  import opened Framing
  import opened Pipeline
  import opened ConnectionRuns
  import opened EndToEnd
  import opened Incarnations
  import opened Sessions
  import R = Reassembly
  import RS = ReassemblySteps
  import RR = ReassemblyRuns
  import D = Decryption
  import DR = DecryptionRuns
  import I = IdealDecryption
  import S = Sealing
  import T = TableRuns

  const RANDOM: Bytes := Zeros(32)
  const SECRET: Bytes := [2]
  const IV: Iv := Zeros(12)
  const CIPHERTEXT: Bytes := Zeros(16)

  const LOG: Keylog := map[RANDOM := map[ClientTrafficSecret0 := SECRET]]

  // A hello of 38 bytes, and an application record of 16.
  const HELLO: Bytes := [0x16, 3, 3, 0, 38] + [1, 0, 0, 34, 3, 3] + RANDOM
  const RECORD: Bytes := [0x17, 3, 3, 0, 16] + CIPHERTEXT

  function AllZero(): nat -> Byte {
    (_: nat) => 0
  }

  function Toy(open: (Alg, Bytes, Bytes, Bytes, Bytes) -> Option<Bytes>): Crypto {
    Crypto(open, (_: Hash, _: Bytes, _: string, _: nat) => Some(AllZero()), (_: Hash, _: Bytes, _: Bytes) => [0])
  }

  function TheSeal(content: Bytes): I.Seal {
    I.Seal(Aes128Gcm, Zeros(16), S.PerRecordNonce(IV, 0), S.RecordHeader(16), InnerPlaintext(content, 0x17, 0),
           CIPHERTEXT)
  }

  function TheSession(content: Bytes): Session {
    Session(HELLO, RANDOM, [],
            [SentRecord(RECORD, DR.Sealed13(D.Application, 0, Aes128Gcm, content, 0x17, 0))], [])
  }

  lemma HelloIsHello()
    ensures IsRecord(HELLO) && IsHello(HELLO, 1, RANDOM)
  {
    var body := HELLO[HEADER..];
    assert body == D.HelloMessage(1, [0, 0, 34], [3, 3], RANDOM, []);
  }

  lemma RecordIsSealed(c: Crypto, content: Bytes)
    requires c == Toy(c.open)
    ensures IsRecord(RECORD)
    ensures I.OwnSeal(c, LOG, RANDOM, Some([]), EventFor(TheSession(content).up[0], true, map[]))
            == Some(TheSeal(content))
  {
    assert RECORD[HEADER..] == CIPHERTEXT;
    S.NamesAreLabels(D.Application, true);
    assert S.Named(LOG, RANDOM, S.SecretName(D.Application, true)) == Some(SECRET);
    var keys := S.TrafficKeys(c, SECRET, Aes128Gcm).value;
    assert keys.key == Zeros(16) && keys.iv == Zeros(12);
  }

  lemma SessionIsHonest(c: Crypto, content: Bytes)
    requires c == Toy(c.open) && I.Ideal(c, iset{TheSeal(content)})
    ensures HonestSession(c, iset{TheSeal(content)}, LOG, TheSession(content))
  {
    var s, seals := TheSession(content), iset{TheSeal(content)};
    HelloIsHello();
    RecordIsSealed(c, content);
    S.PowPositive(8);
    assert RECORD[HEADER..] == CIPHERTEXT;
    assert s.up[..0] == [];
    assert WellSent(c, seals, LOG, s, true, 0);
    forall isUp, i | 0 <= i < |s.Dir(isUp)|
      ensures WellSent(c, seals, LOG, s, isUp, i)
    {
    }
  }

  function SameLog(): nat -> Keylog {
    (_: nat) => LOG
  }

  function TheFrame(content: Bytes): Frame {
    Frame(Endpoint(1, 50000), Endpoint(2, 443), Flags(false, true, false, false),
          R.Arrival(0, 0, 0, 64, TheSession(content).Stream(true), R.Clock(0, 0)), 0, SameLog())
  }

  lemma StreamIsShort(content: Bytes)
    ensures TheSession(content).Stream(true) == HELLO + RECORD
    ensures |TheSession(content).Stream(true)| == 64
  {
    var all := TheSession(content).All(true);
    assert Bodies(all) == [HELLO, RECORD];
    FlattenAppend([HELLO], [RECORD]);
    assert [HELLO] + [RECORD] == [HELLO, RECORD];
    assert Flatten([HELLO]) == HELLO + Flatten([]) && Flatten([RECORD]) == RECORD + Flatten([]);
  }

  lemma FrameIsHonest(content: Bytes, isUp: bool)
    ensures var f := TheFrame(content);
            HonestDirection(TheSession(content).Stream(isUp), 0, OfDirection([f], f.src, isUp))
  {
    var f := TheFrame(content);
    OwnFrames(f, isUp);
    if isUp {
      StreamIsShort(content);
      assert RR.SliceAt(TheSession(content).Stream(true), 0, f.arrival, 0);
      assert Anchor([f][..0]) == None;
    }
  }

  lemma OwnFrames(f: Frame, isUp: bool)
    ensures OfDirection([f], f.src, isUp) == if isUp then [f] else []
  {
    assert [f][..0] == [];
  }

  lemma AllFromClient(env: Env, f: Frame)
    ensures forall seen :: seen in AllSeen(env, f.src, f.dst, [f]) ==> seen.isUp
  {
    var a := Absorb(env, Live(env, f.src, f.dst, []).conn, f);
    assert [f][..0] == [];
    assert AllSeen(env, f.src, f.dst, [f][..0]) == [];
    assert AllSeen(env, f.src, f.dst, [f]) == [] + SeenIn(a.records, a.isUp, 0, f);
  }

  lemma NoTls12(content: Bytes, seens: seq<Seen>)
    ensures HelloBefore12(TheSession(content), seens)
  {
    assert forall n: nat :: !OriginAt(TheSession(content), seens, n).Sealed12?;
  }

  lemma FrameCaptures(env: Env, content: Bytes)
    ensures Captures(env, LOG, TheSession(content), Bases(0, 0), [TheFrame(content)])
  {
    var s, f := TheSession(content), TheFrame(content);
    FrameIsHonest(content, true);
    FrameIsHonest(content, false);
    assert Serves(LOG, LOG, RANDOM);
    AllFromClient(env, f);
    var seens := AllSeen(env, f.src, f.dst, [f]);
    if seens != [] {
      assert seens[0] in seens;
      NoTls12(content, seens[1..]);
    }
  }

  lemma FrameIsDelivered(env: Env, content: Bytes)
    ensures !LifeOf(env, [TheFrame(content)]).conn.Side(true).desynced
  {
    var f := TheFrame(content);
    var conn := NewConn(f.src, f.dst);
    StreamIsShort(content);
    FirstLife(env, f);
    AbsorbSides(env, conn, f);
    assert R.Push(R.FRESH, env.limits, f.arrival).outcome.Delivered?;
    assert !Bare(Absorb(env, conn, f).conn.Side(true)).desynced;
  }

  lemma SessionSays(content: Bytes)
    ensures |TheSession(content).All(true)| == 2 && AppsSent(TheSession(content).All(true)) == [content]
  {
    var all := TheSession(content).All(true);
    assert all == [SentRecord(HELLO, DR.Unsealed)] + TheSession(content).up;
    assert all[..1] == [all[0]] && all[..1][..0] == [];
    assert AppsSent([]) == [] && AppsSent(all[..1]) == AppsSent([]) + AppSent(all[0]);
    assert AppsSent(all) == AppsSent(all[..1]) + AppSent(all[1]);
  }

  lemma NothingMissing(content: Bytes, next: nat)
    requires next <= |TheSession(content).Stream(true)| && !Captured(0, [TheFrame(content)], next)
    ensures TheSession(content).Stream(true)[..next] == TheSession(content).Stream(true)
  {
    StreamIsShort(content);
    forall x: nat | x < 64
      ensures Captured(0, [TheFrame(content)], x)
    {
      FrameCarries(content, x);
    }
  }

  lemma FrameCarries(content: Bytes, x: nat)
    requires x < 64
    ensures Captured(0, [TheFrame(content)], x)
  {
    var f := TheFrame(content);
    StreamIsShort(content);
    assert f in [f] && RS.Carries(0, f.arrival, x);
  }

  // The frame alone, under an AEAD that is ideal for the one seal made, emits the content sealed.
  lemma FrameRevealsContent(env: Env, content: Bytes)
    requires env.crypto == Toy(env.crypto.open) && I.Ideal(env.crypto, iset{TheSeal(content)})
    ensures var f := TheFrame(content); T.Payloads(YieldOf(env, [f], FrameKey(f), true).messages) == [content]
  {
    var s, f, seals := TheSession(content), TheFrame(content), iset{TheSeal(content)};
    var k := FrameKey(f);
    assert [f][..0] == [] && Latest([f], k) == [f];
    SessionIsHonest(env.crypto, content);
    FrameCaptures(env, content);
    FrameIsDelivered(env, content);
    CaptureRevealsSession(env, seals, LOG, s, Bases(0, 0), [f], k, true);
    OwnFrames(f, true);
    AllIsRead(env.crypto, content, LifeOf(env, [f]).conn.Side(true).reasm.next);
  }

  lemma AllIsRead(c: Crypto, content: Bytes, next: nat)
    requires HonestSession(c, iset{TheSeal(content)}, LOG, TheSession(content))
    requires next <= |TheSession(content).Stream(true)| && !Captured(0, [TheFrame(content)], next)
    ensures var s := TheSession(content);
            var m := |Records(s.Stream(true)[..next])|;
            m <= |s.All(true)| && AppsSent(s.All(true)[..m]) == [content]
  {
    var s := TheSession(content);
    NothingMissing(content, next);
    RecordsSent(c, iset{TheSeal(content)}, LOG, s, true);
    SessionSays(content);
    assert s.All(true)[..2] == s.All(true);
  }

  // Presenting the sealed record is a genuine in-order run.
  lemma RunIsGenuine(c: Crypto, content: Bytes)
    requires c == Toy(c.open) && I.Ideal(c, iset{TheSeal(content)})
    ensures IsRecord(RECORD)
    ensures var evs := [EventFor(TheSession(content).up[0], true, LOG)];
            && I.Sealed(evs[0]) && I.InOrder(evs, RANDOM)
            && I.GenuineRun(c, iset{TheSeal(content)}, LOG, D.NewConnection(RANDOM), evs)
  {
    var s, seals := TheSession(content), iset{TheSeal(content)};
    SessionIsHonest(c, content);
    RecordIsSealed(c, content);
    assert WellSent(c, seals, LOG, s, true, 0) && Serves(LOG, LOG, RANDOM);
    SentIsGenuine(c, seals, LOG, s, true, 0, LOG, None);
    RunExtends(c, seals, LOG, RANDOM, [], EventFor(s.up[0], true, LOG));
    assert [] + [EventFor(s.up[0], true, LOG)] == [EventFor(s.up[0], true, LOG)];
  }

  // And there is such an AEAD.
  lemma IdealToyExists(content: Bytes)
    ensures exists open :: I.Ideal(Toy(open), iset{TheSeal(content)})
  {
    var closed := Toy((_: Alg, _: Bytes, _: Bytes, _: Bytes, _: Bytes) => None);
    I.IdealExists(closed, iset{TheSeal(content)});
    var open :| I.Ideal(closed.(open := open), iset{TheSeal(content)});
    assert closed.(open := open) == Toy(open);
  }
}
