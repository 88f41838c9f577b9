// What becomes of each record, told from the records alone: which hellos a connection has shown,
// and under which outcome every record is counted.
module RecordOutcomes {
  import opened Common
  import opened Keylogs
  import opened RecordProtection
  import opened Framing
  import opened Pipeline
  import opened ConnectionRuns
  import opened EndToEnd
  import opened Incarnations
  import T = TableRuns
  import D = Decryption
  import S = Sealing

  // A record in the clear whose body is a message of the given type, long enough to be a hello.
  predicate ShowsHello(s: Seen, kind: Byte) {
    && |s.record| >= HEADER + 38 && s.record[0] != S.TYPE_CHANGE_CIPHER_SPEC && s.record[HEADER] == kind
  }

  // The random of the first client's hello.
  function ClientRandomIn(seens: seq<Seen>): Option<Bytes>
    decreases |seens|
  {
    if seens == [] then None
    else
      var before, last := ClientRandomIn(seens[..|seens| - 1]), seens[|seens| - 1];
      if before.Some? then before
      else if last.isUp && ShowsHello(last, S.TYPE_CLIENT_HELLO) then Some(last.record[HEADER + 6..HEADER + 38])
      else None
  }

  // The random of the first server's hello after it.
  function ServerRandomIn(seens: seq<Seen>): Option<Bytes>
    decreases |seens|
  {
    if seens == [] then None
    else
      var before, last := ServerRandomIn(seens[..|seens| - 1]), seens[|seens| - 1];
      if before.Some? then before
      else if ClientRandomIn(seens[..|seens| - 1]).Some? && !last.isUp && ShowsHello(last, S.TYPE_SERVER_HELLO)
      then Some(last.record[HEADER + 6..HEADER + 38])
      else None
  }

  // The record is in the clear: it changes the cipher, or is the hello that is awaited.
  ghost predicate InTheClear(before: seq<Seen>, s: Seen)
    requires |s.record| >= HEADER
  {
    || s.record[0] == S.TYPE_CHANGE_CIPHER_SPEC
    || (s.isUp && ClientRandomIn(before).None? && ShowsHello(s, S.TYPE_CLIENT_HELLO))
    || (!s.isUp && ClientRandomIn(before).Some? && ServerRandomIn(before).None? && ShowsHello(s, S.TYPE_SERVER_HELLO))
  }

  // The record is too short for the TLS 1.2 protection whose secrets are known.
  ghost predicate TooShortFor12(before: seq<Seen>, s: Seen) {
    && |s.record| < HEADER + 24 && ClientRandomIn(before).Some? && ServerRandomIn(before).Some?
    && S.Named(s.keylog, ClientRandomIn(before).value, S.MASTER_SECRET_NAME).Some?
  }

  // The one outcome the record is due, given whether it was opened.
  ghost predicate DueOutcome(before: seq<Seen>, s: Seen, k: Kind)
    requires |s.record| >= HEADER
  {
    && (k.PlaintextHandshake? <==> InTheClear(before, s))
    && (k.NoClientHello? <==> !InTheClear(before, s) && ClientRandomIn(before).None?)
    && (k.Unauthentic? <==> !InTheClear(before, s) && !k.Readable? && TooShortFor12(before, s))
    && (k.KeyMissing? <==>
          !InTheClear(before, s) && ClientRandomIn(before).Some? && !k.Readable? && !TooShortFor12(before, s))
  }

  // The TLS state knows exactly the randoms shown.
  ghost predicate Knows(tls: Option<D.Connection>, seens: seq<Seen>) {
    && (tls.None? <==> ClientRandomIn(seens).None?)
    && (tls.None? ==> ServerRandomIn(seens).None?)
    && (tls.Some? ==>
          && |tls.value.clientRandom| == 32 && ClientRandomIn(seens) == Some(tls.value.clientRandom)
          && tls.value.serverRandom == ServerRandomIn(seens))
  }

  lemma HelloIsShown(s: Seen, kind: Byte)
    requires |s.record| >= HEADER && s.record[0] != S.TYPE_CHANGE_CIPHER_SPEC
    ensures D.HelloRandom(s.record[HEADER..], kind)
         == if ShowsHello(s, kind) then Some(s.record[HEADER + 6..HEADER + 38]) else None
  {
    var body := s.record[HEADER..];
    if |body| >= 38 {
      assert body[6..38] == s.record[HEADER + 6..HEADER + 38];
    }
  }

  // Decryption reports failed authentication exactly for a short record it has TLS 1.2 secrets for.
  lemma FailureIsExact(c: Crypto, st: D.Connection, s: Seen)
    requires |s.record| >= HEADER
    ensures var (st1, r) := D.Decrypt(c, st, s.keylog, s.isUp, s.record[0], s.record[HEADER..]);
            && st1.clientRandom == st.clientRandom && st1.serverRandom == st.serverRandom
            && (r.AuthFailed? <==>
                  && !r.Ok? && |s.record| < HEADER + 24 && st.serverRandom.Some? && |st.clientRandom| == 32
                  && S.Named(s.keylog, st.clientRandom, S.MASTER_SECRET_NAME).Some?)
  {
    var body := s.record[HEADER..];
    S.NamesAreLabels(D.Application, s.isUp);
    var (d, r) := D.Try13(c, st.Dir(s.isUp), s.keylog, st.clientRandom, s.isUp, body, D.CANDIDATES);
    var mid := st.WithDir(s.isUp, d);
    var master := SecretFor(s.keylog, st.clientRandom, ClientRandom);
    if master.Some? && mid.serverRandom.Some? && |body| >= 24 {
      Try12NeverFailsAuthentication(c, mid.Dir(s.isUp), master.value, st.clientRandom, mid.serverRandom.value, s.isUp,
                                    s.record[0], body, D.ALGORITHMS12);
    }
  }

  lemma {:induction false} Try12NeverFailsAuthentication(c: Crypto, d: D.Direction, master: Bytes, cr: Bytes, sr: Bytes,
                                                         isUp: bool, outer: Byte, body: Bytes, algs: seq<Alg>)
    requires |body| >= 24
    ensures !D.Try12(c, d, master, cr, sr, isUp, outer, body, algs).1.AuthFailed?
    decreases |algs|
  {
    if algs != [] {
      Try12NeverFailsAuthentication(c, D.Keys12For(c, d, master, cr, sr, isUp, algs[0]).0, master, cr, sr, isUp,
                                    outer, body, algs[1..]);
    }
  }

  lemma OneOutcome(c: Crypto, tls: Option<D.Connection>, before: seq<Seen>, s: Seen)
    requires |s.record| >= HEADER && Knows(tls, before)
    ensures var (tls1, k) := Classify(c, tls, s.isUp, s.record, s.keylog);
            DueOutcome(before, s, k) && Knows(tls1, before + [s])
  {
    var (tls1, k) := Classify(c, tls, s.isUp, s.record, s.keylog);
    assert (before + [s])[..|before|] == before;
    if s.record[0] != S.TYPE_CHANGE_CIPHER_SPEC {
      HelloIsShown(s, S.TYPE_CLIENT_HELLO);
      HelloIsShown(s, S.TYPE_SERVER_HELLO);
      if tls.Some? {
        FailureIsExact(c, tls.value, s);
      }
    }
  }

  // Every record is counted under the outcome it is due, over any sequence of records.
  lemma {:induction false} OutcomesAreDue(c: Crypto, seens: seq<Seen>)
    requires AllRecords(seens)
    ensures var r := ClassifyAll(c, None, seens);
            && Knows(r.tls, seens)
            && forall n :: 0 <= n < |seens| ==>
                 |seens[n].record| >= HEADER && DueOutcome(seens[..n], seens[n], r.kinds[n])
    decreases |seens|
  {
    if seens != [] {
      var init, s := seens[..|seens| - 1], seens[|seens| - 1];
      ClassifySnoc(c, None, seens);
      OutcomesAreDue(c, init);
      OneOutcome(c, ClassifyAll(c, None, init).tls, init, s);
      assert init + [s] == seens;
      forall n | 0 <= n < |init|
        ensures seens[..n] == init[..n] && seens[n] == init[n]
      {
      }
    }
  }

  // The entry a frame meets is the life of its incarnation so far.
  lemma MeetsLife(env: Env, frames: seq<Frame>)
    requires frames != []
    ensures var init, f := frames[..|frames| - 1], frames[|frames| - 1];
            var cur := Latest(frames, FrameKey(f));
            && cur != [] && cur[|cur| - 1] == f
            && Lookup(T.RunAll(env, init).table, f) == Live(env, cur[0].src, cur[0].dst, cur[..|cur| - 1]).conn
  {
    var init, f := frames[..|frames| - 1], frames[|frames| - 1];
    var k, cur := FrameKey(f), Latest(frames, FrameKey(f));
    TableIsLatestIncarnation(env, init, k);
    if T.PresenceOf(init, k).Absent? {
      assert cur[..|cur| - 1] == [];
    } else {
      assert cur[..|cur| - 1] == Latest(init, k);
    }
  }

  // In any capture, every record a frame completes is counted under the outcome it is due.
  lemma FrameOutcomesAreDue(env: Env, frames: seq<Frame>)
    requires frames != []
    ensures var init, f := frames[..|frames| - 1], frames[|frames| - 1];
            var cur := Latest(frames, FrameKey(f));
            var a := Absorb(env, Lookup(T.RunAll(env, init).table, f), f);
            && cur != [] && T.RunAll(env, frames).kinds == T.RunAll(env, init).kinds + a.kinds
            && |a.kinds| == |a.records|
            && var past, now := AllSeen(env, cur[0].src, cur[0].dst, cur[..|cur| - 1]), SeenIn(a.records, a.isUp, 0, f);
               forall i :: 0 <= i < |now| ==>
                 |now[i].record| >= HEADER && DueOutcome(past + now[..i], now[i], a.kinds[i])
  {
    var init, f := frames[..|frames| - 1], frames[|frames| - 1];
    MeetsLife(env, frames);
    var cur := Latest(frames, FrameKey(f));
    var conn := Lookup(T.RunAll(env, init).table, f);
    var a := Absorb(env, conn, f);
    var past, now := AllSeen(env, cur[0].src, cur[0].dst, cur[..|cur| - 1]), SeenIn(a.records, a.isUp, 0, f);
    LifeTells(env, cur[0].src, cur[0].dst, cur[..|cur| - 1]);
    AbsorbClassifies(env, conn, f);
    LaterOutcomesAreDue(env.crypto, past, now);
  }

  lemma {:induction false} LaterOutcomesAreDue(c: Crypto, past: seq<Seen>, now: seq<Seen>)
    requires AllRecords(past) && AllRecords(now)
    ensures var kinds := ClassifyAll(c, ClassifyAll(c, None, past).tls, now).kinds;
            forall i :: 0 <= i < |now| ==> |now[i].record| >= HEADER && DueOutcome(past + now[..i], now[i], kinds[i])
  {
    ClassifyAppend(c, None, past, now);
    OutcomesAreDue(c, past + now);
    var before, kinds := ClassifyAll(c, None, past).kinds, ClassifyAll(c, ClassifyAll(c, None, past).tls, now).kinds;
    forall i | 0 <= i < |now|
      ensures |now[i].record| >= HEADER && DueOutcome(past + now[..i], now[i], kinds[i])
    {
      Shifted(past, now, before, kinds, i);
    }
  }

  lemma Shifted(past: seq<Seen>, now: seq<Seen>, before: seq<Kind>, kinds: seq<Kind>, i: nat)
    requires i < |now| == |kinds| && |past| == |before|
    ensures var n := |past| + i;
            (past + now)[..n] == past + now[..i] && (past + now)[n] == now[i] && (before + kinds)[n] == kinds[i]
  {
  }
}
