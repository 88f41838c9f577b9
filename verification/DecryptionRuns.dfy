// What holds of every run of trial decryption: caches are transparent, an in-order sender is
// followed record by record, and a missed record silences its counter for good.
module DecryptionRuns {
  import opened Common
  import opened Keylogs
  import opened RecordProtection
  import opened Decryption

  // ----- key caches agree with fresh derivation -----

  // The key that deriving from the log now would give.
  function FreshKey(c: Crypto, k: Keylog, random: Bytes, isUp: bool, g: Generation, alg: Alg): Option<Keys13> {
    var secret := SecretFor(k, random, LabelFor(g, isUp));
    if secret.None? then None else Derive13(c, secret.value, alg)
  }

  function FreshKey12(c: Crypto, k: Keylog, random: Bytes, sr: Option<Bytes>, isUp: bool, alg: Alg): Option<Keys12> {
    var master := SecretFor(k, random, ClientRandom);
    if master.None? || sr.None? then None
    else Some(Derive12(c, master.value, random, sr.value, alg, isUp))
  }

  ghost predicate CacheOk(c: Crypto, d: Direction, k: Keylog, random: Bytes, sr: Option<Bytes>, isUp: bool) {
    && (forall g, alg :: alg in d.Cache(g) ==> FreshKey(c, k, random, isUp, g, alg) == Some(d.Cache(g)[alg]))
    && (forall alg :: alg in d.keys12 ==> FreshKey12(c, k, random, sr, isUp, alg) == Some(d.keys12[alg]))
  }

  ghost predicate CachesOk(c: Crypto, st: Connection, k: Keylog) {
    && CacheOk(c, st.up, k, st.clientRandom, st.serverRandom, true)
    && CacheOk(c, st.down, k, st.clientRandom, st.serverRandom, false)
  }

  // ----- decryption without caches: the reference -----

  // The first candidate whose freshly derived key opens the record at its counter.
  function Pick13(c: Crypto, d: Direction, k: Keylog, random: Bytes, isUp: bool, body: Bytes,
                  cands: seq<Candidate>): Outcome
    decreases |cands|
  {
    if cands == [] then NoKey
    else
      var g, alg := cands[0].generation, cands[0].alg;
      var keys := FreshKey(c, k, random, isUp, g, alg);
      if keys.None? then Pick13(c, d, k, random, isUp, body, cands[1..])
      else
        match Open13(c, alg, keys.value, d.Seq(g), body)
        case Opened(content, ctype) => Ok(Decrypted(content, ctype, alg, Tls13(g)))
        case Rejected => Pick13(c, d, k, random, isUp, body, cands[1..])
        case TooShort => AuthFailed
  }

  function Pick12(c: Crypto, n: nat, k: Keylog, random: Bytes, sr: Bytes, isUp: bool, outer: Byte, body: Bytes,
                  algs: seq<Alg>): Outcome
    requires |body| >= 24
    decreases |algs|
  {
    if algs == [] then NoKey
    else
      var keys := FreshKey12(c, k, random, Some(sr), isUp, algs[0]);
      var plain := if keys.None? then None else Open12(c, algs[0], keys.value, n, outer, body[..8], body[8..]);
      if plain.Some? then Ok(Decrypted(plain.value, outer, algs[0], Tls12(body[..8])))
      else Pick12(c, n, k, random, sr, isUp, outer, body, algs[1..])
  }

  // The direction's counters after an outcome: a success advances its own, a failure none.
  ghost predicate Counted(before: Direction, after: Direction, r: Outcome) {
    && after.seqHandshake == before.seqHandshake + (if r.Ok? && r.record.version == Tls13(Handshake) then 1 else 0)
    && after.seqApplication
       == before.seqApplication + (if r.Ok? && r.record.version == Tls13(Application) then 1 else 0)
    && after.seq12 == before.seq12 + (if r.Ok? && r.record.version.Tls12? then 1 else 0)
  }

  lemma KeysForIsFresh(c: Crypto, d: Direction, k: Keylog, full: Keylog, random: Bytes, sr: Option<Bytes>, isUp: bool,
                       cand: Candidate)
    requires CacheOk(c, d, full, random, sr, isUp) && Agrees(k, full)
    ensures var (d1, keys) := KeysFor(c, d, k, random, isUp, cand);
            && keys == FreshKey(c, k, random, isUp, cand.generation, cand.alg)
            && Counted(d, d1, NoKey)
            && CacheOk(c, d1, full, random, sr, isUp)
  {
  }

  lemma {:induction false} SeqOnly13(c: Crypto, a: Direction, b: Direction, k: Keylog, random: Bytes, isUp: bool,
                                     body: Bytes, cands: seq<Candidate>)
    requires Counted(a, b, NoKey)
    ensures Pick13(c, a, k, random, isUp, body, cands) == Pick13(c, b, k, random, isUp, body, cands)
    decreases |cands|
  {
    if cands != [] {
      SeqOnly13(c, a, b, k, random, isUp, body, cands[1..]);
    }
  }

  lemma {:induction false} Try13Counts(c: Crypto, d: Direction, k: Keylog, random: Bytes, isUp: bool, body: Bytes,
                                       cands: seq<Candidate>)
    ensures var (d1, r) := Try13(c, d, k, random, isUp, body, cands); Counted(d, d1, r)
    decreases |cands|
  {
    if cands != [] {
      Try13Counts(c, KeysFor(c, d, k, random, isUp, cands[0]).0, k, random, isUp, body, cands[1..]);
    }
  }

  lemma {:induction false} Try12Counts(c: Crypto, d: Direction, master: Bytes, cr: Bytes, sr: Bytes, isUp: bool,
                                       outer: Byte, body: Bytes, algs: seq<Alg>)
    requires |body| >= 24
    ensures var (d1, r) := Try12(c, d, master, cr, sr, isUp, outer, body, algs); Counted(d, d1, r)
    decreases |algs|
  {
    if algs != [] {
      Try12Counts(c, Keys12For(c, d, master, cr, sr, isUp, algs[0]).0, master, cr, sr, isUp, outer, body, algs[1..]);
    }
  }

  // Whatever the key log and the caches hold, a success advances exactly the counter of the
  // version and generation it opened under, a failure none, and the other direction is untouched.
  lemma DecryptCounts(c: Crypto, st: Connection, k: Keylog, isUp: bool, outer: Byte, body: Bytes)
    ensures var (st1, r) := Decrypt(c, st, k, isUp, outer, body); Moved(st, st1, isUp, r)
  {
    Try13Counts(c, st.Dir(isUp), k, st.clientRandom, isUp, body, CANDIDATES);
    var (d, r) := Try13(c, st.Dir(isUp), k, st.clientRandom, isUp, body, CANDIDATES);
    var mid := st.WithDir(isUp, d);
    assert Moved(st, mid, isUp, r);
    var master := SecretFor(k, st.clientRandom, ClientRandom);
    if !r.Ok? && st.serverRandom.Some? && master.Some? && |body| >= 24 {
      Try12Counts(c, d, master.value, st.clientRandom, st.serverRandom.value, isUp, outer, body, ALGORITHMS12);
    }
  }

  lemma {:induction false} Try13IsPick(c: Crypto, d: Direction, k: Keylog, full: Keylog,
                                       random: Bytes, sr: Option<Bytes>, isUp: bool, body: Bytes, cands: seq<Candidate>)
    requires CacheOk(c, d, full, random, sr, isUp) && Agrees(k, full)
    ensures var (d1, r) := Try13(c, d, k, random, isUp, body, cands);
            && r == Pick13(c, d, k, random, isUp, body, cands)
            && Counted(d, d1, r)
            && CacheOk(c, d1, full, random, sr, isUp)
    decreases |cands|
  {
    if cands != [] {
      KeysForIsFresh(c, d, k, full, random, sr, isUp, cands[0]);
      var (d1, keys) := KeysFor(c, d, k, random, isUp, cands[0]);
      var g := cands[0].generation;
      if keys.None? || Open13(c, cands[0].alg, keys.value, d.Seq(g), body).Rejected? {
        Try13IsPick(c, d1, k, full, random, sr, isUp, body, cands[1..]);
        SeqOnly13(c, d, d1, k, random, isUp, body, cands[1..]);
      } else if Open13(c, cands[0].alg, keys.value, d.Seq(g), body).Opened? {
        assert CacheOk(c, d1.Advance(g), full, random, sr, isUp);
      }
    }
  }

  lemma {:induction false} Try12IsPick(c: Crypto, d: Direction, k: Keylog, full: Keylog, random: Bytes, sr: Bytes,
                                       isUp: bool, outer: Byte, body: Bytes, algs: seq<Alg>)
    requires |body| >= 24 && SecretFor(k, random, ClientRandom).Some?
    requires CacheOk(c, d, full, random, Some(sr), isUp) && Agrees(k, full)
    ensures var (d1, r) := Try12(c, d, SecretFor(k, random, ClientRandom).value, random, sr, isUp, outer, body, algs);
            && r == Pick12(c, d.seq12, k, random, sr, isUp, outer, body, algs)
            && Counted(d, d1, r)
            && CacheOk(c, d1, full, random, Some(sr), isUp)
    decreases |algs|
  {
    if algs != [] {
      var master := SecretFor(k, random, ClientRandom).value;
      Keys12ForIsFresh(c, d, k, full, random, sr, isUp, algs[0]);
      var (d1, keys) := Keys12For(c, d, master, random, sr, isUp, algs[0]);
      if Open12(c, algs[0], keys, d.seq12, outer, body[..8], body[8..]).None? {
        Try12IsPick(c, d1, k, full, random, sr, isUp, outer, body, algs[1..]);
      } else {
        assert CacheOk(c, d1.(seq12 := d1.seq12 + 1), full, random, Some(sr), isUp);
      }
    }
  }

  lemma Keys12ForIsFresh(c: Crypto, d: Direction, k: Keylog, full: Keylog, random: Bytes, sr: Bytes, isUp: bool,
                         alg: Alg)
    requires SecretFor(k, random, ClientRandom).Some?
    requires CacheOk(c, d, full, random, Some(sr), isUp) && Agrees(k, full)
    ensures var (d1, keys) := Keys12For(c, d, SecretFor(k, random, ClientRandom).value, random, sr, isUp, alg);
            && Some(keys) == FreshKey12(c, k, random, Some(sr), isUp, alg)
            && Counted(d, d1, NoKey)
            && CacheOk(c, d1, full, random, Some(sr), isUp)
  {
  }

  // What a record decrypts to when every key is derived afresh.
  function Resolve12(c: Crypto, st: Connection, k: Keylog, isUp: bool, outer: Byte, body: Bytes): Outcome {
    if st.serverRandom.None? || |st.clientRandom| != 32 || SecretFor(k, st.clientRandom, ClientRandom).None? then NoKey
    else if |body| < 24 then AuthFailed
    else Pick12(c, st.Dir(isUp).seq12, k, st.clientRandom, st.serverRandom.value, isUp, outer, body, ALGORITHMS12)
  }

  function Resolve(c: Crypto, st: Connection, k: Keylog, isUp: bool, outer: Byte, body: Bytes): Outcome {
    var r := Pick13(c, st.Dir(isUp), k, st.clientRandom, isUp, body, CANDIDATES);
    if r.Ok? then r else Resolve12(c, st, k, isUp, outer, body)
  }

  // A decryption touches only its own direction, and there only counts its outcome.
  ghost predicate Moved(before: Connection, after: Connection, isUp: bool, r: Outcome) {
    && after.clientRandom == before.clientRandom && after.serverRandom == before.serverRandom
    && after.Dir(!isUp) == before.Dir(!isUp)
    && Counted(before.Dir(isUp), after.Dir(isUp), r)
  }

  lemma Decrypt12IsResolve(c: Crypto, st: Connection, k: Keylog, full: Keylog, isUp: bool, outer: Byte, body: Bytes)
    requires CachesOk(c, st, full) && Agrees(k, full)
    ensures var (st1, r) := DecryptTls12(c, st, k, isUp, outer, body);
            && r == Resolve12(c, st, k, isUp, outer, body)
            && (r.Ok? ==> r.record.version.Tls12?)
            && Moved(st, st1, isUp, r)
            && CachesOk(c, st1, full)
  {
    var random, sr := st.clientRandom, st.serverRandom;
    if sr.Some? && |random| == 32 && SecretFor(k, random, ClientRandom).Some? && |body| >= 24 {
      Try12IsPick(c, st.Dir(isUp), k, full, random, sr.value, isUp, outer, body, ALGORITHMS12);
      Pick12Version(c, st.Dir(isUp).seq12, k, random, sr.value, isUp, outer, body, ALGORITHMS12);
    }
  }

  lemma {:induction false} Pick12Version(c: Crypto, n: nat, k: Keylog, random: Bytes, sr: Bytes, isUp: bool,
                                         outer: Byte, body: Bytes, algs: seq<Alg>)
    requires |body| >= 24
    ensures var r := Pick12(c, n, k, random, sr, isUp, outer, body, algs); r.Ok? ==> r.record.version.Tls12?
    decreases |algs|
  {
    if algs != [] {
      Pick12Version(c, n, k, random, sr, isUp, outer, body, algs[1..]);
    }
  }

  // With sound caches, cached decryption is decryption with fresh keys, and caches stay sound.
  lemma DecryptIsResolve(c: Crypto, st: Connection, k: Keylog, full: Keylog, isUp: bool, outer: Byte, body: Bytes)
    requires CachesOk(c, st, full) && Agrees(k, full)
    ensures var (st1, r) := Decrypt(c, st, k, isUp, outer, body);
            && r == Resolve(c, st, k, isUp, outer, body)
            && Moved(st, st1, isUp, r)
            && CachesOk(c, st1, full)
  {
    Try13IsPick(c, st.Dir(isUp), k, full, st.clientRandom, st.serverRandom, isUp, body, CANDIDATES);
    var (d, r) := Try13(c, st.Dir(isUp), k, st.clientRandom, isUp, body, CANDIDATES);
    var mid := st.WithDir(isUp, d);
    assert CachesOk(c, mid, full) && Moved(st, mid, isUp, r);
    if !r.Ok? {
      Decrypt12IsResolve(c, mid, k, full, isUp, outer, body);
    }
  }

  // ----- runs -----

  // Where a presented record came from, for the statements about senders; decryption does not see it.
  datatype Origin =
    | Unsealed
    | Sealed13(generation: Generation, index: nat, alg: Alg, content: Bytes, ctype: Byte, padding: nat)
    | Sealed12(index: nat, alg: Alg, content: Bytes)

  datatype Event =
    | Learn(random: Bytes)
    | Present(isUp: bool, outer: Byte, body: Bytes, keylog: Keylog, origin: Origin)

  datatype Ran = Ran(st: Connection, outcomes: seq<Outcome>)

  // Outcomes are listed per event; learning a server random yields no record.
  function Run(c: Crypto, st: Connection, evs: seq<Event>): (r: Ran)
    ensures |r.outcomes| == |evs|
    decreases |evs|
  {
    if evs == [] then Ran(st, [])
    else
      var before := Run(c, st, evs[..|evs| - 1]);
      match evs[|evs| - 1]
      case Learn(random) => Ran(SetServerRandom(before.st, random).0, before.outcomes + [NoKey])
      case Present(isUp, outer, body, keylog, _) =>
        var (st1, o) := Decrypt(c, before.st, keylog, isUp, outer, body);
        Ran(st1, before.outcomes + [o])
  }

  function Forget(d: Direction): Direction {
    d.(keysHandshake := map[], keysApplication := map[], keys12 := map[])
  }

  // The same run with every cache emptied before every record.
  function UncachedRun(c: Crypto, st: Connection, evs: seq<Event>): (r: Ran)
    ensures |r.outcomes| == |evs|
    decreases |evs|
  {
    if evs == [] then Ran(st, [])
    else
      var before := UncachedRun(c, st, evs[..|evs| - 1]);
      match evs[|evs| - 1]
      case Learn(random) => Ran(SetServerRandom(before.st, random).0, before.outcomes + [NoKey])
      case Present(isUp, outer, body, keylog, _) =>
        var bare := before.st.(up := Forget(before.st.up), down := Forget(before.st.down));
        var (st1, o) := Decrypt(c, bare, keylog, isUp, outer, body);
        Ran(st1, before.outcomes + [o])
  }

  ghost predicate LogsAgree(evs: seq<Event>, full: Keylog) {
    forall e :: e in evs && e.Present? ==> Agrees(e.keylog, full)
  }

  lemma LearnKeepsCaches(c: Crypto, st: Connection, full: Keylog, random: Bytes)
    requires CachesOk(c, st, full)
    ensures CachesOk(c, SetServerRandom(st, random).0, full)
  {
  }

  // However the key log grows, as long as it never rebinds, every cached key equals the key
  // derived from the full log: after every run the caches are sound.
  lemma {:induction false} CachesStaySound(c: Crypto, st: Connection, full: Keylog, evs: seq<Event>)
    requires CachesOk(c, st, full) && LogsAgree(evs, full)
    ensures CachesOk(c, Run(c, st, evs).st, full)
    decreases |evs|
  {
    if evs != [] {
      CachesStaySound(c, st, full, evs[..|evs| - 1]);
      var before := Run(c, st, evs[..|evs| - 1]).st;
      match evs[|evs| - 1]
      case Learn(random) => LearnKeepsCaches(c, before, full, random);
      case Present(isUp, outer, body, keylog, _) =>
        assert evs[|evs| - 1] in evs;
        DecryptIsResolve(c, before, keylog, full, isUp, outer, body);
    }
  }

  ghost predicate Alike(a: Connection, b: Connection) {
    && a.clientRandom == b.clientRandom && a.serverRandom == b.serverRandom
    && Forget(a.up) == Forget(b.up) && Forget(a.down) == Forget(b.down)
  }

  lemma ResolveIgnoresCaches(c: Crypto, a: Connection, b: Connection, k: Keylog, isUp: bool, outer: Byte, body: Bytes)
    requires Alike(a, b)
    ensures Resolve(c, a, k, isUp, outer, body) == Resolve(c, b, k, isUp, outer, body)
  {
    SeqOnly13(c, a.Dir(isUp), b.Dir(isUp), k, a.clientRandom, isUp, body, CANDIDATES);
  }

  lemma BothMove(c: Crypto, a: Connection, b: Connection, k: Keylog, full: Keylog, isUp: bool, outer: Byte, body: Bytes)
    requires CachesOk(c, a, full) && CachesOk(c, b, full) && Agrees(k, full) && Alike(a, b)
    ensures var (a1, r) := Decrypt(c, a, k, isUp, outer, body);
            var (b1, s) := Decrypt(c, b, k, isUp, outer, body);
            r == s && Alike(a1, b1)
  {
    DecryptIsResolve(c, a, k, full, isUp, outer, body);
    DecryptIsResolve(c, b, k, full, isUp, outer, body);
    ResolveIgnoresCaches(c, a, b, k, isUp, outer, body);
    var r := Resolve(c, a, k, isUp, outer, body);
    MovedAlike(a, b, Decrypt(c, a, k, isUp, outer, body).0, Decrypt(c, b, k, isUp, outer, body).0, isUp, r);
  }

  lemma MovedAlike(a: Connection, b: Connection, a1: Connection, b1: Connection, isUp: bool, r: Outcome)
    requires Alike(a, b) && Moved(a, a1, isUp, r) && Moved(b, b1, isUp, r)
    ensures Alike(a1, b1)
  {
  }

  // So caching never changes an outcome: the run equals the run that derives every key afresh.
  lemma {:induction false} CachingIsInvisible(c: Crypto, st: Connection, full: Keylog, evs: seq<Event>)
    requires CachesOk(c, st, full) && LogsAgree(evs, full)
    ensures Run(c, st, evs).outcomes == UncachedRun(c, st, evs).outcomes
    ensures Alike(Run(c, st, evs).st, UncachedRun(c, st, evs).st)
    decreases |evs|
  {
    if evs != [] {
      var init := evs[..|evs| - 1];
      CachingIsInvisible(c, st, full, init);
      CachesStaySound(c, st, full, init);
      var e, b := evs[|evs| - 1], UncachedRun(c, st, init).st;
      assert e in evs;
      if e.Present? {
        var bare := b.(up := Forget(b.up), down := Forget(b.down));
        BothMove(c, Run(c, st, init).st, bare, e.keylog, full, e.isUp, e.outer, e.body);
      }
    }
  }

  // ----- reloads that rebind -----

  // Key derivation tells these two TLS 1.3 secrets, or these two master secrets, apart.
  ghost predicate Distinguishes13(c: Crypto, alg: Alg, s: Option<Bytes>, t: Option<Bytes>) {
    s.Some? && t.Some? && s != t ==> Derive13(c, s.value, alg) != Derive13(c, t.value, alg)
  }

  ghost predicate Distinguishes12(c: Crypto, random: Bytes, sr: Bytes, isUp: bool, alg: Alg,
                                  s: Option<Bytes>, t: Option<Bytes>) {
    s.Some? && t.Some? && s != t ==>
      Derive12(c, s.value, random, sr, alg, isUp) != Derive12(c, t.value, random, sr, alg, isUp)
  }

  // A key cached under one log is that of a reloaded log if and only if both logs derive the
  // same key, hence, unless derivation collides, if and only if the secret is the same.
  lemma StaleAfterRebinding(c: Crypto, d: Direction, before: Keylog, after: Keylog, random: Bytes, sr: Option<Bytes>,
                            isUp: bool, g: Generation, alg: Alg)
    requires CacheOk(c, d, before, random, sr, isUp) && alg in d.Cache(g)
    requires SecretFor(after, random, LabelFor(g, isUp)).Some?
    ensures var s, t := SecretFor(before, random, LabelFor(g, isUp)), SecretFor(after, random, LabelFor(g, isUp));
            var current := KeysFor(c, d, after, random, isUp, Candidate(g, alg)).1
              == FreshKey(c, after, random, isUp, g, alg);
            && (current <==> FreshKey(c, before, random, isUp, g, alg) == FreshKey(c, after, random, isUp, g, alg))
            && (Distinguishes13(c, alg, s, t) ==> (current <==> s == t))
  {
    assert FreshKey(c, before, random, isUp, g, alg) == Some(d.Cache(g)[alg]);
  }

  lemma StaleAfterRebinding12(c: Crypto, d: Direction, before: Keylog, after: Keylog, random: Bytes, sr: Bytes,
                              isUp: bool, alg: Alg)
    requires CacheOk(c, d, before, random, Some(sr), isUp) && alg in d.keys12
    requires SecretFor(after, random, ClientRandom).Some?
    ensures var s, t := SecretFor(before, random, ClientRandom), SecretFor(after, random, ClientRandom);
            var used := Keys12For(c, d, t.value, random, sr, isUp, alg).1;
            var current := Some(used) == FreshKey12(c, after, random, Some(sr), isUp, alg);
            && (current <==>
                FreshKey12(c, before, random, Some(sr), isUp, alg) == FreshKey12(c, after, random, Some(sr), isUp, alg))
            && (Distinguishes12(c, random, sr, isUp, alg, s, t) ==> (current <==> s == t))
  {
    assert FreshKey12(c, before, random, Some(sr), isUp, alg) == Some(d.keys12[alg]);
  }

  // The reload derives the same key as before for everything this direction has cached.
  ghost predicate Spares(c: Crypto, d: Direction, before: Keylog, after: Keylog, random: Bytes, sr: Option<Bytes>,
                         isUp: bool) {
    && (forall g, alg :: alg in d.Cache(g) ==>
          FreshKey(c, before, random, isUp, g, alg) == FreshKey(c, after, random, isUp, g, alg))
    && (forall alg :: alg in d.keys12 ==>
          FreshKey12(c, before, random, sr, isUp, alg) == FreshKey12(c, after, random, sr, isUp, alg))
  }

  // Sound caches stay sound across a reload exactly when it spares what is cached, in both
  // directions and for both protocol versions.
  lemma CachesSurviveReload(c: Crypto, st: Connection, before: Keylog, after: Keylog)
    requires CachesOk(c, st, before)
    ensures CachesOk(c, st, after) <==>
            forall isUp :: Spares(c, st.Dir(isUp), before, after, st.clientRandom, st.serverRandom, isUp)
  {
    forall isUp
      ensures Spares(c, st.Dir(isUp), before, after, st.clientRandom, st.serverRandom, isUp) <==>
              CacheOk(c, st.Dir(isUp), after, st.clientRandom, st.serverRandom, isUp)
    {
      SparesKeepsSound(c, st.Dir(isUp), before, after, st.clientRandom, st.serverRandom, isUp);
    }
    assert st.Dir(true) == st.up && st.Dir(false) == st.down;
  }

  lemma SparesKeepsSound(c: Crypto, d: Direction, before: Keylog, after: Keylog, random: Bytes, sr: Option<Bytes>,
                         isUp: bool)
    requires CacheOk(c, d, before, random, sr, isUp)
    ensures Spares(c, d, before, after, random, sr, isUp) <==> CacheOk(c, d, after, random, sr, isUp)
  {
  }
}
