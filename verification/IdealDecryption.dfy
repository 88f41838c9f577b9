// Decryption under an ideal AEAD: a ciphertext opens exactly under the key, nonce and
// associated data it was sealed with.
module IdealDecryption {
  import opened Common
  import opened Keylogs
  import opened RecordProtection
  import opened Decryption
  import opened DecryptionRuns
  import opened Sealing

  // One use of the AEAD by an endpoint.
  datatype Seal = Seal(alg: Alg, key: Bytes, nonce: Bytes, aad: Bytes, plain: Bytes, ciphertext: Bytes)

  // `open` succeeds exactly on what was sealed, and yields what was sealed.
  ghost predicate Ideal(c: Crypto, seals: iset<Seal>) {
    forall alg, key, nonce, aad, plain, ct ::
      c.open(alg, key, nonce, aad, ct) == Some(plain) <==> Seal(alg, key, nonce, aad, plain, ct) in seals
  }

  // Such an AEAD exists for every set of seals in which nothing opens in two ways, whatever
  // the other primitives are.
  lemma IdealExists(c: Crypto, seals: iset<Seal>)
    requires forall s, t :: s in seals && t in seals && s.(plain := t.plain) == t ==> s == t
    ensures exists open :: Ideal(c.(open := open), seals)
  {
    var open := (alg: Alg, key: Bytes, nonce: Bytes, aad: Bytes, ct: Bytes) =>
      SealedPlaintext(seals, alg, key, nonce, aad, ct);
    var ideal := c.(open := open);
    forall alg, key, nonce, aad, plain, ct
      ensures ideal.open(alg, key, nonce, aad, ct) == Some(plain) <==> Seal(alg, key, nonce, aad, plain, ct) in seals
    {
      var found := SealedPlaintext(seals, alg, key, nonce, aad, ct);
      if Seal(alg, key, nonce, aad, plain, ct) in seals {
        assert Seal(alg, key, nonce, aad, plain, ct) == Seal(alg, key, nonce, aad, found.value, ct);
      }
    }
    assert Ideal(ideal, seals);
  }

  ghost function SealedPlaintext(seals: iset<Seal>, alg: Alg, key: Bytes, nonce: Bytes, aad: Bytes,
                                 ct: Bytes): Option<Bytes> {
    if exists plain :: Seal(alg, key, nonce, aad, plain, ct) in seals
    then var plain :| Seal(alg, key, nonce, aad, plain, ct) in seals; Some(plain)
    else None
  }

  // The keys an endpoint protects with: by the standards, from the secrets it logs by name.
  function SenderKeys13(c: Crypto, full: Keylog, random: Bytes, isUp: bool, g: Generation, alg: Alg): Option<Keys13> {
    var secret := Named(full, random, SecretName(g, isUp));
    if secret.None? then None else TrafficKeys(c, secret.value, alg)
  }

  function SenderKeys12(c: Crypto, full: Keylog, random: Bytes, sr: Option<Bytes>, isUp: bool,
                        alg: Alg): Option<Keys12> {
    var master := Named(full, random, MASTER_SECRET_NAME);
    if master.None? || sr.None? then None
    else Some(WriteKeysOf(c, master.value, random, sr.value, alg, isUp))
  }

  // The keys derived for opening are the sender's.
  lemma FreshKeysAreSenders(c: Crypto, full: Keylog, random: Bytes, sr: Option<Bytes>, isUp: bool, g: Generation,
                            alg: Alg)
    ensures FreshKey(c, full, random, isUp, g, alg) == SenderKeys13(c, full, random, isUp, g, alg)
    ensures FreshKey12(c, full, random, sr, isUp, alg) == SenderKeys12(c, full, random, sr, isUp, alg)
  {
    NamesAreLabels(g, isUp);
    var secret, master := SecretFor(full, random, LabelFor(g, isUp)), SecretFor(full, random, ClientRandom);
    if secret.Some? {
      DerivesTrafficKeys(c, secret.value, alg);
    }
    if master.Some? && sr.Some? {
      DerivesWriteKeys(c, master.value, random, sr.value, alg, isUp);
    }
  }

  // A direction's two generations never share a record key.
  ghost predicate Separated(c: Crypto, full: Keylog, random: Bytes) {
    forall isUp, alg ::
      var h := SenderKeys13(c, full, random, isUp, Handshake, alg);
      var a := SenderKeys13(c, full, random, isUp, Application, alg);
      h.Some? && a.Some? ==> h.value.key != a.value.key
  }

  // ----- genuine records -----

  // The seal behind a record that its sender protected at the sequence number `index`.
  function OwnSeal(c: Crypto, full: Keylog, random: Bytes, sr: Option<Bytes>, e: Event): Option<Seal>
    requires e.Present? && !e.origin.Unsealed?
  {
    match e.origin
    case Sealed13(g, index, alg, content, ctype, padding) =>
      var keys := SenderKeys13(c, full, random, e.isUp, g, alg);
      if keys.None? then None
      else Some(Seal(alg, keys.value.key, PerRecordNonce(keys.value.iv, index), RecordHeader(|e.body|),
                     InnerPlaintext(content, ctype, padding), e.body))
    case Sealed12(index, alg, content) =>
      var keys := SenderKeys12(c, full, random, sr, e.isUp, alg);
      if keys.None? || |e.body| != 8 + |content| + 16 then None
      else Some(Seal(alg, keys.value.key, GcmNonce(keys.value.salt, e.body[..8]),
                     AdditionalData(index, e.outer, content), content, e.body[8..]))
  }

  // Its key, nonce and associated data are those it is opened under at that sequence number.
  lemma OwnSealOpens(c: Crypto, full: Keylog, random: Bytes, sr: Option<Bytes>, e: Event)
    requires e.Present? && !e.origin.Unsealed? && OwnSeal(c, full, random, sr, e).Some?
    requires e.origin.index < Pow256(8)
    ensures var s := OwnSeal(c, full, random, sr, e).value;
            match e.origin
            case Sealed13(g, index, alg, _, _, _) =>
              var keys := FreshKey(c, full, random, e.isUp, g, alg);
              && keys.Some? && s.key == keys.value.key && s.nonce == Nonce13(keys.value.iv, index)
              && s.aad == Aad13(|e.body|)
            case Sealed12(index, alg, _) =>
              var keys := FreshKey12(c, full, random, sr, e.isUp, alg);
              && |e.body| >= 24 && keys.Some? && s.key == keys.value.key
              && s.nonce == Nonce12(keys.value.salt, e.body[..8]) && s.aad == Aad12(index, e.outer, |e.body| - 24)
  {
    match e.origin
    case Sealed13(g, index, alg, _, _, _) =>
      FreshKeysAreSenders(c, full, random, sr, e.isUp, g, alg);
      NonceIsPerRecord(FreshKey(c, full, random, e.isUp, g, alg).value.iv, index);
      AadIsHeader(|e.body|);
    case Sealed12(index, alg, content) =>
      FreshKeysAreSenders(c, full, random, sr, e.isUp, Application, alg);
      NonceIsGcmNonce(FreshKey12(c, full, random, sr, e.isUp, alg).value.salt, e.body[..8]);
      AadIsAdditionalData(index, e.outer, content);
  }

  // No seal but the given one produced these bytes.
  ghost predicate OnlySeal(seals: iset<Seal>, ct: Bytes, own: Option<Seal>) {
    forall s :: s in seals && s.ciphertext == ct ==> own == Some(s)
  }

  // The record is what its origin says, and its bytes are no other record's ciphertext.
  ghost predicate Genuine(c: Crypto, seals: iset<Seal>, full: Keylog, random: Bytes, sr: Option<Bytes>, e: Event)
    requires e.Present?
  {
    match e.origin
    case Unsealed => OnlySeal(seals, e.body, None) && (|e.body| >= 24 ==> OnlySeal(seals, e.body[8..], None))
    case Sealed13(_, index, _, _, ctype, _) =>
      var own := OwnSeal(c, full, random, sr, e);
      && own.Some? && own.value in seals && ctype != 0 && |e.body| >= 16 && index < Pow256(8)
      && OnlySeal(seals, e.body, own) && (|e.body| >= 24 ==> OnlySeal(seals, e.body[8..], None))
    case Sealed12(index, alg, _) =>
      var own := OwnSeal(c, full, random, sr, e);
      && own.Some? && own.value in seals && !alg.ChaCha20Poly1305? && index < Pow256(8) && |random| == 32
      && OnlySeal(seals, e.body, None) && OnlySeal(seals, e.body[8..], own)
  }

  // The secret the record needs is in the log in force.
  predicate Keyed(random: Bytes, e: Event)
    requires e.Present?
  {
    match e.origin
    case Unsealed => true
    case Sealed13(g, _, _, _, _, _) => Named(e.keylog, random, SecretName(g, e.isUp)).Some?
    case Sealed12(_, _, _) => Named(e.keylog, random, MASTER_SECRET_NAME).Some?
  }

  // What its sender meant a protected record to say.
  function Meant(e: Event): Decrypted
    requires e.Present? && !e.origin.Unsealed?
  {
    match e.origin
    case Sealed13(g, _, alg, content, ctype, _) => Decrypted(content, ctype, alg, Tls13(g))
    case Sealed12(_, alg, content) => Decrypted(content, e.outer, alg, Tls12(e.body[..Min(8, |e.body|)]))
  }

  function Index(e: Event): nat
    requires e.Present? && !e.origin.Unsealed?
  {
    e.origin.index
  }

  // The counter a protected record is opened at.
  function CounterFor(st: Connection, e: Event): nat
    requires e.Present? && !e.origin.Unsealed?
  {
    if e.origin.Sealed13? then st.Dir(e.isUp).Seq(e.origin.generation) else st.Dir(e.isUp).seq12
  }

  // The record opened as what it is, with its secret logged and at its own sequence number.
  ghost predicate AsMeant(st: Connection, e: Event, r: Outcome)
    requires e.Present? && !e.origin.Unsealed?
  {
    && r == Ok(Meant(e)) && Keyed(st.clientRandom, e)
    && (CounterFor(st, e) < Pow256(8) ==> CounterFor(st, e) == Index(e))
  }

  // ----- one record -----

  predicate Opens13(c: Crypto, d: Direction, k: Keylog, random: Bytes, isUp: bool, body: Bytes, cand: Candidate) {
    var keys := FreshKey(c, k, random, isUp, cand.generation, cand.alg);
    keys.Some? && Open13(c, cand.alg, keys.value, d.Seq(cand.generation), body).Opened?
  }

  // The trial stops at the one candidate that opens.
  lemma {:induction false} PickFinds(c: Crypto, d: Direction, k: Keylog, random: Bytes, isUp: bool, body: Bytes,
                                     cands: seq<Candidate>, own: Candidate)
    requires own in cands && Opens13(c, d, k, random, isUp, body, own)
    requires forall cand :: cand in cands && Opens13(c, d, k, random, isUp, body, cand) ==> cand == own
    ensures var keys := FreshKey(c, k, random, isUp, own.generation, own.alg).value;
            var o := Open13(c, own.alg, keys, d.Seq(own.generation), body);
            Pick13(c, d, k, random, isUp, body, cands)
              == Ok(Decrypted(o.content, o.ctype, own.alg, Tls13(own.generation)))
    decreases |cands|
  {
    if cands[0] != own {
      assert cands[0] in cands;
      PickFinds(c, d, k, random, isUp, body, cands[1..], own);
    }
  }

  // Whatever the AEAD: the trial yields the first candidate in order that opens.
  lemma {:induction false} PickIsFirst(c: Crypto, d: Direction, k: Keylog, random: Bytes, isUp: bool, body: Bytes,
                                       cands: seq<Candidate>, i: nat)
    requires |body| >= 16 && i < |cands| && Opens13(c, d, k, random, isUp, body, cands[i])
    requires forall j :: 0 <= j < i ==> !Opens13(c, d, k, random, isUp, body, cands[j])
    ensures var g, alg := cands[i].generation, cands[i].alg;
            var o := Open13(c, alg, FreshKey(c, k, random, isUp, g, alg).value, d.Seq(g), body);
            Pick13(c, d, k, random, isUp, body, cands) == Ok(Decrypted(o.content, o.ctype, alg, Tls13(g)))
    decreases |cands|
  {
    if i > 0 {
      assert !Opens13(c, d, k, random, isUp, body, cands[0]);
      PickIsFirst(c, d, k, random, isUp, body, cands[1..], i - 1);
    }
  }

  // Handshake keys before application keys, and AES-128 before AES-256 before ChaCha20.
  function Rank(cand: Candidate): nat {
    (if cand.generation.Handshake? then 0 else 3)
    + (match cand.alg case Aes128Gcm => 0 case Aes256Gcm => 1 case ChaCha20Poly1305 => 2)
  }

  // So a record opens under the lowest-ranking TLS 1.3 candidate that opens it, and is tried under
  // TLS 1.2 only when none does.
  lemma TrialOrder(c: Crypto, st: Connection, k: Keylog, isUp: bool, outer: Byte, body: Bytes, first: Candidate)
    requires |body| >= 16 && Opens13(c, st.Dir(isUp), k, st.clientRandom, isUp, body, first)
    requires forall cand :: Rank(cand) < Rank(first) ==> !Opens13(c, st.Dir(isUp), k, st.clientRandom, isUp, body, cand)
    ensures var r := Resolve(c, st, k, isUp, outer, body);
            r.Ok? && r.record.alg == first.alg && r.record.version == Tls13(first.generation)
  {
    forall i | 0 <= i < 6
      ensures Rank(CANDIDATES[i]) == i
    {
    }
    assert CANDIDATES[Rank(first)] == first;
    PickIsFirst(c, st.Dir(isUp), k, st.clientRandom, isUp, body, CANDIDATES, Rank(first));
  }

  lemma {:induction false} PickFails(c: Crypto, d: Direction, k: Keylog, random: Bytes, isUp: bool, body: Bytes,
                                     cands: seq<Candidate>)
    requires forall cand :: cand in cands ==> !Opens13(c, d, k, random, isUp, body, cand)
    ensures !Pick13(c, d, k, random, isUp, body, cands).Ok?
    decreases |cands|
  {
    if cands != [] {
      assert cands[0] in cands;
      PickFails(c, d, k, random, isUp, body, cands[1..]);
    }
  }

  // Whatever opens under TLS 1.3 was sealed with the key, nonce and header it opened under.
  lemma OpenedWasSealed(c: Crypto, seals: iset<Seal>, d: Direction, k: Keylog, full: Keylog, random: Bytes, isUp: bool,
                        body: Bytes, cand: Candidate)
    requires Ideal(c, seals) && Agrees(k, full) && Opens13(c, d, k, random, isUp, body, cand)
    ensures var keys := FreshKey(c, full, random, isUp, cand.generation, cand.alg);
            keys.Some? && exists plain ::
              Seal(cand.alg, keys.value.key, Nonce13(keys.value.iv, d.Seq(cand.generation)), Aad13(|body|), plain,
                   body) in seals
  {
    var keys := FreshKey(c, k, random, isUp, cand.generation, cand.alg).value;
    var plain := c.open(cand.alg, keys.key, Nonce13(keys.iv, d.Seq(cand.generation)), Aad13(|body|), body).value;
    assert Seal(cand.alg, keys.key, Nonce13(keys.iv, d.Seq(cand.generation)), Aad13(|body|), plain, body) in seals;
  }

  // A genuine TLS 1.3 record opens under no candidate but its own, and there only at its number.
  lemma OnlyOwnOpens(c: Crypto, seals: iset<Seal>, full: Keylog, st: Connection, e: Event, cand: Candidate)
    requires Ideal(c, seals) && Separated(c, full, st.clientRandom)
    requires e.Present? && e.origin.Sealed13? && Agrees(e.keylog, full)
    requires Genuine(c, seals, full, st.clientRandom, st.serverRandom, e)
    requires Opens13(c, st.Dir(e.isUp), e.keylog, st.clientRandom, e.isUp, e.body, cand)
    ensures cand == Candidate(e.origin.generation, e.origin.alg)
    ensures CounterFor(st, e) < Pow256(8) ==> CounterFor(st, e) == Index(e)
  {
    var random := st.clientRandom;
    UnderOwnSeal(c, seals, full, st, e, cand);
    OwnSealOpens(c, full, random, st.serverRandom, e);
    GenerationsDiffer(c, full, random, e.isUp, cand.generation, e.origin.generation, cand.alg);
    if CounterFor(st, e) < Pow256(8) {
      NonceInjective(FreshKey(c, full, random, e.isUp, cand.generation, cand.alg).value.iv, CounterFor(st, e),
                     Index(e));
    }
  }

  // It can only have been opened under the algorithm, key and nonce of its own seal.
  lemma UnderOwnSeal(c: Crypto, seals: iset<Seal>, full: Keylog, st: Connection, e: Event, cand: Candidate)
    requires Ideal(c, seals)
    requires e.Present? && e.origin.Sealed13? && Agrees(e.keylog, full)
    requires Genuine(c, seals, full, st.clientRandom, st.serverRandom, e)
    requires Opens13(c, st.Dir(e.isUp), e.keylog, st.clientRandom, e.isUp, e.body, cand)
    ensures var own := OwnSeal(c, full, st.clientRandom, st.serverRandom, e).value;
            var keys := FreshKey(c, full, st.clientRandom, e.isUp, cand.generation, cand.alg);
            && keys.Some? && own.alg == cand.alg && own.key == keys.value.key
            && own.nonce == Nonce13(keys.value.iv, st.Dir(e.isUp).Seq(cand.generation))
  {
    OpenedWasSealed(c, seals, st.Dir(e.isUp), e.keylog, full, st.clientRandom, e.isUp, e.body, cand);
  }

  lemma GenerationsDiffer(c: Crypto, full: Keylog, random: Bytes, isUp: bool, g: Generation, h: Generation, alg: Alg)
    requires Separated(c, full, random)
    ensures var a, b := FreshKey(c, full, random, isUp, g, alg), FreshKey(c, full, random, isUp, h, alg);
            a.Some? && b.Some? && a.value.key == b.value.key ==> g == h
  {
    FreshKeysAreSenders(c, full, random, None, isUp, g, alg);
    FreshKeysAreSenders(c, full, random, None, isUp, h, alg);
  }

  // At its own number and with its secret logged, it opens to what was sealed.
  lemma OwnOpens(c: Crypto, seals: iset<Seal>, full: Keylog, st: Connection, e: Event)
    requires Ideal(c, seals)
    requires e.Present? && e.origin.Sealed13? && Agrees(e.keylog, full)
    requires Genuine(c, seals, full, st.clientRandom, st.serverRandom, e)
    requires Keyed(st.clientRandom, e) && CounterFor(st, e) == Index(e)
    ensures Opens13(c, st.Dir(e.isUp), e.keylog, st.clientRandom, e.isUp, e.body,
                    Candidate(e.origin.generation, e.origin.alg))
  {
    var seal := OwnSeal(c, full, st.clientRandom, st.serverRandom, e).value;
    NamesAreLabels(e.origin.generation, e.isUp);
    OwnSealOpens(c, full, st.clientRandom, st.serverRandom, e);
    UnpadRoundTrip(e.origin.content, e.origin.ctype, e.origin.padding);
    assert c.open(seal.alg, seal.key, seal.nonce, seal.aad, seal.ciphertext) == Some(seal.plain);
  }

  // Whatever opens under its own candidate at its own number reads as meant.
  lemma OwnReadsAsMeant(c: Crypto, seals: iset<Seal>, full: Keylog, st: Connection, e: Event)
    requires Ideal(c, seals)
    requires e.Present? && e.origin.Sealed13? && Agrees(e.keylog, full)
    requires Genuine(c, seals, full, st.clientRandom, st.serverRandom, e)
    requires Opens13(c, st.Dir(e.isUp), e.keylog, st.clientRandom, e.isUp, e.body,
                     Candidate(e.origin.generation, e.origin.alg))
    ensures var keys := FreshKey(c, e.keylog, st.clientRandom, e.isUp, e.origin.generation, e.origin.alg).value;
            Open13(c, e.origin.alg, keys, CounterFor(st, e), e.body) == Opened(e.origin.content, e.origin.ctype)
  {
    var g, alg := e.origin.generation, e.origin.alg;
    var keys := FreshKey(c, e.keylog, st.clientRandom, e.isUp, g, alg).value;
    var plain := c.open(alg, keys.key, Nonce13(keys.iv, CounterFor(st, e)), Aad13(|e.body|), e.body).value;
    assert Seal(alg, keys.key, Nonce13(keys.iv, CounterFor(st, e)), Aad13(|e.body|), plain, e.body) in seals;
    UnpadRoundTrip(e.origin.content, e.origin.ctype, e.origin.padding);
  }

  // A genuine TLS 1.3 record opens as itself or not at all, and only at its own sequence number.
  lemma Genuine13Outcome(c: Crypto, seals: iset<Seal>, full: Keylog, st: Connection, e: Event)
    requires Ideal(c, seals) && Separated(c, full, st.clientRandom)
    requires e.Present? && e.origin.Sealed13? && Agrees(e.keylog, full)
    requires Genuine(c, seals, full, st.clientRandom, st.serverRandom, e)
    ensures var r := Pick13(c, st.Dir(e.isUp), e.keylog, st.clientRandom, e.isUp, e.body, CANDIDATES);
            && (r.Ok? ==> AsMeant(st, e, r))
            && (Keyed(st.clientRandom, e) && CounterFor(st, e) == Index(e) ==> r.Ok?)
  {
    var d, random, k := st.Dir(e.isUp), st.clientRandom, e.keylog;
    var own := Candidate(e.origin.generation, e.origin.alg);
    forall cand | cand in CANDIDATES && Opens13(c, d, k, random, e.isUp, e.body, cand)
      ensures cand == own
    {
      OnlyOwnOpens(c, seals, full, st, e, cand);
    }
    if Opens13(c, d, k, random, e.isUp, e.body, own) {
      EveryCandidateIsTried(own);
      PickFinds(c, d, k, random, e.isUp, e.body, CANDIDATES, own);
      OnlyOwnOpens(c, seals, full, st, e, own);
      OwnReadsAsMeant(c, seals, full, st, e);
      NamesAreLabels(own.generation, e.isUp);
    } else {
      PickFails(c, d, k, random, e.isUp, e.body, CANDIDATES);
      if Keyed(random, e) && CounterFor(st, e) == Index(e) {
        OwnOpens(c, seals, full, st, e);
      }
    }
  }

  lemma EveryCandidateIsTried(cand: Candidate)
    ensures cand in CANDIDATES
  {
    assert CANDIDATES[(if cand.generation.Handshake? then 0 else 3)
                      + (if cand.alg.Aes128Gcm? then 0 else if cand.alg.Aes256Gcm? then 1 else 2)] == cand;
  }

  // Bytes that no TLS 1.3 seal produced open under no TLS 1.3 candidate.
  lemma UnsealedFails13(c: Crypto, seals: iset<Seal>, full: Keylog, d: Direction, random: Bytes, k: Keylog, isUp: bool,
                        body: Bytes)
    requires Ideal(c, seals) && Agrees(k, full) && OnlySeal(seals, body, None)
    ensures !Pick13(c, d, k, random, isUp, body, CANDIDATES).Ok?
  {
    forall cand | cand in CANDIDATES
      ensures !Opens13(c, d, k, random, isUp, body, cand)
    {
      if Opens13(c, d, k, random, isUp, body, cand) {
        OpenedWasSealed(c, seals, d, k, full, random, isUp, body, cand);
      }
    }
    PickFails(c, d, k, random, isUp, body, CANDIDATES);
  }

  function Plain12(c: Crypto, st: Connection, e: Event, alg: Alg): Option<Bytes>
    requires e.Present? && |e.body| >= 24
  {
    var keys := FreshKey12(c, e.keylog, st.clientRandom, st.serverRandom, e.isUp, alg);
    if keys.None? then None
    else Open12(c, alg, keys.value, st.Dir(e.isUp).seq12, e.outer, e.body[..8], e.body[8..])
  }

  lemma Resolve12Unfolds(c: Crypto, st: Connection, e: Event)
    requires e.Present?
    ensures var r := Resolve12(c, st, e.keylog, e.isUp, e.outer, e.body);
            r == (if st.serverRandom.None? || |st.clientRandom| != 32
                     || SecretFor(e.keylog, st.clientRandom, ClientRandom).None? then NoKey
                  else if |e.body| < 24 then AuthFailed
                  else if Plain12(c, st, e, Aes128Gcm).Some?
                  then Ok(Decrypted(Plain12(c, st, e, Aes128Gcm).value, e.outer, Aes128Gcm, Tls12(e.body[..8])))
                  else if Plain12(c, st, e, Aes256Gcm).Some?
                  then Ok(Decrypted(Plain12(c, st, e, Aes256Gcm).value, e.outer, Aes256Gcm, Tls12(e.body[..8])))
                  else NoKey)
  {
    if st.serverRandom.Some? && |e.body| >= 24 {
      var n, sr := st.Dir(e.isUp).seq12, st.serverRandom.value;
      assert ALGORITHMS12[1..] == [Aes256Gcm] && ALGORITHMS12[1..][1..] == [];
      assert Pick12(c, n, e.keylog, st.clientRandom, sr, e.isUp, e.outer, e.body, []) == NoKey;
    }
  }

  // Whatever opens under TLS 1.2 was sealed with the key, nonce and header it opened under.
  lemma Opened12WasSealed(c: Crypto, seals: iset<Seal>, full: Keylog, st: Connection, e: Event, alg: Alg)
    requires Ideal(c, seals) && e.Present? && |e.body| >= 24 && Agrees(e.keylog, full)
    requires Plain12(c, st, e, alg).Some?
    ensures var keys := FreshKey12(c, full, st.clientRandom, st.serverRandom, e.isUp, alg);
            keys.Some? &&
            Seal(alg, keys.value.key, Nonce12(keys.value.salt, e.body[..8]),
                 Aad12(st.Dir(e.isUp).seq12, e.outer, |e.body| - 24), Plain12(c, st, e, alg).value, e.body[8..])
            in seals
  {
  }

  lemma UnsealedFails12(c: Crypto, seals: iset<Seal>, full: Keylog, st: Connection, e: Event)
    requires Ideal(c, seals) && e.Present? && Agrees(e.keylog, full)
    requires |e.body| >= 24 ==> OnlySeal(seals, e.body[8..], None)
    ensures !Resolve12(c, st, e.keylog, e.isUp, e.outer, e.body).Ok?
  {
    Resolve12Unfolds(c, st, e);
    if |e.body| >= 24 {
      if Plain12(c, st, e, Aes128Gcm).Some? {
        Opened12WasSealed(c, seals, full, st, e, Aes128Gcm);
      }
      if Plain12(c, st, e, Aes256Gcm).Some? {
        Opened12WasSealed(c, seals, full, st, e, Aes256Gcm);
      }
    }
  }

  lemma Genuine12Opens(c: Crypto, seals: iset<Seal>, full: Keylog, st: Connection, e: Event, alg: Alg)
    requires Ideal(c, seals) && e.Present? && e.origin.Sealed12? && Agrees(e.keylog, full)
    requires Genuine(c, seals, full, st.clientRandom, st.serverRandom, e)
    requires Plain12(c, st, e, alg).Some?
    ensures alg == e.origin.alg && Plain12(c, st, e, alg).value == e.origin.content
    ensures CounterFor(st, e) < Pow256(8) ==> CounterFor(st, e) == Index(e)
  {
    Opened12WasSealed(c, seals, full, st, e, alg);
    OwnSealOpens(c, full, st.clientRandom, st.serverRandom, e);
    if CounterFor(st, e) < Pow256(8) {
      Aad12Injective(CounterFor(st, e), Index(e), e.outer, e.outer, |e.body| - 24, |e.body| - 24);
    }
  }

  // A genuine TLS 1.2 record opens as itself or not at all, and only at its own sequence number.
  lemma Genuine12Outcome(c: Crypto, seals: iset<Seal>, full: Keylog, st: Connection, e: Event)
    requires Ideal(c, seals)
    requires e.Present? && e.origin.Sealed12? && Agrees(e.keylog, full)
    requires Genuine(c, seals, full, st.clientRandom, st.serverRandom, e)
    ensures var r := Resolve12(c, st, e.keylog, e.isUp, e.outer, e.body);
            && (r.Ok? ==> AsMeant(st, e, r))
            && (Keyed(st.clientRandom, e) && CounterFor(st, e) == Index(e) ==> r.Ok?)
  {
    Resolve12Unfolds(c, st, e);
    NamesAreLabels(Application, e.isUp);
    OwnSealOpens(c, full, st.clientRandom, st.serverRandom, e);
    if Plain12(c, st, e, Aes128Gcm).Some? {
      Genuine12Opens(c, seals, full, st, e, Aes128Gcm);
    }
    if Plain12(c, st, e, Aes256Gcm).Some? {
      Genuine12Opens(c, seals, full, st, e, Aes256Gcm);
    }
    if Keyed(st.clientRandom, e) && CounterFor(st, e) == Index(e) {
      var seal := OwnSeal(c, full, st.clientRandom, st.serverRandom, e).value;
      assert c.open(seal.alg, seal.key, seal.nonce, seal.aad, seal.ciphertext) == Some(seal.plain);
      assert Plain12(c, st, e, e.origin.alg).Some?;
      assert e.origin.alg in [Aes128Gcm, Aes256Gcm];
    }
  }

  ghost predicate Explained(st: Connection, e: Event, r: Outcome)
    requires e.Present?
  {
    if e.origin.Unsealed? then !r.Ok?
    else
      && (r.Ok? ==> AsMeant(st, e, r))
      && (Keyed(st.clientRandom, e) && CounterFor(st, e) == Index(e) ==> r.Ok?)
  }

  // Any genuine record: opened only as what it is, at its own sequence number; opened for sure
  // when its secret is logged and its counter has come up; never opened when unsealed.
  lemma GenuineOutcome(c: Crypto, seals: iset<Seal>, full: Keylog, st: Connection, e: Event)
    requires Ideal(c, seals) && Separated(c, full, st.clientRandom)
    requires e.Present? && Agrees(e.keylog, full)
    requires Genuine(c, seals, full, st.clientRandom, st.serverRandom, e)
    ensures Explained(st, e, Resolve(c, st, e.keylog, e.isUp, e.outer, e.body))
  {
    match e.origin
    case Unsealed =>
      UnsealedFails13(c, seals, full, st.Dir(e.isUp), st.clientRandom, e.keylog, e.isUp, e.body);
      UnsealedFails12(c, seals, full, st, e);
    case Sealed13(_, _, _, _, _, _) =>
      Genuine13Outcome(c, seals, full, st, e);
      UnsealedFails12(c, seals, full, st, e);
    case Sealed12(_, _, _) =>
      UnsealedFails13(c, seals, full, st.Dir(e.isUp), st.clientRandom, e.keylog, e.isUp, e.body);
      Genuine12Outcome(c, seals, full, st, e);
  }

  // ----- whole runs -----

  ghost predicate GenuineRun(c: Crypto, seals: iset<Seal>, full: Keylog, st: Connection, evs: seq<Event>) {
    && Ideal(c, seals) && Separated(c, full, st.clientRandom) && CachesOk(c, st, full) && LogsAgree(evs, full)
    && forall i :: 0 <= i < |evs| && evs[i].Present? ==>
         Genuine(c, seals, full, st.clientRandom, Run(c, st, evs[..i]).st.serverRandom, evs[i])
  }

  predicate Counts(e: Event, isUp: bool, v: Version) {
    e.Present? && e.isUp == isUp &&
    match e.origin
    case Unsealed => false
    case Sealed13(g, _, _, _, _, _) => v == Tls13(g)
    case Sealed12(_, _, _) => v.Tls12?
  }

  // How many records of a generation (or of TLS 1.2) a direction has sent so far.
  function Sent(evs: seq<Event>, isUp: bool, v: Version): nat
    decreases |evs|
  {
    if evs == [] then 0
    else Sent(evs[..|evs| - 1], isUp, v) + if Counts(evs[|evs| - 1], isUp, v) then 1 else 0
  }

  const V12 := Tls12([])

  function VersionOf(e: Event): Version
    requires e.Present? && !e.origin.Unsealed?
  {
    if e.origin.Sealed13? then Tls13(e.origin.generation) else V12
  }

  // Each protected record carries the number of its predecessors.
  ghost predicate Numbered(evs: seq<Event>) {
    forall i :: 0 <= i < |evs| && evs[i].Present? && !evs[i].origin.Unsealed? ==>
      Index(evs[i]) == Sent(evs[..i], evs[i].isUp, VersionOf(evs[i]))
  }

  ghost predicate AllKeyed(evs: seq<Event>, random: Bytes) {
    forall i :: 0 <= i < |evs| && evs[i].Present? ==> Keyed(random, evs[i])
  }

  ghost predicate InOrder(evs: seq<Event>, random: Bytes) {
    Numbered(evs) && AllKeyed(evs, random)
  }

  ghost predicate CountersMatch(st: Connection, evs: seq<Event>) {
    forall isUp ::
      && st.Dir(isUp).seqHandshake == Sent(evs, isUp, Tls13(Handshake))
      && st.Dir(isUp).seqApplication == Sent(evs, isUp, Tls13(Application))
      && st.Dir(isUp).seq12 == Sent(evs, isUp, V12)
  }

  lemma {:induction false} RunKeepsRandom(c: Crypto, st: Connection, evs: seq<Event>)
    ensures Run(c, st, evs).st.clientRandom == st.clientRandom
    decreases |evs|
  {
    if evs != [] {
      RunKeepsRandom(c, st, evs[..|evs| - 1]);
    }
  }

  lemma GenuinePrefix(c: Crypto, seals: iset<Seal>, full: Keylog, st: Connection, evs: seq<Event>)
    requires evs != [] && GenuineRun(c, seals, full, st, evs)
    ensures GenuineRun(c, seals, full, st, evs[..|evs| - 1])
  {
    var init := evs[..|evs| - 1];
    forall i | 0 <= i < |init| && init[i].Present?
      ensures Genuine(c, seals, full, st.clientRandom, Run(c, st, init[..i]).st.serverRandom, init[i])
    {
      assert init[..i] == evs[..i] && init[i] == evs[i];
    }
  }

  // One presented record of a genuine run.
  lemma LastStep(c: Crypto, seals: iset<Seal>, full: Keylog, st: Connection, evs: seq<Event>)
    requires evs != [] && evs[|evs| - 1].Present? && GenuineRun(c, seals, full, st, evs)
    ensures var e, before := evs[|evs| - 1], Run(c, st, evs[..|evs| - 1]).st;
            var r := Run(c, st, evs).outcomes[|evs| - 1];
            && before.clientRandom == st.clientRandom
            && Moved(before, Run(c, st, evs).st, e.isUp, r)
            && Explained(before, e, r)
  {
    var n := |evs| - 1;
    var e, before := evs[n], Run(c, st, evs[..n]).st;
    assert e in evs;
    assert LogsAgree(evs[..n], full);
    RunKeepsRandom(c, st, evs[..n]);
    CachesStaySound(c, st, full, evs[..n]);
    DecryptIsResolve(c, before, e.keylog, full, e.isUp, e.outer, e.body);
    GenuineOutcome(c, seals, full, before, e);
  }

  // The outcome of a presented record is what its sender meant.
  ghost predicate Follows(e: Event, r: Outcome) {
    e.Present? ==> if e.origin.Unsealed? then !r.Ok? else r == Ok(Meant(e))
  }

  ghost predicate AllFollow(evs: seq<Event>, outs: seq<Outcome>) {
    |outs| == |evs| && forall i :: 0 <= i < |evs| ==> Follows(evs[i], outs[i])
  }

  // Decryption stays in step with in-order senders: every protected record opens to what was
  // sent, nothing else opens, and each counter is the number of records sent, however the
  // directions and generations interleave and whatever plaintext is mixed in.
  lemma {:induction false} StaysInStep(c: Crypto, seals: iset<Seal>, full: Keylog, random: Bytes, evs: seq<Event>)
    requires GenuineRun(c, seals, full, NewConnection(random), evs) && InOrder(evs, random)
    ensures var ran := Run(c, NewConnection(random), evs);
            CountersMatch(ran.st, evs) && AllFollow(evs, ran.outcomes)
    decreases |evs|
  {
    if evs != [] {
      var st, init := NewConnection(random), evs[..|evs| - 1];
      GenuinePrefix(c, seals, full, st, evs);
      InOrderPrefix(evs, random);
      StaysInStep(c, seals, full, random, init);
      var before, after, r := Run(c, st, init).st, Run(c, st, evs).st, Run(c, st, evs).outcomes[|evs| - 1];
      if evs[|evs| - 1].Present? {
        LastStep(c, seals, full, st, evs);
        CountersAdvance(before, after, evs, r);
      } else {
        LearnCountsNothing(before, after, evs);
      }
      OutcomesGrow(c, st, evs);
      AllFollowSnoc(evs, Run(c, st, init).outcomes, r);
    }
  }

  lemma InOrderPrefix(evs: seq<Event>, random: Bytes)
    requires evs != [] && InOrder(evs, random)
    ensures InOrder(evs[..|evs| - 1], random)
  {
    var init := evs[..|evs| - 1];
    assert forall i :: 0 <= i < |init| ==> init[i] == evs[i] && init[..i] == evs[..i];
  }

  lemma OutcomesGrow(c: Crypto, st: Connection, evs: seq<Event>)
    requires evs != []
    ensures var outs := Run(c, st, evs).outcomes;
            outs == Run(c, st, evs[..|evs| - 1]).outcomes + [outs[|evs| - 1]]
  {
  }

  lemma AllFollowSnoc(evs: seq<Event>, outs: seq<Outcome>, r: Outcome)
    requires evs != [] && AllFollow(evs[..|evs| - 1], outs) && Follows(evs[|evs| - 1], r)
    ensures AllFollow(evs, outs + [r])
  {
  }

  lemma LearnCountsNothing(before: Connection, after: Connection, evs: seq<Event>)
    requires evs != [] && evs[|evs| - 1].Learn? && CountersMatch(before, evs[..|evs| - 1])
    requires after.up == before.up && after.down == before.down
    ensures CountersMatch(after, evs)
  {
    assert forall isUp :: after.Dir(isUp) == before.Dir(isUp);
  }

  lemma CountersAdvance(before: Connection, after: Connection, evs: seq<Event>, r: Outcome)
    requires evs != [] && evs[|evs| - 1].Present? && CountersMatch(before, evs[..|evs| - 1])
    requires var e := evs[|evs| - 1];
             && Moved(before, after, e.isUp, r) && Explained(before, e, r) && Keyed(before.clientRandom, e)
             && (!e.origin.Unsealed? ==> Index(e) == Sent(evs[..|evs| - 1], e.isUp, VersionOf(e)))
    ensures CountersMatch(after, evs) && Follows(evs[|evs| - 1], r)
  {
    var e := evs[|evs| - 1];
    forall isUp
      ensures after.Dir(isUp).seqHandshake == Sent(evs, isUp, Tls13(Handshake))
      ensures after.Dir(isUp).seqApplication == Sent(evs, isUp, Tls13(Application))
      ensures after.Dir(isUp).seq12 == Sent(evs, isUp, V12)
    {
      if isUp == e.isUp {
        assert Counted(before.Dir(isUp), after.Dir(isUp), r);
      } else {
        assert after.Dir(isUp) == before.Dir(isUp);
      }
    }
  }

  // The counter of a generation, or of TLS 1.2, in one direction.
  function Counter(st: Connection, isUp: bool, v: Version): nat {
    if v.Tls13? then st.Dir(isUp).Seq(v.generation) else st.Dir(isUp).seq12
  }

  // A presented record moves the counter exactly when it counts for it and opens.
  lemma CounterStep(before: Connection, after: Connection, e: Event, r: Outcome, isUp: bool, v: Version)
    requires e.Present? && Moved(before, after, e.isUp, r) && Explained(before, e, r)
    ensures Counter(after, isUp, v) == Counter(before, isUp, v) + if Counts(e, isUp, v) && r.Ok? then 1 else 0
  {
    if e.isUp == isUp {
      assert Counted(before.Dir(isUp), after.Dir(isUp), r);
    } else {
      assert after.Dir(isUp) == before.Dir(isUp);
    }
  }

  // Every record of the generation (or of TLS 1.2) and direction opened.
  ghost predicate AllOpened(evs: seq<Event>, outs: seq<Outcome>, isUp: bool, v: Version) {
    |outs| == |evs| && forall i :: 0 <= i < |evs| && Counts(evs[i], isUp, v) ==> outs[i].Ok?
  }

  lemma AllOpenedSnoc(evs: seq<Event>, outs: seq<Outcome>, r: Outcome, isUp: bool, v: Version)
    requires evs != [] && |outs| == |evs| - 1
    ensures AllOpened(evs, outs + [r], isUp, v) <==>
            AllOpened(evs[..|evs| - 1], outs, isUp, v) && (Counts(evs[|evs| - 1], isUp, v) ==> r.Ok?)
  {
    var init, all := evs[..|evs| - 1], outs + [r];
    if AllOpened(evs, all, isUp, v) {
      forall i | 0 <= i < |init| && Counts(init[i], isUp, v)
        ensures outs[i].Ok?
      {
        assert init[i] == evs[i] && all[i] == outs[i];
      }
      assert all[|evs| - 1] == r;
    }
  }

  // A counter never runs ahead of the sender, and has kept up exactly if nothing was missed.
  lemma {:induction false} CounterTrailsSender(c: Crypto, seals: iset<Seal>, full: Keylog, random: Bytes,
                                               evs: seq<Event>, isUp: bool, v: Version)
    requires GenuineRun(c, seals, full, NewConnection(random), evs)
    ensures var ran := Run(c, NewConnection(random), evs);
            && Counter(ran.st, isUp, v) <= Sent(evs, isUp, v)
            && (Counter(ran.st, isUp, v) == Sent(evs, isUp, v) <==> AllOpened(evs, ran.outcomes, isUp, v))
    decreases |evs|
  {
    if evs != [] {
      var st, init, e := NewConnection(random), evs[..|evs| - 1], evs[|evs| - 1];
      GenuinePrefix(c, seals, full, st, evs);
      CounterTrailsSender(c, seals, full, random, init, isUp, v);
      var r := Run(c, st, evs).outcomes[|evs| - 1];
      if e.Present? {
        LastStep(c, seals, full, st, evs);
        CounterStep(Run(c, st, init).st, Run(c, st, evs).st, e, r, isUp, v);
      }
      OutcomesGrow(c, st, evs);
      AllOpenedSnoc(evs, Run(c, st, init).outcomes, r, isUp, v);
    }
  }

  lemma {:induction false} EarlierRun(c: Crypto, seals: iset<Seal>, full: Keylog, st: Connection, evs: seq<Event>,
                                      n: nat)
    requires n <= |evs| && GenuineRun(c, seals, full, st, evs)
    ensures GenuineRun(c, seals, full, st, evs[..n])
    ensures Run(c, st, evs[..n]).outcomes == Run(c, st, evs).outcomes[..n]
    decreases |evs|
  {
    if n == |evs| {
      assert evs[..n] == evs;
    } else {
      GenuinePrefix(c, seals, full, st, evs);
      EarlierRun(c, seals, full, st, evs[..|evs| - 1], n);
      assert evs[..|evs| - 1][..n] == evs[..n];
      OutcomesGrow(c, st, evs);
    }
  }

  ghost predicate Sealed(e: Event) {
    e.Present? && !e.origin.Unsealed?
  }

  // With senders that number their records, logged or not: a protected record opens exactly
  // when its secret is logged and every earlier one of its generation and direction opened.
  lemma OpensExactlyAfterItsPredecessors(c: Crypto, seals: iset<Seal>, full: Keylog, random: Bytes, evs: seq<Event>,
                                         j: nat)
    requires GenuineRun(c, seals, full, NewConnection(random), evs) && Numbered(evs)
    requires j < |evs| && Sealed(evs[j])
    ensures var outs := Run(c, NewConnection(random), evs).outcomes;
            outs[j].Ok? <==>
              Keyed(random, evs[j]) && AllOpened(evs[..j], outs[..j], evs[j].isUp, VersionOf(evs[j]))
  {
    var st, upto, e := NewConnection(random), evs[..j + 1], evs[j];
    EarlierRun(c, seals, full, st, evs, j);
    EarlierRun(c, seals, full, st, evs, j + 1);
    assert upto[..j] == evs[..j] && upto[j] == e;
    LastStep(c, seals, full, st, upto);
    CounterTrailsSender(c, seals, full, random, evs[..j], e.isUp, VersionOf(e));
    assert Genuine(c, seals, full, random, Run(c, st, evs[..j]).st.serverRandom, e);
    assert Index(e) == Sent(evs[..j], e.isUp, VersionOf(e));
    assert CounterFor(Run(c, st, evs[..j]).st, e) == Counter(Run(c, st, evs[..j]).st, e.isUp, VersionOf(e));
  }

  lemma {:induction false} CounterRests(c: Crypto, seals: iset<Seal>, full: Keylog, st: Connection, evs: seq<Event>,
                                        n: nat, isUp: bool, v: Version)
    requires GenuineRun(c, seals, full, st, evs) && n <= |evs|
    requires forall j :: n <= j < |evs| && Counts(evs[j], isUp, v) ==> !Run(c, st, evs).outcomes[j].Ok?
    ensures Counter(Run(c, st, evs).st, isUp, v) == Counter(Run(c, st, evs[..n]).st, isUp, v)
    decreases |evs|
  {
    if n == |evs| {
      assert evs[..n] == evs;
    } else {
      var init, e := evs[..|evs| - 1], evs[|evs| - 1];
      assert init[..n] == evs[..n];
      GenuinePrefix(c, seals, full, st, evs);
      OutcomesGrow(c, st, evs);
      CounterRests(c, seals, full, st, init, n, isUp, v);
      if e.Present? {
        LastStep(c, seals, full, st, evs);
        CounterStep(Run(c, st, init).st, Run(c, st, evs).st, e, Run(c, st, evs).outcomes[|evs| - 1], isUp, v);
      }
    }
  }

  // Once one protected record has been passed over unopened, no later one of its generation
  // and direction ever opens, and their counter stays where it was.
  lemma MissedRecordIsFatal(c: Crypto, seals: iset<Seal>, full: Keylog, random: Bytes, evs: seq<Event>, m: nat)
    requires GenuineRun(c, seals, full, NewConnection(random), evs) && Numbered(evs)
    requires m < |evs| && Sealed(evs[m]) && !Run(c, NewConnection(random), evs).outcomes[m].Ok?
    ensures var st, isUp, v := NewConnection(random), evs[m].isUp, VersionOf(evs[m]);
            && (forall j :: m < j < |evs| && Counts(evs[j], isUp, v) ==> !Run(c, st, evs).outcomes[j].Ok?)
            && Counter(Run(c, st, evs).st, isUp, v) == Counter(Run(c, st, evs[..m]).st, isUp, v)
  {
    var outs := Run(c, NewConnection(random), evs).outcomes;
    forall j | m < j < |evs| && Counts(evs[j], evs[m].isUp, VersionOf(evs[m]))
      ensures !outs[j].Ok?
    {
      OpensExactlyAfterItsPredecessors(c, seals, full, random, evs, j);
      assert evs[..j][m] == evs[m] && outs[..j][m] == outs[m];
    }
    CounterRests(c, seals, full, NewConnection(random), evs, m, evs[m].isUp, VersionOf(evs[m]));
  }

  // The records of a generation and direction up to the j-th event had their secret logged.
  ghost predicate KeyedUpTo(random: Bytes, evs: seq<Event>, j: nat, isUp: bool, v: Version)
    requires j < |evs|
  {
    forall i :: 0 <= i <= j && Counts(evs[i], isUp, v) ==> Keyed(random, evs[i])
  }

  // In closed form: a protected record opens exactly when it and every earlier one of its
  // generation and direction were presented with their secret logged.
  lemma {:induction false} OpensExactlyWhileKeyed(c: Crypto, seals: iset<Seal>, full: Keylog, random: Bytes,
                                                  evs: seq<Event>, j: nat)
    requires GenuineRun(c, seals, full, NewConnection(random), evs) && Numbered(evs)
    requires j < |evs| && Sealed(evs[j])
    ensures Run(c, NewConnection(random), evs).outcomes[j].Ok? <==>
            KeyedUpTo(random, evs, j, evs[j].isUp, VersionOf(evs[j]))
    decreases j
  {
    var outs, isUp, v := Run(c, NewConnection(random), evs).outcomes, evs[j].isUp, VersionOf(evs[j]);
    forall i | 0 <= i < j && Counts(evs[i], isUp, v)
      ensures outs[i].Ok? <==> KeyedUpTo(random, evs, i, isUp, v)
    {
      OpensExactlyWhileKeyed(c, seals, full, random, evs, i);
    }
    OpensExactlyAfterItsPredecessors(c, seals, full, random, evs, j);
    PredecessorsOpened(random, evs, outs, j, isUp, v);
  }

  lemma PredecessorsOpened(random: Bytes, evs: seq<Event>, outs: seq<Outcome>, j: nat, isUp: bool, v: Version)
    requires j < |evs| == |outs| && Counts(evs[j], isUp, v)
    requires forall i :: 0 <= i < j && Counts(evs[i], isUp, v) ==> (outs[i].Ok? <==> KeyedUpTo(random, evs, i, isUp, v))
    ensures KeyedUpTo(random, evs, j, isUp, v) <==> Keyed(random, evs[j]) && AllOpened(evs[..j], outs[..j], isUp, v)
  {
    if AllOpened(evs[..j], outs[..j], isUp, v) {
      forall i | 0 <= i < j && Counts(evs[i], isUp, v)
        ensures Keyed(random, evs[i])
      {
        assert evs[..j][i] == evs[i] && outs[..j][i] == outs[i];
        assert KeyedUpTo(random, evs, i, isUp, v);
      }
    }
  }
}
