// Trial decryption of TLS records, with per-generation sequence counters and key caches.
module Decryption {
  import opened Common
  import opened Keylogs
  import opened RecordProtection

  datatype Generation = Handshake | Application

  datatype Version = Tls13(generation: Generation) | Tls12(explicit: Bytes)

  datatype Decrypted = Decrypted(plaintext: Bytes, ctype: Byte, alg: Alg, version: Version)

  datatype Outcome = Ok(record: Decrypted) | NoKey | AuthFailed

  // One direction: the TLS 1.3 counters and key caches of both generations, and TLS 1.2's.
  datatype Direction = Direction(seqHandshake: nat, seqApplication: nat,
                                 keysHandshake: map<Alg, Keys13>, keysApplication: map<Alg, Keys13>,
                                 seq12: nat, keys12: map<Alg, Keys12>)
  {
    function Seq(g: Generation): nat {
      if g.Handshake? then seqHandshake else seqApplication
    }

    function Cache(g: Generation): map<Alg, Keys13> {
      if g.Handshake? then keysHandshake else keysApplication
    }

    function WithCache(g: Generation, m: map<Alg, Keys13>): Direction {
      if g.Handshake? then this.(keysHandshake := m) else this.(keysApplication := m)
    }

    function Advance(g: Generation): Direction {
      if g.Handshake? then this.(seqHandshake := seqHandshake + 1)
      else this.(seqApplication := seqApplication + 1)
    }
  }

  const NEW_DIRECTION := Direction(0, 0, map[], map[], 0, map[])

  datatype Connection = Connection(clientRandom: Bytes, serverRandom: Option<Bytes>, up: Direction, down: Direction)
  {
    function Dir(isUp: bool): Direction {
      if isUp then up else down
    }

    function WithDir(isUp: bool, d: Direction): Connection {
      if isUp then this.(up := d) else this.(down := d)
    }
  }

  function NewConnection(clientRandom: Bytes): Connection {
    Connection(clientRandom, None, NEW_DIRECTION, NEW_DIRECTION)
  }

  // First call wins; the second result tells whether this was it.
  function SetServerRandom(st: Connection, random: Bytes): (Connection, bool) {
    if st.serverRandom.None? then (st.(serverRandom := Some(random)), true) else (st, false)
  }

  function LabelFor(g: Generation, isClient: bool): Label {
    match (g, isClient)
    case (Handshake, true) => ClientHandshakeTrafficSecret
    case (Handshake, false) => ServerHandshakeTrafficSecret
    case (Application, true) => ClientTrafficSecret0
    case (Application, false) => ServerTrafficSecret0
  }

  // ----- TLS 1.3 trials -----

  datatype Candidate = Candidate(generation: Generation, alg: Alg)

  const ALGORITHMS: seq<Alg> := [Aes128Gcm, Aes256Gcm, ChaCha20Poly1305]

  const GENERATIONS: seq<Generation> := [Handshake, Application]

  const CANDIDATES: seq<Candidate> :=
    [Candidate(Handshake, Aes128Gcm), Candidate(Handshake, Aes256Gcm), Candidate(Handshake, ChaCha20Poly1305),
     Candidate(Application, Aes128Gcm), Candidate(Application, Aes256Gcm), Candidate(Application, ChaCha20Poly1305)]

  // Needs the secret to be logged now; a key cached earlier is then reused, else derived and cached.
  function KeysFor(c: Crypto, d: Direction, k: Keylog, random: Bytes, isUp: bool, cand: Candidate)
    : (Direction, Option<Keys13>)
  {
    var secret := SecretFor(k, random, LabelFor(cand.generation, isUp));
    if secret.None? then (d, None)
    else
      var cache := d.Cache(cand.generation);
      if cand.alg in cache then (d, Some(cache[cand.alg]))
      else
        var keys := Derive13(c, secret.value, cand.alg);
        if keys.None? then (d, None)
        else (d.WithCache(cand.generation, cache[cand.alg := keys.value]), keys)
  }

  // The candidates in the order of the two nested loops.
  lemma CandidateAt(i: nat, j: nat)
    requires i < 2 && j < 3
    ensures var here := CANDIDATES[3 * i + j..];
            && here != [] && here[0] == Candidate(GENERATIONS[i], ALGORITHMS[j])
            && here[1..] == CANDIDATES[3 * i + j + 1..]
  {
  }

  function Try13(c: Crypto, d: Direction, k: Keylog, random: Bytes, isUp: bool, body: Bytes, cands: seq<Candidate>)
    : (Direction, Outcome)
    decreases |cands|
  {
    if cands == [] then (d, NoKey)
    else
      var (d1, keys) := KeysFor(c, d, k, random, isUp, cands[0]);
      if keys.None? then Try13(c, d1, k, random, isUp, body, cands[1..])
      else
        var g := cands[0].generation;
        match Open13(c, cands[0].alg, keys.value, d.Seq(g), body)
        case Opened(content, ctype) =>
          (d1.Advance(g), Ok(Decrypted(content, ctype, cands[0].alg, Tls13(g))))
        case Rejected => Try13(c, d1, k, random, isUp, body, cands[1..])
        case TooShort => (d1, AuthFailed)
  }

  // One candidate: the direction after it, and the outcome if it settles the record.
  function OneTrial(c: Crypto, d: Direction, k: Keylog, random: Bytes, isUp: bool, body: Bytes, cand: Candidate)
    : (Direction, Option<Outcome>)
  {
    var (d1, keys) := KeysFor(c, d, k, random, isUp, cand);
    if keys.None? then (d1, None)
    else
      match Open13(c, cand.alg, keys.value, d.Seq(cand.generation), body)
      case Opened(content, ctype) =>
        (d1.Advance(cand.generation), Some(Ok(Decrypted(content, ctype, cand.alg, Tls13(cand.generation)))))
      case Rejected => (d1, None)
      case TooShort => (d1, Some(AuthFailed))
  }

  lemma TrialUnfolds(c: Crypto, d: Direction, k: Keylog, random: Bytes, isUp: bool, body: Bytes, cands: seq<Candidate>)
    requires cands != []
    ensures var (d1, r) := OneTrial(c, d, k, random, isUp, body, cands[0]);
            Try13(c, d, k, random, isUp, body, cands)
            == if r.Some? then (d1, r.value) else Try13(c, d1, k, random, isUp, body, cands[1..])
  {
  }

  // ----- TLS 1.2 trials -----

  const ALGORITHMS12: seq<Alg> := [Aes128Gcm, Aes256Gcm]

  function Keys12For(c: Crypto, d: Direction, master: Bytes, cr: Bytes, sr: Bytes, isUp: bool, alg: Alg)
    : (Direction, Keys12)
  {
    if alg in d.keys12 then (d, d.keys12[alg])
    else
      var keys := Derive12(c, master, cr, sr, alg, isUp);
      (d.(keys12 := d.keys12[alg := keys]), keys)
  }

  function Try12(c: Crypto, d: Direction, master: Bytes, cr: Bytes, sr: Bytes, isUp: bool,
                 outer: Byte, body: Bytes, algs: seq<Alg>): (Direction, Outcome)
    requires |body| >= 24
    decreases |algs|
  {
    if algs == [] then (d, NoKey)
    else
      var (d1, keys) := Keys12For(c, d, master, cr, sr, isUp, algs[0]);
      var plain := Open12(c, algs[0], keys, d.seq12, outer, body[..8], body[8..]);
      if plain.Some? then
        (d1.(seq12 := d1.seq12 + 1), Ok(Decrypted(plain.value, outer, algs[0], Tls12(body[..8]))))
      else Try12(c, d1, master, cr, sr, isUp, outer, body, algs[1..])
  }

  function DecryptTls12(c: Crypto, st: Connection, k: Keylog, isUp: bool, outer: Byte, body: Bytes)
    : (Connection, Outcome)
  {
    var master := SecretFor(k, st.clientRandom, ClientRandom);
    if st.serverRandom.None? || |st.clientRandom| != 32 || master.None? then (st, NoKey)
    else if |body| < 24 then (st, AuthFailed)
    else
      var (d, r) := Try12(c, st.Dir(isUp), master.value, st.clientRandom, st.serverRandom.value, isUp,
                          outer, body, ALGORITHMS12);
      (st.WithDir(isUp, d), r)
  }

  // Every TLS 1.3 generation and algorithm first, then TLS 1.2.
  function Decrypt(c: Crypto, st: Connection, k: Keylog, isUp: bool, outer: Byte, body: Bytes): (Connection, Outcome) {
    var (d, r) := Try13(c, st.Dir(isUp), k, st.clientRandom, isUp, body, CANDIDATES);
    if r.Ok? then (st.WithDir(isUp, d), r)
    else DecryptTls12(c, st.WithDir(isUp, d), k, isUp, outer, body)
  }

  // ----- hello messages -----

  const CLIENT_HELLO: Byte := 1
  const SERVER_HELLO: Byte := 2

  // The 32-byte random of an unencrypted hello of the given handshake type.
  function HelloRandom(body: Bytes, kind: Byte): (r: Option<Bytes>)
    ensures r.Some? <==> |body| >= 38 && body[0] == kind
    ensures r.Some? ==> r.value == body[6..38]
  {
    if |body| < 38 || body[0] != kind then None else Some(body[6..38])
  }

  // A handshake message as sent: its type, a three-byte length, the protocol version, then the
  // random and the rest of the hello.
  function HelloMessage(kind: Byte, length: Bytes, version: Bytes, random: Bytes, rest: Bytes): Bytes {
    [kind] + length + version + random + rest
  }

  // The random is recovered from any message of the wanted type, and from no other.
  lemma HelloRandomRoundTrip(wanted: Byte, kind: Byte, length: Bytes, version: Bytes, random: Bytes, rest: Bytes)
    requires |length| == 3 && |version| == 2 && |random| == 32
    ensures HelloRandom(HelloMessage(kind, length, version, random, rest), wanted)
         == if kind == wanted then Some(random) else None
  {
    var body := HelloMessage(kind, length, version, random, rest);
    assert body[6..38] == random;
  }

  // ----- the object -----

  class ConnectionState {
    const clientRandom: Bytes
    var serverRandom: Option<Bytes>
    var up: Direction
    var down: Direction

    ghost function Abstract(): Connection
      reads this
    {
      Connection(clientRandom, serverRandom, up, down)
    }

    constructor (clientRandom: Bytes)
      ensures Abstract() == NewConnection(clientRandom)
    {
      this.clientRandom := clientRandom;
      serverRandom, up, down := None, NEW_DIRECTION, NEW_DIRECTION;
    }

    method LearnServerRandom(random: Bytes) returns (learned: bool)
      modifies this`serverRandom
      ensures (Abstract(), learned) == SetServerRandom(old(Abstract()), random)
    {
      learned := serverRandom.None?;
      if learned {
        serverRandom := Some(random);
      }
    }

    method Process(c: Crypto, k: Keylog, isUp: bool, outer: Byte, body: Bytes) returns (r: Outcome)
      modifies this`up, this`down
      ensures (Abstract(), r) == Decrypt(c, old(Abstract()), k, isUp, outer, body)
    {
      r := Process13(c, k, isUp, body);
      if !r.Ok? {
        r := Process12(c, k, isUp, outer, body);
      }
    }

    method StoreDirection(isUp: bool, d: Direction)
      modifies this`up, this`down
      ensures Abstract() == old(Abstract()).WithDir(isUp, d)
    {
      if isUp {
        up := d;
      } else {
        down := d;
      }
    }

    method Process13(c: Crypto, k: Keylog, isUp: bool, body: Bytes) returns (r: Outcome)
      modifies this`up, this`down
      ensures var (d, o) := Try13(c, old(Abstract()).Dir(isUp), k, clientRandom, isUp, body, CANDIDATES);
              r == o && Abstract() == old(Abstract()).WithDir(isUp, d)
    {
      var d := if isUp then up else down;
      ghost var goal := Try13(c, d, k, clientRandom, isUp, body, CANDIDATES);
      for i := 0 to 2
        invariant goal == Try13(c, d, k, clientRandom, isUp, body, CANDIDATES[3 * i..])
        invariant Abstract() == old(Abstract())
      {
        var g := GENERATIONS[i];
        for j := 0 to 3
          invariant goal == Try13(c, d, k, clientRandom, isUp, body, CANDIDATES[3 * i + j..])
          invariant Abstract() == old(Abstract())
        {
          CandidateAt(i, j);
          TrialUnfolds(c, d, k, clientRandom, isUp, body, CANDIDATES[3 * i + j..]);
          var settled;
          d, settled := TryCandidate(c, k, d, isUp, body, Candidate(g, ALGORITHMS[j]));
          if settled.Some? {
            StoreDirection(isUp, d);
            return settled.value;
          }
        }
      }
      StoreDirection(isUp, d);
      return NoKey;
    }

    method TryCandidate(c: Crypto, k: Keylog, d: Direction, isUp: bool, body: Bytes, cand: Candidate)
      returns (d1: Direction, settled: Option<Outcome>)
      ensures (d1, settled) == OneTrial(c, d, k, clientRandom, isUp, body, cand)
    {
      var n := d.Seq(cand.generation);
      var keyed := KeysFor(c, d, k, clientRandom, isUp, cand);
      d1, settled := keyed.0, None;
      if keyed.1.Some? {
        match Open13(c, cand.alg, keyed.1.value, n, body) {
          case Opened(content, ctype) =>
            d1 := d1.Advance(cand.generation);
            settled := Some(Ok(Decrypted(content, ctype, cand.alg, Tls13(cand.generation))));
          case Rejected =>
          case TooShort => settled := Some(AuthFailed);
        }
      }
    }

    method Process12(c: Crypto, k: Keylog, isUp: bool, outer: Byte, body: Bytes) returns (r: Outcome)
      modifies this`up, this`down
      ensures (Abstract(), r) == DecryptTls12(c, old(Abstract()), k, isUp, outer, body)
    {
      var master := SecretFor(k, clientRandom, ClientRandom);
      if serverRandom.None? || |clientRandom| != 32 || master.None? {
        return NoKey;
      }
      if |body| < 24 {
        return AuthFailed;
      }
      var d := if isUp then up else down;
      ghost var goal := Try12(c, d, master.value, clientRandom, serverRandom.value, isUp, outer, body, ALGORITHMS12);
      for i := 0 to 2
        invariant goal == Try12(c, d, master.value, clientRandom, serverRandom.value, isUp, outer, body,
                                ALGORITHMS12[i..])
        invariant Abstract() == old(Abstract())
      {
        assert ALGORITHMS12[i..][0] == ALGORITHMS12[i] && ALGORITHMS12[i..][1..] == ALGORITHMS12[i + 1..];
        var n := d.seq12;
        var keyed := Keys12For(c, d, master.value, clientRandom, serverRandom.value, isUp, ALGORITHMS12[i]);
        d := keyed.0;
        var plain := Open12(c, ALGORITHMS12[i], keyed.1, n, outer, body[..8], body[8..]);
        if plain.Some? {
          StoreDirection(isUp, d.(seq12 := d.seq12 + 1));
          return Ok(Decrypted(plain.value, outer, ALGORITHMS12[i], Tls12(body[..8])));
        }
      }
      StoreDirection(isUp, d);
      return NoKey;
    }
  }
}
