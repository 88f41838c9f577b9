// Nonces, associated data, padding and key derivation of TLS 1.3 and TLS 1.2 records.
// The AEAD, HKDF and HMAC primitives are parameters.
module RecordProtection {
  import opened Common

  datatype Alg = Aes128Gcm | Aes256Gcm | ChaCha20Poly1305

  datatype Hash = Sha256 | Sha384

  type Iv = s: Bytes | |s| == 12 witness seq(12, _ => 0)

  type Salt = s: Bytes | |s| == 4 witness seq(4, _ => 0)

  type Digest = s: Bytes | s != [] witness [0]

  // `open` decrypts and checks (algorithm, key, nonce, associated data, ciphertext); `expand` is
  // HKDF-Expand-Label with an empty context (hash, secret, label, length), as the octets at each
  // place, None on a secret of the wrong length for the hash.
  datatype Crypto = Crypto(
    open: (Alg, Bytes, Bytes, Bytes, Bytes) -> Option<Bytes>,
    expand: (Hash, Bytes, string, nat) -> Option<nat -> Byte>,
    hmac: (Hash, Bytes, Bytes) -> Digest)

  function KeyLength(alg: Alg): nat {
    match alg
    case Aes128Gcm => 16
    case Aes256Gcm => 32
    case ChaCha20Poly1305 => 32
  }

  // ----- big-endian integers and exclusive or -----

  // The low-order n octets of v, most significant first.
  function BigEndian(v: nat, n: nat): (b: Bytes)
    ensures |b| == n
  {
    if n == 0 then [] else BigEndian(v / 256, n - 1) + [v % 256]
  }

  function Pow256(n: nat): nat {
    if n == 0 then 1 else 256 * Pow256(n - 1)
  }

  lemma {:induction false} BigEndianInjective(v: nat, w: nat, n: nat)
    requires v < Pow256(n) && w < Pow256(n)
    requires BigEndian(v, n) == BigEndian(w, n)
    ensures v == w
  {
    if n > 0 {
      var a, b := BigEndian(v, n), BigEndian(w, n);
      assert a[..n - 1] == BigEndian(v / 256, n - 1) && b[..n - 1] == BigEndian(w / 256, n - 1);
      assert a[n - 1] == v % 256 && b[n - 1] == w % 256;
      BigEndianInjective(v / 256, w / 256, n - 1);
    }
  }

  // Bitwise exclusive or.
  function Xor(a: nat, b: nat): nat {
    if a == 0 && b == 0 then 0 else 2 * Xor(a / 2, b / 2) + (a + b) % 2
  }

  function Pow2(n: nat): nat {
    if n == 0 then 1 else 2 * Pow2(n - 1)
  }

  lemma {:induction false} XorBound(a: nat, b: nat, n: nat)
    requires a < Pow2(n) && b < Pow2(n)
    ensures Xor(a, b) < Pow2(n)
  {
    if n > 0 {
      XorBound(a / 2, b / 2, n - 1);
    }
  }

  lemma {:induction false} XorParts(a: nat, b: nat)
    ensures Xor(a, b) / 2 == Xor(a / 2, b / 2) && Xor(a, b) % 2 == (a + b) % 2
  {
  }

  lemma SameParity(a: nat, b: nat, w: nat)
    requires w % 2 == (a + b) % 2
    ensures (a + w) % 2 == b % 2
  {
  }

  lemma {:induction false} XorCancel(a: nat, b: nat)
    ensures Xor(a, Xor(a, b)) == b
    decreases a + b
  {
    if a != 0 || b != 0 {
      XorCancel(a / 2, b / 2);
      XorParts(a, b);
      XorParts(a, Xor(a, b));
      SameParity(a, b, Xor(a, b));
    }
  }

  function XorByte(a: Byte, b: Byte): Byte {
    assert Pow2(8) == 256 by { assert Pow2(4) == 16; }
    XorBound(a, b, 8);
    Xor(a, b)
  }

  // ----- TLS 1.3 -----

  function Nonce13(iv: Iv, n: nat): Iv {
    iv[..4] + seq(8, i requires 0 <= i < 8 => XorByte(iv[4 + i], BigEndian(n, 8)[i]))
  }

  // The loop that folds the sequence number into the static IV, in place.
  method NonceInPlace(nonce: array<Byte>, n: nat)
    requires nonce.Length == 12
    modifies nonce
    ensures nonce[..] == Nonce13(old(nonce[..]), n)
  {
    var seqBytes := BigEndian(n, 8);
    for i := 0 to 8
      invariant forall j :: 0 <= j < 4 + i ==> nonce[j] == Nonce13(old(nonce[..]), n)[j]
      invariant forall j :: 4 + i <= j < 12 ==> nonce[j] == old(nonce[j])
    {
      nonce[4 + i] := XorByte(nonce[4 + i], seqBytes[i]);
    }
  }

  // Two sequence numbers below 2^64 never share a nonce.
  lemma NonceInjective(iv: Iv, m: nat, n: nat)
    requires m < Pow256(8) && n < Pow256(8)
    requires Nonce13(iv, m) == Nonce13(iv, n)
    ensures m == n
  {
    var a, b := BigEndian(m, 8), BigEndian(n, 8);
    forall i | 0 <= i < 8
      ensures a[i] == b[i]
    {
      assert Nonce13(iv, m)[4 + i] == XorByte(iv[4 + i], a[i]);
      assert Nonce13(iv, n)[4 + i] == XorByte(iv[4 + i], b[i]);
      XorCancel(iv[4 + i], a[i]);
      XorCancel(iv[4 + i], b[i]);
    }
    BigEndianInjective(m, n, 8);
  }

  function Aad13(length: nat): Bytes {
    [0x17, 0x03, 0x03] + BigEndian(length, 2)
  }

  function Zeros(n: nat): Bytes {
    seq(n, _ => 0)
  }

  // Content, its type, then zero padding.
  function InnerPlaintext(content: Bytes, ctype: Byte, padding: nat): Bytes {
    content + [ctype] + Zeros(padding)
  }

  function StripZeros(s: Bytes): Bytes {
    if s != [] && s[|s| - 1] == 0 then StripZeros(s[..|s| - 1]) else s
  }

  // The content and type of an inner plaintext; None when every byte is zero.
  function Unpad(s: Bytes): Option<(Bytes, Byte)> {
    var t := StripZeros(s);
    if t == [] then None else Some((t[..|t| - 1], t[|t| - 1]))
  }

  // The loop that pops trailing zeros and then the type byte.
  method PopPadding(s: Bytes) returns (r: Option<(Bytes, Byte)>)
    ensures r == Unpad(s)
  {
    var inner := s;
    while inner != [] && inner[|inner| - 1] == 0
      invariant StripZeros(inner) == StripZeros(s)
      decreases |inner|
    {
      inner := inner[..|inner| - 1];
    }
    if inner == [] {
      return None;
    }
    return Some((inner[..|inner| - 1], inner[|inner| - 1]));
  }

  // Unpadding recovers content and type for every content and padding, exactly for nonzero types.
  lemma {:induction false} UnpadRoundTrip(content: Bytes, ctype: Byte, padding: nat)
    ensures Unpad(InnerPlaintext(content, ctype, padding)) == Some((content, ctype)) <==> ctype != 0
  {
    var s := InnerPlaintext(content, ctype, padding);
    if padding > 0 {
      UnpadRoundTrip(content, ctype, padding - 1);
      assert s[..|s| - 1] == InnerPlaintext(content, ctype, padding - 1);
    } else {
      assert s == content + [ctype];
      assert s[..|s| - 1] == content;
      if ctype == 0 {
        StripZerosShrinks(content);
      }
    }
  }

  lemma {:induction false} StripZerosShrinks(s: Bytes)
    ensures |StripZeros(s)| <= |s|
    ensures StripZeros(s) != [] ==> StripZeros(s)[|StripZeros(s)| - 1] != 0
    ensures s == StripZeros(s) + Zeros(|s| - |StripZeros(s)|)
  {
    if s != [] && s[|s| - 1] == 0 {
      StripZerosShrinks(s[..|s| - 1]);
      assert s == s[..|s| - 1] + [0];
    }
  }

  // Conversely, whatever unpads is the padding of what it unpads to.
  lemma UnpadIsPadding(s: Bytes)
    requires Unpad(s).Some?
    ensures var (content, ctype) := Unpad(s).value;
            ctype != 0 && |content| < |s| && s == InnerPlaintext(content, ctype, |s| - |content| - 1)
  {
    StripZerosShrinks(s);
    var t := StripZeros(s);
    assert t == t[..|t| - 1] + [t[|t| - 1]];
  }

  datatype Keys13 = Keys13(key: Bytes, iv: Iv)

  function ExpandLabel(c: Crypto, hash: Hash, secret: Bytes, tag: string, length: nat): (r: Option<Bytes>)
    ensures r.Some? ==> |r.value| == length
  {
    var octets := c.expand(hash, secret, tag, length);
    if octets.None? then None else Some(seq(length, i requires 0 <= i < length => octets.value(i)))
  }

  function HashOf(alg: Alg): Hash {
    if alg.Aes256Gcm? then Sha384 else Sha256
  }

  function Derive13(c: Crypto, secret: Bytes, alg: Alg): Option<Keys13> {
    var key := ExpandLabel(c, HashOf(alg), secret, "key", KeyLength(alg));
    var iv := ExpandLabel(c, HashOf(alg), secret, "iv", 12);
    if key.Some? && iv.Some? then Some(Keys13(key.value, iv.value)) else None
  }

  datatype Opened13 = TooShort | Rejected | Opened(content: Bytes, ctype: Byte)

  function Open13(c: Crypto, alg: Alg, keys: Keys13, n: nat, body: Bytes): Opened13 {
    if |body| < 16 then TooShort
    else
      var inner := c.open(alg, keys.key, Nonce13(keys.iv, n), Aad13(|body|), body);
      if inner.None? then Rejected
      else
        var u := Unpad(inner.value);
        if u.None? then Rejected else Opened(u.value.0, u.value.1)
  }

  // ----- TLS 1.2 -----

  function Nonce12(salt: Salt, explicit: Bytes): Bytes {
    salt + explicit
  }

  function Aad12(n: nat, ctype: Byte, length: nat): Bytes {
    BigEndian(n, 8) + [ctype, 0x03, 0x03] + BigEndian(length, 2)
  }

  lemma Aad12Injective(m: nat, n: nat, s: Byte, t: Byte, j: nat, k: nat)
    requires m < Pow256(8) && n < Pow256(8)
    requires Aad12(m, s, j) == Aad12(n, t, k)
    ensures m == n
  {
    assert Aad12(m, s, j)[..8] == BigEndian(m, 8);
    assert Aad12(n, t, k)[..8] == BigEndian(n, 8);
    BigEndianInjective(m, n, 8);
  }

  // A(i) of the TLS 1.2 pseudo-random function: the seed under i applications of HMAC.
  function Chain(c: Crypto, hash: Hash, secret: Bytes, seed: Bytes, i: nat): Bytes {
    if i == 0 then seed else c.hmac(hash, secret, Chain(c, hash, secret, seed, i - 1))
  }

  // The first k blocks of P_hash.
  function Blocks(c: Crypto, hash: Hash, secret: Bytes, seed: Bytes, k: nat): (b: Bytes)
    ensures |b| >= k
  {
    if k == 0 then []
    else Blocks(c, hash, secret, seed, k - 1) + c.hmac(hash, secret, Chain(c, hash, secret, seed, k) + seed)
  }

  // P_hash: the first `length` bytes of the unbounded block stream.
  function PHash(c: Crypto, hash: Hash, secret: Bytes, seed: Bytes, length: nat): Bytes {
    Blocks(c, hash, secret, seed, length)[..length]
  }

  lemma {:induction false} BlocksArePrefixes(c: Crypto, hash: Hash, secret: Bytes, seed: Bytes, j: nat, k: nat)
    requires j <= k
    ensures Blocks(c, hash, secret, seed, j) <= Blocks(c, hash, secret, seed, k)
    decreases k
  {
    if j < k {
      BlocksArePrefixes(c, hash, secret, seed, j, k - 1);
    }
  }

  method ComputePHash(c: Crypto, hash: Hash, secret: Bytes, seed: Bytes, length: nat) returns (result: Bytes)
    ensures result == PHash(c, hash, secret, seed, length)
  {
    result := [];
    var a: Bytes := c.hmac(hash, secret, seed);
    ghost var k: nat := 0;
    while |result| < length
      invariant result == Blocks(c, hash, secret, seed, k) && a == Chain(c, hash, secret, seed, k + 1)
      decreases length - |result|
    {
      result := result + c.hmac(hash, secret, a + seed);
      a := c.hmac(hash, secret, a);
      k := k + 1;
    }
    BlocksArePrefixes(c, hash, secret, seed, k, if k <= length then length else k);
    BlocksArePrefixes(c, hash, secret, seed, length, if k <= length then length else k);
    result := result[..length];
  }

  // Asking for fewer bytes yields a prefix of asking for more.
  lemma PHashIsOneStream(c: Crypto, hash: Hash, secret: Bytes, seed: Bytes, m: nat, n: nat)
    requires m <= n
    ensures PHash(c, hash, secret, seed, m) == PHash(c, hash, secret, seed, n)[..m]
  {
    BlocksArePrefixes(c, hash, secret, seed, m, n);
  }

  datatype Keys12 = Keys12(key: Bytes, salt: Salt)

  const KEY_EXPANSION: Bytes := [107, 101, 121, 32, 101, 120, 112, 97, 110, 115, 105, 111, 110]

  function KeyBlock(c: Crypto, master: Bytes, clientRandom: Bytes, serverRandom: Bytes, alg: Alg): Bytes {
    PHash(c, HashOf(alg), master,
          KEY_EXPANSION + serverRandom + clientRandom, 2 * KeyLength(alg) + 8)
  }

  // client_write_key || server_write_key || client_write_IV || server_write_IV
  function Derive12(c: Crypto, master: Bytes, clientRandom: Bytes, serverRandom: Bytes, alg: Alg,
                    isClient: bool): Keys12 {
    var block := KeyBlock(c, master, clientRandom, serverRandom, alg);
    var k := KeyLength(alg);
    if isClient then Keys12(block[..k], block[2 * k..2 * k + 4])
    else Keys12(block[k..2 * k], block[2 * k + 4..])
  }

  // The two directions' keys and salts are disjoint parts that together exhaust the key block.
  lemma DirectionsPartitionKeyBlock(c: Crypto, master: Bytes, cr: Bytes, sr: Bytes, alg: Alg)
    ensures var u, d := Derive12(c, master, cr, sr, alg, true), Derive12(c, master, cr, sr, alg, false);
            u.key + d.key + u.salt + d.salt == KeyBlock(c, master, cr, sr, alg)
            && |u.key| == |d.key| == KeyLength(alg)
  {
    var block, k := KeyBlock(c, master, cr, sr, alg), KeyLength(alg);
    assert k == 16 || k == 32;
    assert |block| == 2 * k + 8;
    assert block[..k] + block[k..2 * k] == block[..2 * k];
    assert block[..2 * k] + block[2 * k..2 * k + 4] == block[..2 * k + 4];
    assert block[..2 * k + 4] + block[2 * k + 4..] == block;
  }

  // None when authentication fails. ChaCha20-Poly1305 is never opened under TLS 1.2.
  function Open12(c: Crypto, alg: Alg, keys: Keys12, n: nat, ctype: Byte, explicit: Bytes,
                  ciphertext: Bytes): Option<Bytes> {
    if alg.ChaCha20Poly1305? then None
    else
      var length := if |ciphertext| >= 16 then |ciphertext| - 16 else 0;
      c.open(alg, keys.key, Nonce12(keys.salt, explicit), Aad12(n, ctype, length), ciphertext)
  }
}
