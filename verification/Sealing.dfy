// How an endpoint protects a record, as the TLS standards prescribe it and without any function
// that opens records; and the proof that opening computes the same names, keys, nonces and
// associated data.
module Sealing {
  import opened Common
  import opened Arithmetic
  import opened Keylogs
  import opened RecordProtection
  import opened Decryption

  // Content types of section 5.1 and handshake types of section 4 of RFC 8446.
  const TYPE_CHANGE_CIPHER_SPEC: Byte := 20
  const TYPE_HANDSHAKE: Byte := 22
  const TYPE_APPLICATION_DATA: Byte := 23
  const TYPE_CLIENT_HELLO: Byte := 1
  const TYPE_SERVER_HELLO: Byte := 2

  // ----- octets -----

  // The i-th octet of a number of the given width, in network byte order.
  function Octet(v: nat, width: nat, i: nat): Byte
    requires i < width
  {
    PowPositive(width - 1 - i);
    (v / Pow256(width - 1 - i)) % 256
  }

  function NetworkOrder(v: nat, width: nat): Bytes {
    seq(width, i requires 0 <= i < width => Octet(v, width, i))
  }

  lemma {:induction false} PowPositive(n: nat)
    ensures Pow256(n) > 0
  {
    if n > 0 {
      PowPositive(n - 1);
    }
  }

  lemma {:induction false} BigEndianOctet(v: nat, n: nat, i: nat)
    requires i < n
    ensures BigEndian(v, n)[i] == Octet(v, n, i)
    decreases n
  {
    if i == n - 1 {
      assert Pow256(0) == 1;
    } else {
      BigEndianOctet(v / 256, n - 1, i);
      PowPositive(n - 2 - i);
      DivideTwice(v, 256, Pow256(n - 2 - i));
    }
  }

  lemma BigEndianIsNetworkOrder(v: nat, n: nat)
    ensures BigEndian(v, n) == NetworkOrder(v, n)
  {
    forall i | 0 <= i < n
      ensures BigEndian(v, n)[i] == NetworkOrder(v, n)[i]
    {
      BigEndianOctet(v, n, i);
    }
  }

  // ----- exclusive or, bit by bit -----

  predicate Bit(x: nat, i: nat) {
    Pow2Positive(i);
    (x / Pow2(i)) % 2 == 1
  }

  lemma {:induction false} Pow2Positive(n: nat)
    ensures Pow2(n) > 0
  {
    if n > 0 {
      Pow2Positive(n - 1);
    }
  }

  // The number whose lowest n bits are set where those of x and y differ.
  function Differing(x: nat, y: nat, n: nat): nat {
    if n == 0 then 0 else Differing(x, y, n - 1) + if Bit(x, n - 1) != Bit(y, n - 1) then Pow2(n - 1) else 0
  }

  lemma BitShifts(x: nat, i: nat)
    ensures Bit(x, i + 1) == Bit(x / 2, i)
  {
    Pow2Positive(i);
    DivideTwice(x, 2, Pow2(i));
  }

  lemma {:induction false} DifferingShifts(x: nat, y: nat, n: nat)
    ensures Differing(x, y, n + 1) == 2 * Differing(x / 2, y / 2, n) + (x + y) % 2
  {
    assert Pow2(0) == 1;
    if n == 0 {
      assert Differing(x, y, 1) == Differing(x, y, 0) + if Bit(x, 0) != Bit(y, 0) then Pow2(0) else 0;
    } else {
      DifferingShifts(x, y, n - 1);
      BitShifts(x, n - 1);
      BitShifts(y, n - 1);
    }
  }

  lemma {:induction false} XorIsDiffering(x: nat, y: nat, n: nat)
    requires x < Pow2(n) && y < Pow2(n)
    ensures Xor(x, y) == Differing(x, y, n)
    decreases n
  {
    if n > 0 {
      XorIsDiffering(x / 2, y / 2, n - 1);
      DifferingShifts(x, y, n - 1);
    }
  }

  lemma XorByteIsDiffering(x: Byte, y: Byte)
    ensures XorByte(x, y) == Differing(x, y, 8)
  {
    assert Pow2(8) == 256 by { assert Pow2(4) == 16; }
    XorIsDiffering(x, y, 8);
  }

  // ----- TLS 1.3 -----

  // Section 5.3 of RFC 8446: the sequence number, padded on the left to twelve octets, is
  // exclusive-ored with the static IV.
  function PerRecordNonce(iv: Iv, n: nat): Bytes {
    seq(12, i requires 0 <= i < 12 => NonceOctet(iv[i], Octet(n, 12, i)))
  }

  function NonceOctet(x: Byte, y: Byte): Byte {
    XorByteIsDiffering(x, y);
    Differing(x, y, 8)
  }

  lemma {:induction false} XorZero(x: nat)
    ensures Xor(x, 0) == x
  {
    if x > 0 {
      XorZero(x / 2);
    }
  }

  lemma {:induction false} PowMonotone(m: nat, n: nat)
    requires m <= n
    ensures Pow256(m) <= Pow256(n)
    decreases n
  {
    if m < n {
      PowMonotone(m, n - 1);
      PowPositive(n - 1);
    }
  }

  lemma NonceIsPerRecord(iv: Iv, n: nat)
    requires n < Pow256(8)
    ensures Nonce13(iv, n) == PerRecordNonce(iv, n)
  {
    forall i | 0 <= i < 12
      ensures Nonce13(iv, n)[i] == PerRecordNonce(iv, n)[i]
    {
      if i < 4 {
        PowMonotone(8, 11 - i);
        DivideUnique(n, Pow256(11 - i), 0, n);
        assert Octet(n, 12, i) == 0;
        XorByteIsDiffering(iv[i], 0);
        XorZero(iv[i]);
      } else {
        BigEndianOctet(n, 8, i - 4);
        assert Octet(n, 12, i) == Octet(n, 8, i - 4);
        XorByteIsDiffering(iv[i], Octet(n, 12, i));
      }
    }
  }

  // Section 5.2 of RFC 8446: the header of the record, of type application data.
  function RecordHeader(length: nat): Bytes {
    [TYPE_APPLICATION_DATA, 3, 3] + NetworkOrder(length, 2)
  }

  lemma AadIsHeader(length: nat)
    ensures Aad13(length) == RecordHeader(length)
  {
    BigEndianIsNetworkOrder(length, 2);
  }

  // Section 7.3 of RFC 8446, with the hash and key length of each cipher suite of its appendix B.4.
  function TrafficKeys(c: Crypto, secret: Bytes, alg: Alg): Option<Keys13> {
    match alg
    case Aes128Gcm => KeyAndIv(c, Sha256, secret, 16)
    case Aes256Gcm => KeyAndIv(c, Sha384, secret, 32)
    case ChaCha20Poly1305 => KeyAndIv(c, Sha256, secret, 32)
  }

  function KeyAndIv(c: Crypto, hash: Hash, secret: Bytes, length: nat): Option<Keys13> {
    var key, iv := c.expand(hash, secret, "key", length), c.expand(hash, secret, "iv", 12);
    if key.None? || iv.None? then None
    else Some(Keys13(seq(length, i requires 0 <= i < length => key.value(i)),
                     seq(12, i requires 0 <= i < 12 => iv.value(i))))
  }

  lemma DerivesTrafficKeys(c: Crypto, secret: Bytes, alg: Alg)
    ensures Derive13(c, secret, alg) == TrafficKeys(c, secret, alg)
  {
  }

  // The name under which a TLS 1.3 traffic secret is logged.
  function SecretName(g: Generation, isClient: bool): string {
    if isClient then
      if g.Handshake? then "CLIENT_HANDSHAKE_TRAFFIC_SECRET" else "CLIENT_TRAFFIC_SECRET_0"
    else
      if g.Handshake? then "SERVER_HANDSHAKE_TRAFFIC_SECRET" else "SERVER_TRAFFIC_SECRET_0"
  }

  const MASTER_SECRET_NAME := "CLIENT_RANDOM"

  lemma NamesAreLabels(g: Generation, isClient: bool)
    ensures ParseLabel(SecretName(g, isClient)) == LabelFor(g, isClient)
    ensures ParseLabel(MASTER_SECRET_NAME) == ClientRandom
  {
  }

  // The secret that the last line of a log with this name gives for a connection.
  function LastNamed(lines: seq<Line>, random: Bytes, name: string): Option<Bytes>
    decreases |lines|
  {
    if lines == [] then None
    else
      var last := lines[|lines| - 1];
      if last.Binding? && last.random == random && last.text == name then Some(last.secret)
      else LastNamed(lines[..|lines| - 1], random, name)
  }

  // What is looked up for a generation and direction is the secret last logged under its name.
  lemma {:induction false} LookupIsLastNamed(lines: seq<Line>, random: Bytes, g: Generation, isClient: bool)
    ensures SecretFor(BindAll(lines), random, LabelFor(g, isClient))
            == LastNamed(lines, random, SecretName(g, isClient))
    ensures SecretFor(BindAll(lines), random, ClientRandom) == LastNamed(lines, random, MASTER_SECRET_NAME)
    decreases |lines|
  {
    if lines != [] {
      var last := lines[|lines| - 1];
      LookupIsLastNamed(lines[..|lines| - 1], random, g, isClient);
      if last.Binding? {
        LabelsTellNames(last.text, g, isClient);
      }
    }
  }

  lemma LabelsTellNames(text: string, g: Generation, isClient: bool)
    ensures ParseLabel(text) == LabelFor(g, isClient) <==> text == SecretName(g, isClient)
    ensures ParseLabel(text) == ClientRandom <==> text == MASTER_SECRET_NAME
  {
  }

  function Named(k: Keylog, random: Bytes, name: string): Option<Bytes> {
    SecretFor(k, random, ParseLabel(name))
  }

  // ----- TLS 1.2 -----

  function Ascii(s: string): Bytes {
    seq(|s|, i requires 0 <= i < |s| => if s[i] < 128 as char then s[i] as int else 0)
  }

  // Section 5 of RFC 5246: HMAC(secret, A + seed), then the same with the next A, as far as needed.
  function Expansion(c: Crypto, hash: Hash, secret: Bytes, a: Bytes, seed: Bytes, n: nat): (b: Bytes)
    ensures |b| == n
    decreases n
  {
    if n == 0 then []
    else
      var block := c.hmac(hash, secret, a + seed);
      if |block| >= n then block[..n]
      else block + Expansion(c, hash, secret, c.hmac(hash, secret, a), seed, n - |block|)
  }

  // Sections 5 and 6.3 of RFC 5246: the label, the server's random, then the client's.
  function ExpandedKeys(c: Crypto, hash: Hash, master: Bytes, cr: Bytes, sr: Bytes, n: nat): Bytes {
    var seed := Ascii("key expansion") + sr + cr;
    Expansion(c, hash, master, c.hmac(hash, master, seed), seed, n)
  }

  datatype WriteKeys = WriteKeys(clientKey: Bytes, serverKey: Bytes, clientIv: Salt, serverIv: Salt)

  function PartitionKeys(block: Bytes, length: nat): WriteKeys
    requires |block| == length + length + 4 + 4
  {
    var afterClient := block[length..];
    var ivs := afterClient[length..];
    WriteKeys(block[..length], afterClient[..length], ivs[..4], ivs[4..])
  }

  // Section 3 of RFC 5288: AES-128 with SHA-256, AES-256 with SHA-384.
  function SuiteKeys(c: Crypto, master: Bytes, cr: Bytes, sr: Bytes, alg: Alg): WriteKeys {
    match alg
    case Aes128Gcm => PartitionKeys(ExpandedKeys(c, Sha256, master, cr, sr, 40), 16)
    case Aes256Gcm => PartitionKeys(ExpandedKeys(c, Sha384, master, cr, sr, 72), 32)
    case ChaCha20Poly1305 => PartitionKeys(ExpandedKeys(c, Sha256, master, cr, sr, 72), 32)
  }

  function WriteKeysOf(c: Crypto, master: Bytes, cr: Bytes, sr: Bytes, alg: Alg, isClient: bool): Keys12 {
    var w := SuiteKeys(c, master, cr, sr, alg);
    if isClient then Keys12(w.clientKey, w.clientIv) else Keys12(w.serverKey, w.serverIv)
  }

  // The block stream, from its k-th block on, begins with these bytes.
  ghost predicate Continues(c: Crypto, hash: Hash, secret: Bytes, seed: Bytes, k: nat, more: Bytes, m: nat) {
    Blocks(c, hash, secret, seed, k) + more <= Blocks(c, hash, secret, seed, k + m)
  }

  lemma OneBlock(c: Crypto, hash: Hash, secret: Bytes, seed: Bytes, k: nat, n: nat, m: nat)
    requires 0 < n <= m
    requires n <= |c.hmac(hash, secret, Chain(c, hash, secret, seed, k + 1) + seed)|
    ensures Continues(c, hash, secret, seed, k, c.hmac(hash, secret, Chain(c, hash, secret, seed, k + 1) + seed)[..n],
                      m)
  {
    var block := c.hmac(hash, secret, Chain(c, hash, secret, seed, k + 1) + seed);
    BlocksArePrefixes(c, hash, secret, seed, k + 1, k + m);
    FrontOf(Blocks(c, hash, secret, seed, k), block, Blocks(c, hash, secret, seed, k + m), n);
  }

  lemma MoreBlocks(c: Crypto, hash: Hash, secret: Bytes, seed: Bytes, k: nat, rest: Bytes, m: nat)
    requires m > 0 && Continues(c, hash, secret, seed, k + 1, rest, m - 1)
    ensures Continues(c, hash, secret, seed, k, c.hmac(hash, secret, Chain(c, hash, secret, seed, k + 1) + seed) + rest,
                      m)
  {
    Assoc(Blocks(c, hash, secret, seed, k), c.hmac(hash, secret, Chain(c, hash, secret, seed, k + 1) + seed), rest);
  }

  // The loop's block stream, from its k-th block on, begins with the expansion from A(k + 1).
  lemma {:induction false} BlocksAreExpansion(c: Crypto, hash: Hash, secret: Bytes, seed: Bytes, k: nat, n: nat, m: nat)
    requires n <= m
    ensures Continues(c, hash, secret, seed, k,
                      Expansion(c, hash, secret, Chain(c, hash, secret, seed, k + 1), seed, n), m)
    decreases n
  {
    var a := Chain(c, hash, secret, seed, k + 1);
    var block := c.hmac(hash, secret, a + seed);
    if n == 0 {
      BlocksArePrefixes(c, hash, secret, seed, k, k + m);
      assert Blocks(c, hash, secret, seed, k) + [] == Blocks(c, hash, secret, seed, k);
    } else if |block| >= n {
      OneBlock(c, hash, secret, seed, k, n, m);
    } else {
      BlocksAreExpansion(c, hash, secret, seed, k + 1, n - |block|, m - 1);
      MoreBlocks(c, hash, secret, seed, k, Expansion(c, hash, secret, c.hmac(hash, secret, a), seed, n - |block|), m);
    }
  }

  lemma FrontOf(a: Bytes, b: Bytes, all: Bytes, n: nat)
    requires a + b <= all && n <= |b|
    ensures a + b[..n] <= all
  {
    assert a + b[..n] == (a + b)[..|a| + n];
  }

  lemma PHashIsExpansion(c: Crypto, hash: Hash, secret: Bytes, seed: Bytes, n: nat)
    ensures PHash(c, hash, secret, seed, n) == Expansion(c, hash, secret, c.hmac(hash, secret, seed), seed, n)
  {
    BlocksAreExpansion(c, hash, secret, seed, 0, n, n);
    var rest := Expansion(c, hash, secret, c.hmac(hash, secret, seed), seed, n);
    assert Chain(c, hash, secret, seed, 1) == c.hmac(hash, secret, Chain(c, hash, secret, seed, 0));
    assert Blocks(c, hash, secret, seed, 0) + rest == rest;
  }

  lemma LabelIsAscii()
    ensures KEY_EXPANSION == Ascii("key expansion")
  {
    var s := "key expansion";
    assert |s| == 13 == |KEY_EXPANSION|;
  }

  // The keys derived for opening are those the endpoints write with.
  lemma DerivesWriteKeys(c: Crypto, master: Bytes, cr: Bytes, sr: Bytes, alg: Alg, isClient: bool)
    ensures Derive12(c, master, cr, sr, alg, isClient) == WriteKeysOf(c, master, cr, sr, alg, isClient)
  {
    LabelIsAscii();
    var hash, k := HashOf(alg), KeyLength(alg);
    PHashIsExpansion(c, hash, master, KEY_EXPANSION + sr + cr, 2 * k + 8);
    var block := KeyBlock(c, master, cr, sr, alg);
    assert block == ExpandedKeys(c, hash, master, cr, sr, 2 * k + 8);
    PartitionIsSlices(block, k);
    assert SuiteKeys(c, master, cr, sr, alg) == PartitionKeys(block, k);
  }

  lemma PartitionIsSlices(block: Bytes, k: nat)
    requires |block| == 2 * k + 8
    ensures PartitionKeys(block, k)
         == WriteKeys(block[..k], block[k..2 * k], block[2 * k..2 * k + 4], block[2 * k + 4..])
  {
    assert block[k..][..k] == block[k..2 * k];
    assert block[k..][k..] == block[2 * k..];
    assert block[2 * k..][..4] == block[2 * k..2 * k + 4] && block[2 * k..][4..] == block[2 * k + 4..];
  }

  // Section 6.2.3.3 of RFC 5246: sequence number, type, version and length of the plaintext.
  function AdditionalData(n: nat, ctype: Byte, content: Bytes): Bytes {
    NetworkOrder(n, 8) + [ctype] + [3, 3] + NetworkOrder(|content|, 2)
  }

  lemma AadIsAdditionalData(n: nat, ctype: Byte, content: Bytes)
    ensures Aad12(n, ctype, |content|) == AdditionalData(n, ctype, content)
  {
    BigEndianIsNetworkOrder(n, 8);
    BigEndianIsNetworkOrder(|content|, 2);
  }

  // Section 3 of RFC 5288: the salt, then the explicit part.
  function GcmNonce(salt: Salt, explicit: Bytes): Bytes {
    seq(4 + |explicit|, i requires 0 <= i < 4 + |explicit| => if i < 4 then salt[i] else explicit[i - 4])
  }

  lemma NonceIsGcmNonce(salt: Salt, explicit: Bytes)
    ensures Nonce12(salt, explicit) == GcmNonce(salt, explicit)
  {
  }
}
