// Cutting a growing byte stream into self-delimited items, and the TLS record layer as one
// such cutting. Used for TLS records and for dissected application messages alike.
module Streaming {
  import opened Common

  datatype Item<+E> = NoItem | Item(value: E, size: nat)

  // A recogniser of the item at the front of a buffer: it makes progress, and bytes that
  // arrive later never change an item it has already recognised.
  ghost predicate Delimited<E>(one: Bytes -> Item<E>) {
    forall s, t :: Stable(one, s, t)
  }

  ghost predicate Stable<E>(one: Bytes -> Item<E>, s: Bytes, t: Bytes) {
    one(s).Item? ==> 0 < one(s).size <= |s| && one(s + t) == one(s)
  }

  datatype Parsed<+E> = Parsed(items: seq<E>, used: nat)

  // All the whole items at the front of a buffer, and how many bytes they take.
  function Parse<E>(one: Bytes -> Item<E>, s: Bytes): (r: Parsed<E>)
    ensures r.used <= |s|
    decreases |s|
  {
    var i := one(s);
    if i.NoItem? || !(0 < i.size <= |s|) then Parsed([], 0)
    else
      var r := Parse(one, s[i.size..]);
      Parsed([i.value] + r.items, i.size + r.used)
  }

  lemma Slices(s: Bytes, t: Bytes, n: nat, u: nat)
    requires n + u <= |s|
    ensures (s + t)[n..] == s[n..] + t && s[n..][u..] == s[n + u..]
  {
  }

  // Parsing what was left over together with new bytes continues the parse of the whole.
  lemma {:induction false} ParseAppend<E>(one: Bytes -> Item<E>, s: Bytes, t: Bytes)
    requires Delimited(one)
    ensures var a := Parse(one, s);
            var b := Parse(one, s[a.used..] + t);
            Parse(one, s + t) == Parsed(a.items + b.items, a.used + b.used)
    decreases |s|
  {
    var i := one(s);
    assert Stable(one, s, t);
    if i.Item? {
      var tail := s[i.size..];
      ParseAppend(one, tail, t);
      var a := Parse(one, tail);
      var b := Parse(one, tail[a.used..] + t);
      Slices(s, t, i.size, a.used);
      Assoc([i.value], a.items, b.items);
    } else {
      assert s[0..] == s;
    }
  }

  lemma {:induction false} ParseLeavesNoItem<E>(one: Bytes -> Item<E>, s: Bytes)
    requires Delimited(one)
    ensures one(s[Parse(one, s).used..]).NoItem?
    decreases |s|
  {
    var i := one(s);
    assert Stable(one, s, []);
    if i.Item? {
      ParseLeavesNoItem(one, s[i.size..]);
      assert s[i.size..][Parse(one, s[i.size..]).used..] == s[Parse(one, s).used..];
    } else {
      assert s[0..] == s;
    }
  }

  // ----- feeding a stream chunk by chunk, keeping the unconsumed tail -----

  datatype Fed<+E> = Fed(items: seq<E>, tail: Bytes)

  function FeedChunk<E>(one: Bytes -> Item<E>, before: Fed<E>, chunk: Bytes): Fed<E> {
    var buf := before.tail + chunk;
    var r := Parse(one, buf);
    Fed(before.items + r.items, buf[r.used..])
  }

  function Feed<E>(one: Bytes -> Item<E>, chunks: seq<Bytes>): Fed<E>
    decreases |chunks|
  {
    if chunks == [] then Fed([], []) else FeedChunk(one, Feed(one, chunks[..|chunks| - 1]), chunks[|chunks| - 1])
  }

  function Whole<E>(one: Bytes -> Item<E>, s: Bytes): Fed<E> {
    Fed(Parse(one, s).items, s[Parse(one, s).used..])
  }

  lemma FeedOne<E>(one: Bytes -> Item<E>, s: Bytes, last: Bytes)
    requires Delimited(one)
    ensures FeedChunk(one, Whole(one, s), last) == Whole(one, s + last)
  {
    ParseAppend(one, s, last);
    var a := Parse(one, s);
    var b := Parse(one, s[a.used..] + last);
    assert (s[a.used..] + last)[b.used..] == (s + last)[a.used + b.used..];
  }

  // However the stream is cut into chunks, the items and the tail are those of the whole stream.
  lemma {:induction false} ChunkingIsIrrelevant<E>(one: Bytes -> Item<E>, chunks: seq<Bytes>)
    requires Delimited(one)
    ensures Feed(one, chunks) == Whole(one, Flatten(chunks))
    decreases |chunks|
  {
    if chunks == [] {
      assert Stable(one, [], []);
    } else {
      var init, last := chunks[..|chunks| - 1], chunks[|chunks| - 1];
      ChunkingIsIrrelevant(one, init);
      assert chunks == init + [last];
      FlattenSnoc(init, last);
      FeedOne(one, Flatten(init), last);
    }
  }
}

module Framing {
  import opened Common
  import opened Streaming

  const HEADER: nat := 5

  function BodyLength(s: Bytes): nat
    requires |s| >= HEADER
  {
    (s[3] as int) * 256 + (s[4] as int)
  }

  // The whole TLS record at the front of a buffer, header included.
  function WholeRecord(s: Bytes): Item<Bytes> {
    if |s| >= HEADER && |s| >= HEADER + BodyLength(s)
    then Item(s[..HEADER + BodyLength(s)], HEADER + BodyLength(s))
    else NoItem
  }

  ghost predicate IsRecord(r: Bytes) {
    |r| >= HEADER && |r| == HEADER + BodyLength(r)
  }

  // A record as sent: type, version, the length of the body in two octets, the higher first, and
  // the body.
  function Framed(ctype: Byte, major: Byte, minor: Byte, body: Bytes): Bytes
    requires |body| < 65536
  {
    [ctype, major, minor, |body| / 256, |body| % 256] + body
  }

  // Whatever follows it, a record as sent is recognised whole.
  lemma FramedIsWhole(ctype: Byte, major: Byte, minor: Byte, body: Bytes, rest: Bytes)
    requires |body| < 65536
    ensures var r := Framed(ctype, major, minor, body);
            IsRecord(r) && WholeRecord(r + rest) == Item(r, |r|) && r[HEADER..] == body
  {
    var r := Framed(ctype, major, minor, body);
    assert (r + rest)[..|r|] == r;
  }

  // And records are nothing but that.
  lemma RecordIsFramed(r: Bytes)
    requires IsRecord(r)
    ensures |r[HEADER..]| < 65536 && r == Framed(r[0], r[1], r[2], r[HEADER..])
  {
  }

  // Less than a header, or less than the body it announces, is no record yet.
  lemma PartIsNotWhole(ctype: Byte, major: Byte, minor: Byte, body: Bytes, n: nat)
    requires |body| < 65536 && n < |Framed(ctype, major, minor, body)|
    ensures WholeRecord(Framed(ctype, major, minor, body)[..n]).NoItem?
  {
  }

  function Records(s: Bytes): seq<Bytes> {
    Parse(WholeRecord, s).items
  }

  function RecordBytes(s: Bytes): nat {
    Parse(WholeRecord, s).used
  }

  lemma RecordsAreDelimited()
    ensures Delimited(WholeRecord)
  {
    forall s, t
      ensures Stable(WholeRecord, s, t)
    {
      if WholeRecord(s).Item? {
        var n := HEADER + BodyLength(s);
        assert (s + t)[..n] == s[..n];
      }
    }
  }

  // The records are well formed, and they and the remainder make up the stream.
  lemma {:induction false} RecordsPartition(s: Bytes)
    ensures forall r :: r in Records(s) ==> IsRecord(r)
    ensures Flatten(Records(s)) == s[..RecordBytes(s)]
    decreases |s|
  {
    if WholeRecord(s).Item? {
      var n := WholeRecord(s).size;
      RecordsPartition(s[n..]);
      assert s[..n] + s[n..][..RecordBytes(s[n..])] == s[..RecordBytes(s)];
      assert Records(s)[1..] == Records(s[n..]);
    }
  }

  // A sender's records are recovered exactly, together with the record still in flight.
  lemma {:induction false} RecordsRoundTrip(sent: seq<Bytes>, partial: Bytes)
    requires forall r :: r in sent ==> IsRecord(r)
    requires WholeRecord(partial).NoItem?
    ensures Records(Flatten(sent) + partial) == sent
    ensures RecordBytes(Flatten(sent) + partial) == |Flatten(sent)|
  {
    if sent == [] {
      assert Flatten(sent) + partial == partial;
    } else {
      var r := sent[0];
      assert r in sent;
      var s := Flatten(sent) + partial;
      RecordsRoundTrip(sent[1..], partial);
      assert s == r + (Flatten(sent[1..]) + partial);
      assert s[..|r|] == r && s[|r|..] == Flatten(sent[1..]) + partial;
      assert BodyLength(s) == BodyLength(r);
    }
  }
}
