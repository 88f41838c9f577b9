// What one push and one consumption keep: the state invariant, the exact eviction, the set of
// known positions, agreement with the true stream, and the provenance of every segment.
module ReassemblySteps {
  import opened Common
  import opened Reassembly

  // ----- the state invariant -----

  ghost predicate Above(next: nat, p: seq<Entry>) {
    forall e :: e in p ==> next < e.key
  }

  ghost predicate Valid(st: State, lim: Limits) {
    && Sorted(st.pending)
    && Solid(st.pending)
    && Above(st.next, st.pending)
    && Fits(st.pending, lim)
    && (st.since.None? <==> st.pending == [])
    && (st.base.None? ==> st.next == 0 && st.pending == [] && st.contiguous == [])
  }

  ghost predicate Covers(e: Entry, x: nat) {
    e.key <= x < e.key + |e.seg.data|
  }

  ghost predicate Holds(p: seq<Entry>, x: nat) {
    exists e :: e in p && Covers(e, x)
  }

  lemma {:induction false} PendingBytesAppend(p: seq<Entry>, q: seq<Entry>)
    ensures PendingBytes(p + q) == PendingBytes(p) + PendingBytes(q)
  {
    if p == [] {
      assert p + q == q;
    } else {
      PendingBytesAppend(p[1..], q);
      assert (p + q)[1..] == p[1..] + q;
    }
  }

  lemma {:induction false} FindIsMember(p: seq<Entry>, key: nat)
    ensures Find(p, key).Some? ==> Entry(key, Find(p, key).value) in p
    ensures Find(p, key).None? ==> forall e :: e in p ==> e.key != key
  {
    if p != [] {
      FindIsMember(p[1..], key);
    }
  }

  lemma {:induction false} InsertMembers(p: seq<Entry>, e: Entry)
    ensures forall x :: x in Insert(p, e) ==> x == e || x in p
  {
    if p != [] && e.key > p[0].key {
      InsertMembers(p[1..], e);
    }
  }

  lemma SuffixMembers(p: seq<Entry>, k: nat)
    requires k <= |p|
    ensures forall x :: x in p[k..] ==> x in p
  {
  }

  lemma {:induction false} InsertSorted(p: seq<Entry>, e: Entry)
    requires Sorted(p)
    ensures Sorted(Insert(p, e))
  {
    if p != [] && e.key > p[0].key {
      InsertSorted(p[1..], e);
      InsertMembers(p[1..], e);
      var q := Insert(p[1..], e);
      forall i | 0 <= i < |q|
        ensures p[0].key < q[i].key
      {
        assert q[i] in q;
      }
    }
  }

  // Inserting replaces exactly the binding of the same key.
  lemma {:induction false} InsertIsUpdate(p: seq<Entry>, e: Entry)
    requires Sorted(p)
    ensures forall x :: x in Insert(p, e) <==> x == e || (x in p && x.key != e.key)
  {
    if p != [] {
      assert p == [p[0]] + p[1..];
      if e.key > p[0].key {
        InsertIsUpdate(p[1..], e);
      }
    }
  }

  lemma InsertCovers(p: seq<Entry>, e: Entry, x: nat)
    requires Sorted(p)
    requires Find(p, e.key).Some? ==> |Find(p, e.key).value.data| < |e.seg.data|
    ensures Holds(Insert(p, e), x) <==> Holds(p, x) || Covers(e, x)
  {
    InsertIsUpdate(p, e);
    FindIsMember(p, e.key);
    if Covers(e, x) {
      assert e in Insert(p, e);
    }
    if Holds(p, x) {
      var f :| f in p && Covers(f, x);
      if f.key == e.key {
        SameKeySameEntry(p, f, Entry(e.key, Find(p, e.key).value));
        assert Covers(e, x);
      } else {
        assert f in Insert(p, e);
      }
    }
  }

  lemma SameKeySameEntry(p: seq<Entry>, e: Entry, f: Entry)
    requires Sorted(p) && e in p && f in p && e.key == f.key
    ensures e == f
  {
  }

  lemma HeadIsLeast(next: nat, p: seq<Entry>)
    requires Sorted(p) && p != [] && p[0].key > next
    ensures Above(next, p)
  {
    assert forall i :: 0 <= i < |p| ==> p[0].key <= p[i].key;
  }

  lemma SliceOfTail(p: seq<Entry>, n: nat)
    requires n < |p|
    ensures p[1..][|p| - 1 - n..] == p[|p| - n..]
  {
  }

  // Draining takes the lowest-keyed segments.
  lemma {:induction false} DrainIsPrefix(next: nat, p: seq<Entry>)
    ensures var d := Drain(next, p);
            next <= d.next && |d.rest| <= |p| && d.rest == p[|p| - |d.rest|..]
    decreases |p|
  {
    if p != [] && p[0].key <= next {
      var end := p[0].key + |p[0].seg.data|;
      DrainIsPrefix(if end <= next then next else end, p[1..]);
      SliceOfTail(p, |Drain(next, p).rest|);
    }
  }

  // Draining stops only at a genuine gap.
  lemma {:induction false} DrainStops(next: nat, p: seq<Entry>)
    requires Sorted(p)
    ensures Above(Drain(next, p).next, Drain(next, p).rest)
    decreases |p|
  {
    if p != [] {
      if p[0].key > next {
        HeadIsLeast(next, p);
      } else {
        var end := p[0].key + |p[0].seg.data|;
        DrainStops(if end <= next then next else end, p[1..]);
      }
    }
  }

  // Draining neither loses nor invents a position.
  lemma {:induction false} DrainCovers(next: nat, p: seq<Entry>, x: nat)
    ensures var d := Drain(next, p);
            (x < d.next || Holds(d.rest, x)) <==> (x < next || Holds(p, x))
    decreases |p|
  {
    if p != [] && p[0].key <= next {
      var end := p[0].key + |p[0].seg.data|;
      DrainCovers(if end <= next then next else end, p[1..], x);
      HeadCovers(p, x);
    }
  }

  lemma HeadCovers(p: seq<Entry>, x: nat)
    requires p != []
    ensures Holds(p, x) <==> Covers(p[0], x) || Holds(p[1..], x)
  {
    assert p == [p[0]] + p[1..];
    if Covers(p[0], x) {
      assert p[0] in p;
    }
  }

  lemma InsertKeeps(p: seq<Entry>, e: Entry, next: nat)
    requires Sorted(p) && Solid(p) && Above(next, p) && next < e.key && e.seg.data != []
    ensures Sorted(Insert(p, e)) && Solid(Insert(p, e)) && Above(next, Insert(p, e)) && Insert(p, e) != []
  {
    InsertSorted(p, e);
    InsertIsUpdate(p, e);
    assert e in Insert(p, e);
  }

  lemma SuffixKeeps(p: seq<Entry>, k: nat, next: nat)
    requires k <= |p| && Sorted(p) && Solid(p)
    ensures Sorted(p[k..]) && Solid(p[k..])
    ensures Above(next, p) ==> Above(next, p[k..])
    ensures PendingBytes(p[k..]) <= PendingBytes(p)
  {
    SuffixMembers(p, k);
    PendingBytesAppend(p[..k], p[k..]);
    assert p == p[..k] + p[k..];
  }

  // ----- one push: bounds, exact eviction, no lost position -----

  // The pending map as it stands after a buffering push has inserted its segment.
  function Inserted(st: State, a: Arrival): seq<Entry>
    requires a.payload != []
  {
    var base := SetIsn(st, a.seqno).base.value;
    Insert(st.pending, Entry(Relative(base, a.seqno), Segment(a.packet, a.start, a.end, a.payload)))
  }

  lemma PushKeepsValid(st: State, lim: Limits, a: Arrival)
    requires Valid(st, lim)
    ensures Valid(Push(st, lim, a).st, lim)
    ensures st.next <= Push(st, lim, a).st.next
  {
    if a.payload != [] {
      var st1 := SetIsn(st, a.seqno);
      PushRelativeKeepsValid(st1, lim, Segment(a.packet, a.start, a.end, a.payload),
                             Relative(st1.base.value, a.seqno), a.clock);
    }
  }

  lemma DrainKeeps(next: nat, p: seq<Entry>, lim: Limits)
    requires Sorted(p) && Solid(p) && Fits(p, lim)
    ensures var d := Drain(next, p);
            next <= d.next && Sorted(d.rest) && Solid(d.rest) && Above(d.next, d.rest) && Fits(d.rest, lim)
  {
    DrainIsPrefix(next, p);
    DrainStops(next, p);
    SuffixKeeps(p, |p| - |Drain(next, p).rest|, next);
  }

  lemma PushRelativeKeepsValid(st: State, lim: Limits, seg: Segment, rel: nat, clock: Clock)
    requires Valid(st, lim) && st.base.Some? && seg.data != []
    ensures Valid(PushRelative(st, lim, seg, rel, clock).st, lim)
    ensures st.next <= PushRelative(st, lim, seg, rel, clock).st.next
  {
    var next := rel + |seg.data|;
    if next <= st.next {
    } else if rel <= st.next {
      DrainKeeps(next, st.pending, lim);
    } else {
      BufferKeepsValid(st, lim, Entry(rel, seg), clock);
    }
  }

  lemma BufferKeepsValid(st: State, lim: Limits, e: Entry, clock: Clock)
    requires Valid(st, lim) && st.base.Some? && st.next < e.key && e.seg.data != []
    ensures Valid(Buffer(st, lim, e, clock).st, lim)
    ensures Buffer(st, lim, e, clock).st.next == st.next
  {
    var p := Insert(st.pending, e);
    var since := if st.pending == [] then Some(clock.openedAt) else st.since;
    var existing := Find(st.pending, e.key);
    if existing.Some? && |existing.value.data| >= |e.seg.data| {
    } else if Aged(since, clock.checkedAt, lim) {
    } else {
      InsertKeeps(st.pending, e, st.next);
      if !Fits(p, lim) {
        SuffixKeeps(p, EvictCount(p, lim), st.next);
      }
    }
  }

  // A buffering push only splits the updated map into what it evicts and what it keeps.
  lemma BufferSplits(st: State, lim: Limits, e: Entry, clock: Clock)
    ensures var r := Buffer(st, lim, e, clock);
            !r.outcome.DuplicateDiscarded? ==> r.evicted + r.st.pending == Insert(st.pending, e)
  {
    var p := Insert(st.pending, e);
    assert p == p[..EvictCount(p, lim)] + p[EvictCount(p, lim)..];
  }

  // GapAbandoned reports exactly the bytes it gave up: everything when the gap is too old,
  // otherwise the shortest lowest-keyed run of segments that restores both caps.
  lemma EvictionIsExact(st: State, lim: Limits, a: Arrival)
    requires Valid(st, lim)
    ensures var r := Push(st, lim, a);
            if r.outcome.GapAbandoned? then
              && a.payload != []
              && r.evicted + r.st.pending == Inserted(st, a)
              && r.outcome.bytes == PendingBytes(r.evicted) > 0
              && (if Aged(if st.pending == [] then Some(a.clock.openedAt) else st.since, a.clock.checkedAt, lim)
                  then r.st.pending == []
                  else forall j :: 0 <= j < |r.evicted| ==> !Fits(Inserted(st, a)[j..], lim))
            else r.evicted == []
  {
    var r := Push(st, lim, a);
    if r.outcome.GapAbandoned? {
      var st1 := SetIsn(st, a.seqno);
      var e := Entry(Relative(st1.base.value, a.seqno), Segment(a.packet, a.start, a.end, a.payload));
      assert r == Buffer(st1, lim, e, a.clock);
      BufferSplits(st1, lim, e, a.clock);
      BufferEvictsSomething(st1, lim, e, a.clock);
    }
  }

  lemma BufferEvictsSomething(st: State, lim: Limits, e: Entry, clock: Clock)
    requires Sorted(st.pending) && Solid(st.pending) && e.seg.data != []
    requires Buffer(st, lim, e, clock).outcome.GapAbandoned?
    ensures PendingBytes(Buffer(st, lim, e, clock).evicted) > 0
  {
    var p := Insert(st.pending, e);
    InsertIsUpdate(st.pending, e);
    assert e in p;
    assert p[0] in p;
    if !Aged(if st.pending == [] then Some(clock.openedAt) else st.since, clock.checkedAt, lim) {
      var k := EvictCount(p, lim);
      assert p[0..] == p;
      assert p[..k][0] == p[0];
    }
  }

  // The positions an arrival carries, relative to the stream's first byte.
  ghost predicate Carries(base: U32, a: Arrival, x: nat) {
    Relative(base, a.seqno) <= x < Relative(base, a.seqno) + |a.payload|
  }

  // Every position known before, or carried by this arrival, is afterwards delivered,
  // pending or among the evicted; and nothing else is.
  lemma PushLosesNothing(st: State, lim: Limits, a: Arrival, x: nat)
    requires Valid(st, lim) && a.payload != []
    ensures var r := Push(st, lim, a);
            (x < r.st.next || Holds(r.st.pending, x) || Holds(r.evicted, x))
            <==>
            (x < st.next || Holds(st.pending, x) || Carries(SetIsn(st, a.seqno).base.value, a, x))
  {
    var st1 := SetIsn(st, a.seqno);
    var rel := Relative(st1.base.value, a.seqno);
    PushRelativeLosesNothing(st1, lim, Segment(a.packet, a.start, a.end, a.payload), rel, a.clock, x);
  }

  lemma PushRelativeLosesNothing(st: State, lim: Limits, seg: Segment, rel: nat, clock: Clock, x: nat)
    requires Sorted(st.pending)
    ensures var r := PushRelative(st, lim, seg, rel, clock);
            (x < r.st.next || Holds(r.st.pending, x) || Holds(r.evicted, x))
            <==>
            (x < st.next || Holds(st.pending, x) || rel <= x < rel + |seg.data|)
  {
    var r := PushRelative(st, lim, seg, rel, clock);
    var e := Entry(rel, seg);
    assert Covers(e, x) <==> rel <= x < rel + |seg.data|;
    if rel + |seg.data| <= st.next {
    } else if rel <= st.next {
      DrainCovers(rel + |seg.data|, st.pending, x);
    } else if r.outcome.DuplicateDiscarded? {
      FindIsMember(st.pending, rel);
    } else {
      InsertCovers(st.pending, e, x);
      BufferSplits(st, lim, e, clock);
      SplitHolds(r.evicted, r.st.pending, x);
    }
  }

  lemma SplitHolds(p: seq<Entry>, q: seq<Entry>, x: nat)
    ensures Holds(p + q, x) <==> Holds(p, x) || Holds(q, x)
  {
    if Holds(p, x) {
      var e :| e in p && Covers(e, x);
      assert e in p + q;
    }
    if Holds(q, x) {
      var e :| e in q && Covers(e, x);
      assert e in p + q;
    }
  }

  // ----- honest streams -----

  ghost predicate HonestEntries(stream: Bytes, p: seq<Entry>) {
    forall e :: e in p ==> e.key + |e.seg.data| <= |stream| && e.seg.data == stream[e.key..e.key + |e.seg.data|]
  }

  lemma HonestHead(stream: Bytes, p: seq<Entry>, next: nat)
    requires HonestEntries(stream, p) && p != []
    ensures HonestEntries(stream, p[1..])
    ensures var end := p[0].key + |p[0].seg.data|;
            end <= |stream| && (p[0].key <= next <= end ==> Trim(p[0].seg, next - p[0].key).data == stream[next..end])
  {
    assert p[0] in p;
    SuffixMembers(p, 1);
  }

  lemma Adjacent(stream: Bytes, from: nat, mid: nat, to: nat)
    requires from <= mid <= to <= |stream|
    ensures stream[from..mid] + stream[mid..to] == stream[from..to]
  {
  }

  lemma {:induction false} DrainHonest(stream: Bytes, next: nat, p: seq<Entry>)
    requires HonestEntries(stream, p) && next <= |stream|
    ensures var d := Drain(next, p);
            next <= d.next <= |stream| && Concat(d.delivered) == stream[next..d.next]
    decreases |p|
  {
    if p != [] && p[0].key <= next {
      var end := p[0].key + |p[0].seg.data|;
      HonestHead(stream, p, next);
      if end <= next {
        DrainHonest(stream, next, p[1..]);
      } else {
        DrainHonest(stream, end, p[1..]);
        Adjacent(stream, next, end, Drain(end, p[1..]).next);
      }
    }
  }

  lemma PushHonest(stream: Bytes, st: State, lim: Limits, a: Arrival)
    requires Valid(st, lim) && HonestEntries(stream, st.pending) && st.next <= |stream|
    requires a.payload != [] ==>
               var rel := Relative(SetIsn(st, a.seqno).base.value, a.seqno);
               rel + |a.payload| <= |stream| && a.payload == stream[rel..rel + |a.payload|]
    ensures var r := Push(st, lim, a);
            && st.next <= r.st.next <= |stream|
            && Concat(r.st.contiguous) == Concat(st.contiguous) + stream[st.next..r.st.next]
            && HonestEntries(stream, r.st.pending)
  {
    if a.payload != [] {
      var st1 := SetIsn(st, a.seqno);
      PushRelativeHonest(stream, st1, lim, Segment(a.packet, a.start, a.end, a.payload),
                         Relative(st1.base.value, a.seqno), a.clock);
    }
  }

  lemma PushRelativeHonest(stream: Bytes, st: State, lim: Limits, seg: Segment, rel: nat, clock: Clock)
    requires Sorted(st.pending) && Solid(st.pending) && HonestEntries(stream, st.pending) && st.next <= |stream|
    requires rel + |seg.data| <= |stream| && seg.data == stream[rel..rel + |seg.data|]
    ensures var r := PushRelative(st, lim, seg, rel, clock);
            && st.next <= r.st.next <= |stream|
            && Concat(r.st.contiguous) == Concat(st.contiguous) + stream[st.next..r.st.next]
            && HonestEntries(stream, r.st.pending)
  {
    if rel + |seg.data| <= st.next {
    } else if rel <= st.next {
      DeliverHonest(stream, st, seg, rel);
      DrainIsPrefix(rel + |seg.data|, st.pending);
    } else {
      BufferHonest(stream, st, lim, Entry(rel, seg), clock);
    }
  }

  lemma DeliverHonest(stream: Bytes, st: State, seg: Segment, rel: nat)
    requires HonestEntries(stream, st.pending) && st.next <= |stream|
    requires rel + |seg.data| <= |stream| && seg.data == stream[rel..rel + |seg.data|]
    requires rel <= st.next < rel + |seg.data|
    ensures var d := Drain(rel + |seg.data|, st.pending);
            && st.next <= d.next <= |stream|
            && Concat(st.contiguous + [Trim(seg, st.next - rel)] + d.delivered)
               == Concat(st.contiguous) + stream[st.next..d.next]
  {
    var end := rel + |seg.data|;
    DrainHonest(stream, end, st.pending);
    Joins(stream, st.contiguous, Trim(seg, st.next - rel), Drain(end, st.pending).delivered,
          st.next, end, Drain(end, st.pending).next);
  }

  lemma Joins(stream: Bytes, c: seq<Segment>, tail: Segment, d: seq<Segment>, from: nat, mid: nat, to: nat)
    requires from <= mid <= to <= |stream|
    requires tail.data == stream[from..mid] && Concat(d) == stream[mid..to]
    ensures Concat(c + [tail] + d) == Concat(c) + stream[from..to]
  {
    ConcatAppend(c + [tail], d);
    ConcatAppend(c, [tail]);
    assert Concat([tail]) == tail.data + Concat([]);
    Adjacent(stream, from, mid, to);
    Assoc(Concat(c), stream[from..mid], stream[mid..to]);
  }

  lemma BufferHonest(stream: Bytes, st: State, lim: Limits, e: Entry, clock: Clock)
    requires Sorted(st.pending) && HonestEntries(stream, st.pending)
    requires e.key + |e.seg.data| <= |stream| && e.seg.data == stream[e.key..e.key + |e.seg.data|]
    ensures var r := Buffer(st, lim, e, clock);
            r.st.next == st.next && r.st.contiguous == st.contiguous && HonestEntries(stream, r.st.pending)
  {
    var p := Insert(st.pending, e);
    HonestInsert(stream, st.pending, e);
    HonestSuffix(stream, p, EvictCount(p, lim));
  }

  lemma HonestInsert(stream: Bytes, p: seq<Entry>, e: Entry)
    requires HonestEntries(stream, p)
    requires e.key + |e.seg.data| <= |stream| && e.seg.data == stream[e.key..e.key + |e.seg.data|]
    ensures HonestEntries(stream, Insert(p, e))
  {
    InsertMembers(p, e);
  }

  lemma HonestSuffix(stream: Bytes, p: seq<Entry>, k: nat)
    requires HonestEntries(stream, p) && k <= |p|
    ensures HonestEntries(stream, p[k..])
  {
  }

  // ----- consuming -----

  // The bytes named by a list of source pieces.
  ghost function Gather(packets: nat -> Bytes, pieces: seq<SourcePiece>): Bytes
    requires forall s :: s in pieces ==> s.start <= s.end <= |packets(s.packet)|
  {
    if pieces == [] then []
    else
      assert pieces[0] in pieces;
      packets(pieces[0].packet)[pieces[0].start..pieces[0].end] + Gather(packets, pieces[1..])
  }

  function PieceBytes(pieces: seq<SourcePiece>): int {
    if pieces == [] then 0 else pieces[0].end - pieces[0].start + PieceBytes(pieces[1..])
  }

  lemma {:induction false} TakeSplits(c: seq<Segment>, n: nat)
    requires n <= |Concat(c)|
    ensures var r := Take(c, n);
            && r.bytes == Concat(c)[..n]
            && Concat(r.rest) == Concat(c)[n..]
            && PieceBytes(r.pieces) == n
  {
    if n != 0 {
      if |c[0].data| <= n {
        TakeSplits(c[1..], n - |c[0].data|);
      } else {
        var t := Trim(c[0], n);
        assert ([t] + c[1..])[1..] == c[1..];
      }
    }
  }

  // A segment still holds the bytes of the packet range it names.
  ghost predicate Sourced(packets: nat -> Bytes, s: Segment) {
    s.start <= s.end <= |packets(s.packet)| && s.data == packets(s.packet)[s.start..s.end]
  }

  ghost predicate AllSourced(packets: nat -> Bytes, st: State) {
    && (forall s :: s in st.contiguous ==> Sourced(packets, s))
    && (forall e :: e in st.pending ==> Sourced(packets, e.seg))
  }

  lemma {:induction false} DrainSourced(packets: nat -> Bytes, next: nat, p: seq<Entry>)
    requires forall e :: e in p ==> Sourced(packets, e.seg)
    ensures forall s :: s in Drain(next, p).delivered ==> Sourced(packets, s)
    ensures forall e :: e in Drain(next, p).rest ==> e in p
    decreases |p|
  {
    if p != [] && p[0].key <= next {
      assert p[0] in p;
      DrainSourced(packets, next, p[1..]);
      DrainSourced(packets, p[0].key + |p[0].seg.data|, p[1..]);
    }
  }

  lemma PushSourced(packets: nat -> Bytes, st: State, lim: Limits, a: Arrival)
    requires Valid(st, lim) && AllSourced(packets, st)
    requires Sourced(packets, Segment(a.packet, a.start, a.end, a.payload))
    ensures AllSourced(packets, Push(st, lim, a).st)
  {
    if a.payload != [] {
      var st1 := SetIsn(st, a.seqno);
      PushRelativeSourced(packets, st1, lim, Segment(a.packet, a.start, a.end, a.payload),
                          Relative(st1.base.value, a.seqno), a.clock);
    }
  }

  lemma PushRelativeSourced(packets: nat -> Bytes, st: State, lim: Limits, seg: Segment, rel: nat, clock: Clock)
    requires Sorted(st.pending) && AllSourced(packets, st) && Sourced(packets, seg)
    ensures AllSourced(packets, PushRelative(st, lim, seg, rel, clock).st)
  {
    if rel + |seg.data| <= st.next {
    } else if rel <= st.next {
      DrainSourced(packets, rel + |seg.data|, st.pending);
    } else {
      InsertMembers(st.pending, Entry(rel, seg));
      SuffixMembers(Insert(st.pending, Entry(rel, seg)), EvictCount(Insert(st.pending, Entry(rel, seg)), lim));
    }
  }

  lemma TrimSourced(packets: nat -> Bytes, s: Segment, n: nat)
    requires Sourced(packets, s) && n <= |s.data|
    ensures Sourced(packets, Trim(s, n)) && s.start + n <= |packets(s.packet)|
    ensures s.data[..n] == packets(s.packet)[s.start..s.start + n]
  {
    var p := packets(s.packet);
    assert p[s.start..s.end][n..] == p[s.start + n..s.end];
    assert p[s.start..s.end][..n] == p[s.start..s.start + n];
  }

  lemma GatherFirst(packets: nat -> Bytes, s: SourcePiece, rest: seq<SourcePiece>)
    requires s.start <= s.end <= |packets(s.packet)|
    requires forall t :: t in rest ==> t.start <= t.end <= |packets(t.packet)|
    ensures forall t :: t in [s] + rest ==> t.start <= t.end <= |packets(t.packet)|
    ensures Gather(packets, [s] + rest) == packets(s.packet)[s.start..s.end] + Gather(packets, rest)
  {
    assert ([s] + rest)[1..] == rest;
  }

  // What a take yields names exactly the bytes taken, and leaves sourced segments.
  ghost predicate TakenSourced(packets: nat -> Bytes, r: TakeResult) {
    && (forall s :: s in r.rest ==> Sourced(packets, s))
    && (forall s :: s in r.pieces ==> s.start <= s.end <= |packets(s.packet)|)
    && Gather(packets, r.pieces) == r.bytes
  }

  lemma TakePart(packets: nat -> Bytes, c: seq<Segment>, n: nat)
    requires c != [] && 0 < n < |c[0].data| && n <= |Concat(c)| && forall s :: s in c ==> Sourced(packets, s)
    ensures TakenSourced(packets, Take(c, n))
  {
    var seg := c[0];
    var piece := SourcePiece(seg.packet, seg.start, seg.start + n);
    TrimSourced(packets, seg, n);
    GatherFirst(packets, piece, []);
    assert [piece] + [] == [piece];
    assert Take(c, n) == TakeResult(seg.data[..n], [piece], [Trim(seg, n)] + c[1..]);
  }

  lemma TakeWhole(packets: nat -> Bytes, seg: Segment, r: TakeResult)
    requires Sourced(packets, seg) && TakenSourced(packets, r)
    ensures var piece := SourcePiece(seg.packet, seg.start, seg.start + |seg.data|);
            TakenSourced(packets, TakeResult(seg.data + r.bytes, [piece] + r.pieces, r.rest))
  {
    GatherFirst(packets, SourcePiece(seg.packet, seg.start, seg.start + |seg.data|), r.pieces);
  }

  // The pieces returned with consumed bytes name exactly those bytes in the capture.
  lemma {:induction false} TakeSourced(packets: nat -> Bytes, c: seq<Segment>, n: nat)
    requires n <= |Concat(c)|
    requires forall s :: s in c ==> Sourced(packets, s)
    ensures TakenSourced(packets, Take(c, n))
  {
    if n != 0 {
      if |c[0].data| <= n {
        TakeSourced(packets, c[1..], n - |c[0].data|);
        TakeWhole(packets, c[0], Take(c[1..], n - |c[0].data|));
      } else {
        TakePart(packets, c, n);
      }
    }
  }
}
