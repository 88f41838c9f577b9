// The TCP stream reassembler as a transition system on values, and what holds of
// every run of it. The class in StreamReassembler.dfy is proved against these functions.
module Reassembly {
  import opened Common

  const SEQ_SPACE: nat := 0x1_0000_0000

  type U32 = x: int | 0 <= x < SEQ_SPACE

  // A slice of stream bytes, and the packet range it was copied from.
  datatype Segment = Segment(packet: nat, start: nat, end: nat, data: Bytes)

  datatype SourcePiece = SourcePiece(packet: nat, start: nat, end: nat)

  // One binding of the ordered out-of-order map.
  datatype Entry = Entry(key: nat, seg: Segment)

  datatype Limits = Limits(maxBytes: nat, maxPackets: nat, maxAge: nat)

  // The two clock readings a buffering push makes: one when it opens a gap, one when it ages it.
  datatype Clock = Clock(openedAt: nat, checkedAt: nat)

  datatype Arrival = Arrival(packet: nat, seqno: U32, start: nat, end: nat, payload: Bytes, clock: Clock)

  datatype PushOutcome = Delivered | DuplicateDiscarded | BufferedOutOfOrder | GapAbandoned(bytes: nat)

  // `pending` lists the bindings of the ordered map in key order.
  datatype State = State(base: Option<U32>, next: nat, contiguous: seq<Segment>,
                         pending: seq<Entry>, since: Option<nat>)

  const FRESH := State(None, 0, [], [], None)

  // ----- sequences of segments -----

  function Concat(segs: seq<Segment>): Bytes {
    if segs == [] then [] else segs[0].data + Concat(segs[1..])
  }

  lemma {:induction false} ConcatAppend(a: seq<Segment>, b: seq<Segment>)
    ensures Concat(a + b) == Concat(a) + Concat(b)
  {
    if a == [] {
      assert a + b == b;
    } else {
      ConcatAppend(a[1..], b);
      assert (a + b)[1..] == a[1..] + b && (a + b)[0] == a[0];
      Assoc(a[0].data, Concat(a[1..]), Concat(b));
    }
  }

  function Trim(seg: Segment, n: nat): Segment
    requires n <= |seg.data|
  {
    seg.(start := seg.start + n, data := seg.data[n..])
  }

  // ----- the ordered map -----

  ghost predicate Sorted(p: seq<Entry>) {
    forall i, j :: 0 <= i < j < |p| ==> p[i].key < p[j].key
  }

  ghost predicate Solid(p: seq<Entry>) {
    forall e :: e in p ==> e.seg.data != []
  }

  function PendingBytes(p: seq<Entry>): nat {
    if p == [] then 0 else |p[0].seg.data| + PendingBytes(p[1..])
  }

  function Find(p: seq<Entry>, key: nat): Option<Segment> {
    if p == [] then None
    else if p[0].key == key then Some(p[0].seg)
    else Find(p[1..], key)
  }

  function Insert(p: seq<Entry>, e: Entry): seq<Entry> {
    if p == [] || e.key < p[0].key then [e] + p
    else if e.key == p[0].key then [e] + p[1..]
    else [p[0]] + Insert(p[1..], e)
  }

  // ----- draining -----

  datatype DrainResult = DrainResult(next: nat, delivered: seq<Segment>, rest: seq<Entry>)

  // Moves every pending segment that now starts at or below `next` out of the map, trimmed
  // to its undelivered tail; wholly redundant ones are dropped.
  function Drain(next: nat, p: seq<Entry>): DrainResult
    decreases |p|
  {
    if p == [] || p[0].key > next then DrainResult(next, [], p)
    else
      var seg := p[0].seg;
      if p[0].key + |seg.data| <= next then Drain(next, p[1..])
      else
        var tail := Trim(seg, next - p[0].key);
        var d := Drain(next + |tail.data|, p[1..]);
        d.(delivered := [tail] + d.delivered)
  }

  // ----- eviction -----

  predicate Fits(p: seq<Entry>, lim: Limits) {
    PendingBytes(p) <= lim.maxBytes && |p| <= lim.maxPackets
  }

  // How many of the lowest-keyed segments to give up: the fewest that bring both caps back.
  function EvictCount(p: seq<Entry>, lim: Limits): (k: nat)
    ensures k <= |p| && Fits(p[k..], lim)
    ensures forall j :: 0 <= j < k ==> !Fits(p[j..], lim)
  {
    if Fits(p, lim) then
      assert p[0..] == p;
      0
    else
      assert p[0..] == p;
      assert p != [];
      var k := EvictCount(p[1..], lim);
      assert forall j :: 1 <= j <= |p| ==> p[j..] == p[1..][j - 1..];
      k + 1
  }

  predicate Aged(since: Option<nat>, checked: nat, lim: Limits) {
    since.Some? && checked - since.value > lim.maxAge
  }

  // ----- one push -----

  datatype PushResult = PushResult(st: State, outcome: PushOutcome, evicted: seq<Entry>)

  // 32-bit wrapping subtraction.
  function Relative(base: U32, seqno: U32): nat {
    (seqno - base) % SEQ_SPACE
  }

  function SetIsn(st: State, first: U32): State {
    if st.base.None? then st.(base := Some(first)) else st
  }

  function Push(st: State, lim: Limits, a: Arrival): PushResult {
    if a.payload == [] then PushResult(st, DuplicateDiscarded, [])
    else
      var st1 := SetIsn(st, a.seqno);
      PushRelative(st1, lim, Segment(a.packet, a.start, a.end, a.payload),
                   Relative(st1.base.value, a.seqno), a.clock)
  }

  function PushRelative(st: State, lim: Limits, seg: Segment, rel: nat, clock: Clock): PushResult {
    if rel + |seg.data| <= st.next then PushResult(st, DuplicateDiscarded, [])
    else if rel <= st.next then
      var tail := Trim(seg, st.next - rel);
      var d := Drain(st.next + |tail.data|, st.pending);
      PushResult(State(st.base, d.next, st.contiguous + [tail] + d.delivered, d.rest,
                       if d.rest == [] then None else st.since),
                 Delivered, [])
    else Buffer(st, lim, Entry(rel, seg), clock)
  }

  function Buffer(st: State, lim: Limits, e: Entry, clock: Clock): PushResult {
    var existing := Find(st.pending, e.key);
    if existing.Some? && |existing.value.data| >= |e.seg.data| then
      PushResult(st, DuplicateDiscarded, [])
    else
      var since := if st.pending == [] then Some(clock.openedAt) else st.since;
      Settle(st, lim, Insert(st.pending, e), since, clock.checkedAt)
  }

  // Applies the three limits to the map as it has become.
  function Settle(st: State, lim: Limits, p: seq<Entry>, since: Option<nat>, checked: nat): PushResult {
    if Aged(since, checked, lim) then
      PushResult(st.(pending := [], since := None), GapAbandoned(PendingBytes(p)), p)
    else if Fits(p, lim) then
      PushResult(st.(pending := p, since := since), BufferedOutOfOrder, [])
    else
      var k := EvictCount(p, lim);
      PushResult(st.(pending := p[k..], since := if p[k..] == [] then None else since),
                 GapAbandoned(PendingBytes(p[..k])), p[..k])
  }

  // ----- consuming delivered bytes -----

  datatype TakeResult = TakeResult(bytes: Bytes, pieces: seq<SourcePiece>, rest: seq<Segment>)

  function Take(c: seq<Segment>, n: nat): TakeResult
    requires n <= |Concat(c)|
  {
    if n == 0 then TakeResult([], [], c)
    else
      var s := c[0];
      if |s.data| <= n then
        var r := Take(c[1..], n - |s.data|);
        TakeResult(s.data + r.bytes, [SourcePiece(s.packet, s.start, s.start + |s.data|)] + r.pieces, r.rest)
      else
        TakeResult(s.data[..n], [SourcePiece(s.packet, s.start, s.start + n)], [Trim(s, n)] + c[1..])
  }
}
