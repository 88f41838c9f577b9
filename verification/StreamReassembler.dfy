// The reassembler as the program has it: one object whose fields its calls update in place.
// Every call is proved to carry the abstract state where the functions of Reassembly say.
module StreamReassemblers {
  import opened Common
  import opened Reassembly
  import opened ReassemblySteps

  // A drain that goes on after some segments were delivered.
  function Following(done: seq<Segment>, d: DrainResult): DrainResult {
    d.(delivered := done + d.delivered)
  }

  // One pass of the drain loop: the first segment is dropped, or delivered past what is known.
  lemma DrainFirst(next: nat, p: seq<Entry>, done: seq<Segment>)
    requires p != [] && p[0].key <= next
    ensures Following(done, Drain(next, p)) ==
            if p[0].key + |p[0].seg.data| <= next then Following(done, Drain(next, p[1..]))
            else
              var tail := Trim(p[0].seg, next - p[0].key);
              Following(done + [tail], Drain(next + |tail.data|, p[1..]))
  {
    if p[0].key + |p[0].seg.data| > next {
      var tail := Trim(p[0].seg, next - p[0].key);
      Assoc(done, [tail], Drain(next + |tail.data|, p[1..]).delivered);
    }
  }

  lemma EvictFirst(p: seq<Entry>, k: nat)
    requires k < |p|
    ensures PendingBytes(p[..k + 1]) == PendingBytes(p[..k]) + |p[k].seg.data|
    ensures PendingBytes(p[k..]) == |p[k].seg.data| + PendingBytes(p[k + 1..]) && p[k..][1..] == p[k + 1..]
  {
    assert p[..k] + [p[k]] == p[..k + 1];
    assert [p[k]][1..] == [];
    PendingBytesAppend(p[..k], [p[k]]);
  }

  // A take that goes on after some bytes and pieces were handed out.
  function Resuming(out: Bytes, pieces: seq<SourcePiece>, r: TakeResult): TakeResult {
    TakeResult(out + r.bytes, pieces + r.pieces, r.rest)
  }

  // One pass of the taking loop: the first segment goes whole, or its front does.
  lemma TakeFirst(c: seq<Segment>, n: nat, out: Bytes, pieces: seq<SourcePiece>)
    requires 0 < n <= |Concat(c)|
    ensures var seg, take := c[0], Min(n, |c[0].data|);
            var rest := if take == |seg.data| then c[1..] else [Trim(seg, take)] + c[1..];
            && |Concat(rest)| == |Concat(c)| - take
            && Resuming(out, pieces, Take(c, n))
               == Resuming(out + seg.data[..take], pieces + [SourcePiece(seg.packet, seg.start, seg.start + take)],
                           Take(rest, n - take))
  {
    var seg, take := c[0], Min(n, |c[0].data|);
    var piece := SourcePiece(seg.packet, seg.start, seg.start + take);
    if take == |seg.data| {
      var r := Take(c[1..], n - take);
      assert seg.data[..take] == seg.data;
      Assoc(out, seg.data, r.bytes);
      Assoc(pieces, [piece], r.pieces);
    } else {
      assert ([Trim(seg, take)] + c[1..])[1..] == c[1..];
      assert out + seg.data[..take] + [] == out + seg.data[..take] && pieces + [piece] + [] == pieces + [piece];
    }
  }

  class StreamReassembler {
    var base: Option<U32>
    var next: nat
    var contiguous: seq<Segment>
    var contiguousLen: nat
    var pending: seq<Entry>
    var pendingLen: nat
    var since: Option<nat>
    const limits: Limits

    // The two length fields are the lengths they stand for.
    ghost predicate Coherent()
      reads this
    {
      contiguousLen == |Concat(contiguous)| && pendingLen == PendingBytes(pending)
    }

    ghost function Abstract(): State
      reads this
    {
      State(base, next, contiguous, pending, since)
    }

    constructor (limits: Limits)
      ensures Coherent() && Abstract() == FRESH && this.limits == limits && Valid(Abstract(), limits)
    {
      this.limits := limits;
      base, next, contiguous, contiguousLen := None, 0, [], 0;
      pending, pendingLen, since := [], 0, None;
    }

    method SetInitialSequence(first: U32)
      requires Coherent()
      modifies this
      ensures Coherent()
      ensures Abstract() == SetIsn(old(Abstract()), first)
    {
      if base.None? {
        base := Some(first);
      }
    }

    method PushPacket(a: Arrival) returns (outcome: PushOutcome)
      requires Coherent() && Valid(Abstract(), limits)
      modifies this
      ensures Coherent() && Valid(Abstract(), limits)
      ensures Abstract() == Push(old(Abstract()), limits, a).st
      ensures outcome == Push(old(Abstract()), limits, a).outcome
    {
      PushKeepsValid(Abstract(), limits, a);
      if a.payload == [] {
        return DuplicateDiscarded;
      }
      if base.None? {
        base := Some(a.seqno);
      }
      var rel := Relative(base.value, a.seqno);
      outcome := PushAt(Segment(a.packet, a.start, a.end, a.payload), rel, a.clock);
    }

    method PushAt(seg: Segment, rel: nat, clock: Clock) returns (outcome: PushOutcome)
      requires Coherent() && Sorted(pending)
      modifies this
      ensures Coherent()
      ensures Abstract() == PushRelative(old(Abstract()), limits, seg, rel, clock).st
      ensures outcome == PushRelative(old(Abstract()), limits, seg, rel, clock).outcome
    {
      if rel + |seg.data| <= next {
        return DuplicateDiscarded;
      }
      var at, owned := rel, seg;
      if rel < next {
        at, owned := next, Trim(seg, next - rel);
      }
      if at == next {
        Deliver(owned);
        DrainPending();
        outcome := Delivered;
      } else {
        outcome := BufferPending(at, owned, clock);
      }
    }

    method Deliver(seg: Segment)
      requires Coherent()
      modifies this`next, this`contiguous, this`contiguousLen
      ensures Coherent()
      ensures next == old(next) + |seg.data| && contiguous == old(contiguous) + [seg]
    {
      ConcatAppend(contiguous, [seg]);
      next := next + |seg.data|;
      contiguousLen := contiguousLen + |seg.data|;
      contiguous := contiguous + [seg];
    }

    method DrainPending()
      requires Coherent()
      modifies this`next, this`contiguous, this`contiguousLen, this`pending, this`pendingLen, this`since
      ensures Coherent()
      ensures var d := Drain(old(next), old(pending));
              && next == d.next
              && contiguous == old(contiguous) + d.delivered
              && pending == d.rest
              && since == if d.rest == [] then None else old(since)
    {
      ghost var done: seq<Segment> := [];
      while pending != []
        invariant Coherent() && since == old(since)
        invariant contiguous == old(contiguous) + done
        invariant Following([], Drain(old(next), old(pending))) == Following(done, Drain(next, pending))
        decreases |pending|
      {
        var key, seg := pending[0].key, pending[0].seg;
        if key > next {
          break;
        }
        DrainFirst(next, pending, done);
        pending, pendingLen := pending[1..], pendingLen - |seg.data|;
        if key + |seg.data| > next {
          var tail := Trim(seg, next - key);
          Deliver(tail);
          done := done + [tail];
        }
      }
      assert done + [] == done
             && [] + Drain(old(next), old(pending)).delivered == Drain(old(next), old(pending)).delivered;
      if pending == [] {
        since := None;
      }
    }

    method BufferPending(key: nat, seg: Segment, clock: Clock) returns (outcome: PushOutcome)
      requires Coherent() && Sorted(pending)
      modifies this`pending, this`pendingLen, this`since
      ensures Coherent()
      ensures Abstract() == Buffer(old(Abstract()), limits, Entry(key, seg), clock).st
      ensures outcome == Buffer(old(Abstract()), limits, Entry(key, seg), clock).outcome
    {
      var existing := Find(pending, key);
      InsertBytes(pending, Entry(key, seg));
      if existing.Some? {
        if |existing.value.data| >= |seg.data| {
          return DuplicateDiscarded;
        }
        pendingLen := pendingLen - |existing.value.data|;
      }
      if pending == [] {
        since := Some(clock.openedAt);
      }
      pending := Insert(pending, Entry(key, seg));
      pendingLen := pendingLen + |seg.data|;
      var aged := Aged(since, clock.checkedAt, limits);
      if pendingLen <= limits.maxBytes && |pending| <= limits.maxPackets && !aged {
        return BufferedOutOfOrder;
      }
      if aged {
        var evicted := pendingLen;
        pending, pendingLen, since := [], 0, None;
        return GapAbandoned(evicted);
      }
      outcome := EvictOldest();
    }

    method EvictOldest() returns (outcome: PushOutcome)
      requires Coherent()
      modifies this`pending, this`pendingLen, this`since
      ensures Coherent()
      ensures var p, k := old(pending), EvictCount(old(pending), limits);
              && pending == p[k..]
              && outcome == GapAbandoned(PendingBytes(p[..k]))
              && since == if pending == [] then None else old(since)
    {
      var evicted: nat := 0;
      ghost var k := 0;
      while pendingLen > limits.maxBytes || |pending| > limits.maxPackets
        invariant Coherent() && since == old(since)
        invariant 0 <= k <= EvictCount(old(pending), limits)
        invariant pending == old(pending)[k..]
        invariant evicted == PendingBytes(old(pending)[..k])
        decreases |pending|
      {
        assert !Fits(old(pending)[k..], limits);
        EvictFirst(old(pending), k);
        pendingLen := pendingLen - |pending[0].seg.data|;
        evicted := evicted + |pending[0].seg.data|;
        pending := pending[1..];
        k := k + 1;
      }
      if pending == [] {
        since := None;
      }
      return GapAbandoned(evicted);
    }

    // Copies out up to n queued bytes without consuming them.
    method Peek(n: nat) returns (out: Bytes)
      requires Coherent()
      ensures out == Concat(contiguous)[..Min(n, contiguousLen)]
    {
      out := [];
      var i := 0;
      while i < |contiguous| && |out| < n
        invariant 0 <= i <= |contiguous|
        invariant out == Concat(contiguous[..i])[..Min(n, |Concat(contiguous[..i])|)]
      {
        ConcatAppend(contiguous[..i], [contiguous[i]]);
        assert contiguous[..i] + [contiguous[i]] == contiguous[..i + 1];
        assert Concat([contiguous[i]]) == contiguous[i].data;
        var take := Min(n - |out|, |contiguous[i].data|);
        out := out + contiguous[i].data[..take];
        i := i + 1;
      }
      ConcatAppend(contiguous[..i], contiguous[i..]);
      assert contiguous[..i] + contiguous[i..] == contiguous;
    }

    method TakeBytes(n: nat) returns (out: Bytes, pieces: seq<SourcePiece>)
      requires Coherent() && n <= contiguousLen
      modifies this`contiguous, this`contiguousLen
      ensures Coherent()
      ensures var r := Take(old(contiguous), n);
              out == r.bytes && pieces == r.pieces && contiguous == r.rest
    {
      out, pieces := [], [];
      var remaining: nat := n;
      while remaining > 0
        invariant Coherent() && remaining <= contiguousLen
        invariant Resuming([], [], Take(old(contiguous), n)) == Resuming(out, pieces, Take(contiguous, remaining))
        decreases remaining, |contiguous|
      {
        var seg := contiguous[0];
        var take := Min(remaining, |seg.data|);
        TakeFirst(contiguous, remaining, out, pieces);
        out := out + seg.data[..take];
        pieces := pieces + [SourcePiece(seg.packet, seg.start, seg.start + take)];
        if take == |seg.data| {
          contiguous := contiguous[1..];
        } else {
          contiguous := [Trim(seg, take)] + contiguous[1..];
        }
        contiguousLen := contiguousLen - take;
        remaining := remaining - take;
      }
      ghost var r := Take(old(contiguous), n);
      assert [] + r.bytes == r.bytes && [] + r.pieces == r.pieces && out + [] == out && pieces + [] == pieces;
    }
  }

  lemma {:induction false} InsertBytes(p: seq<Entry>, e: Entry)
    requires Sorted(p)
    ensures Find(p, e.key).Some? ==> |Find(p, e.key).value.data| <= PendingBytes(p)
    ensures PendingBytes(Insert(p, e))
         == PendingBytes(p) + |e.seg.data| - if Find(p, e.key).Some? then |Find(p, e.key).value.data| else 0
  {
    if p != [] {
      InsertBytes(p[1..], e);
      if e.key < p[0].key {
        FindIsMember(p, e.key);
      }
    }
  }
}
