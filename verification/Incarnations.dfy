// The connection table seen one incarnation at a time: the entry of a key, and what its frames
// emitted and dropped, are the life of a single connection fed the frames since the key was
// last absent. What holds of every life therefore holds of the table.
module Incarnations {
  import opened Common
  import opened Pipeline
  import opened ConnectionRuns
  import opened DissectionRuns
  import T = TableRuns

  // The frames of the latest incarnation of a key, the closing one included.
  function Latest(frames: seq<Frame>, k: ConnKey): seq<Frame>
    decreases |frames|
  {
    if frames == [] then []
    else
      var init, f := frames[..|frames| - 1], frames[|frames| - 1];
      if FrameKey(f) != k then Latest(init, k)
      else if T.PresenceOf(init, k).Absent? then [f]
      else Latest(init, k) + [f]
  }

  // The life of the connection these frames make up; the sender of the first is the client.
  function LifeOf(env: Env, frames: seq<Frame>): Life
    requires frames != []
  {
    Live(env, frames[0].src, frames[0].dst, frames)
  }

  datatype Yield = Yield(messages: seq<Message>, dropped: nat)

  // What a table run emitted and dropped in one direction of the latest incarnation of a key.
  function YieldOf(env: Env, frames: seq<Frame>, k: ConnKey, isUp: bool): Yield
    decreases |frames|
  {
    if frames == [] then Yield([], 0)
    else
      var n := |frames| - 1;
      var init, f := frames[..n], frames[n];
      if FrameKey(f) != k then YieldOf(env, init, k, isUp)
      else
        var before := if T.PresenceOf(init, k).Absent? then Yield([], 0) else YieldOf(env, init, k, isUp);
        var r := T.RunAll(env, frames);
        if (f.src == Latest(frames, k)[0].src) != isUp then before
        else Yield(before.messages + r.outs[n], before.dropped + r.drops[n])
  }

  ghost predicate Yielded(t: Trail, y: Yield) {
    t.messages == y.messages && t.dropped == y.dropped
  }

  // The table run and the connection's life tell the same story.
  ghost predicate Mirrors(env: Env, frames: seq<Frame>, k: ConnKey) {
    var cur, conns := Latest(frames, k), T.RunAll(env, frames).table.conns;
    && (k in conns ==> cur != [] && conns[k] == LifeOf(env, cur).conn)
    && (cur != [] ==> forall isUp :: Yielded(LifeOf(env, cur).Trail(isUp), YieldOf(env, frames, k, isUp)))
  }

  // One frame of the key, from the life it continues.
  lemma GrowMirrors(env: Env, frames: seq<Frame>, k: ConnKey, before: Life)
    requires frames != [] && FrameKey(frames[|frames| - 1]) == k
    requires var init, f := frames[..|frames| - 1], frames[|frames| - 1];
             var absent, cur := T.PresenceOf(init, k).Absent?, Latest(frames, k);
             && before.conn == Lookup(T.RunAll(env, init).table, f)
             && before.conn.client == cur[0].src
             && LifeOf(env, cur) == Grow(env, before, f)
             && forall isUp ::
                  Yielded(before.Trail(isUp), if absent then Yield([], 0) else YieldOf(env, init, k, isUp))
    ensures Mirrors(env, frames, k)
  {
    var f := frames[|frames| - 1];
    var a := Absorb(env, before.conn, f);
    assert T.RunAll(env, frames).outs[|frames| - 1] == a.messages;
    assert T.RunAll(env, frames).drops[|frames| - 1] == a.dropped;
    forall isUp
      ensures Yielded(LifeOf(env, Latest(frames, k)).Trail(isUp), YieldOf(env, frames, k, isUp))
    {
      var init := frames[..|frames| - 1];
      var past := if T.PresenceOf(init, k).Absent? then Yield([], 0) else YieldOf(env, init, k, isUp);
      assert Yielded(before.Trail(isUp), past);
    }
  }

  lemma LifeSnoc(env: Env, cur: seq<Frame>, f: Frame)
    requires cur != []
    ensures LifeOf(env, cur + [f]) == Grow(env, LifeOf(env, cur), f)
  {
    assert (cur + [f])[..|cur|] == cur;
  }

  lemma FirstLife(env: Env, f: Frame)
    ensures LifeOf(env, [f]) == Grow(env, Life(NewConn(f.src, f.dst), NO_TRAIL, NO_TRAIL), f)
  {
    assert [f][..0] == [];
    assert Live(env, f.src, f.dst, [f]) == Grow(env, Live(env, f.src, f.dst, [f][..0]), f);
  }

  // After every capture, a key is in the table exactly while its latest incarnation is open, the
  // entry is then the connection that incarnation's frames alone lead to, and what they emitted
  // and dropped in the table run is what they emit and drop in that connection's life.
  lemma {:induction false} TableIsLatestIncarnation(env: Env, frames: seq<Frame>, k: ConnKey)
    ensures k in T.RunAll(env, frames).table.conns <==> T.PresenceOf(frames, k).Open?
    ensures Mirrors(env, frames, k)
    decreases |frames|
  {
    T.TableHoldsOpenConnections(env, frames, k);
    if frames != [] {
      var init, f := frames[..|frames| - 1], frames[|frames| - 1];
      TableIsLatestIncarnation(env, init, k);
      var cur, t := Latest(init, k), T.RunAll(env, init).table;
      if FrameKey(f) != k {
        T.ProcessSparesOthers(env, t, f, k);
      } else if T.PresenceOf(init, k).Absent? {
        FirstLife(env, f);
        GrowMirrors(env, frames, k, Life(NewConn(f.src, f.dst), NO_TRAIL, NO_TRAIL));
      } else {
        LifeSnoc(env, cur, f);
        DirectionsAreIndependent(env, cur[0].src, cur[0].dst, cur, true);
        GrowMirrors(env, frames, k, LifeOf(env, cur));
      }
    }
  }

  // The tail an entry holds, what was dropped and what was consumed account for every byte of
  // application plaintext the entry's incarnation has emitted.
  lemma TableConservesPlaintext(env: Env, frames: seq<Frame>, k: ConnKey, isUp: bool)
    requires k in T.RunAll(env, frames).table.conns
    requires Registered(env, T.RunAll(env, frames).table.conns[k].server.port)
    ensures var conn, y := T.RunAll(env, frames).table.conns[k], YieldOf(env, frames, k, isUp);
            var plaintexts := T.Payloads(y.messages);
            var consumed := ConsumedOf(env, conn.server.port, plaintexts);
            Accounted(env, consumed, y.dropped, conn.Side(isUp).tail, Flatten(plaintexts))
  {
    TableIsLatestIncarnation(env, frames, k);
    var cur := Latest(frames, k);
    assert Yielded(LifeOf(env, cur).Trail(isUp), YieldOf(env, frames, k, isUp));
    DirectionsAreIndependent(env, cur[0].src, cur[0].dst, cur, isUp);
    ConnectionConservesPlaintext(env, cur[0].src, cur[0].dst, cur, isUp);
  }
}
