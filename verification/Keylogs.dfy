// The key log: an index from (client random, label) to a secret, built line by line.
module Keylogs {
  import opened Common

  datatype Label =
    | ClientRandom
    | ClientHandshakeTrafficSecret
    | ServerHandshakeTrafficSecret
    | ClientTrafficSecret0
    | ServerTrafficSecret0
    | Other(name: string)

  function ParseLabel(s: string): Label {
    if s == "CLIENT_RANDOM" then ClientRandom
    else if s == "CLIENT_HANDSHAKE_TRAFFIC_SECRET" then ClientHandshakeTrafficSecret
    else if s == "SERVER_HANDSHAKE_TRAFFIC_SECRET" then ServerHandshakeTrafficSecret
    else if s == "CLIENT_TRAFFIC_SECRET_0" then ClientTrafficSecret0
    else if s == "SERVER_TRAFFIC_SECRET_0" then ServerTrafficSecret0
    else Other(s)
  }

  // One line after tokenising: blank, comment and malformed lines bind nothing.
  datatype Line = Skipped | Binding(text: string, random: Bytes, secret: Bytes)

  type Keylog = map<Bytes, map<Label, Bytes>>

  function SecretFor(k: Keylog, random: Bytes, tag: Label): Option<Bytes> {
    if random in k && tag in k[random] then Some(k[random][tag]) else None
  }

  function Bind(k: Keylog, line: Line): Keylog {
    match line
    case Skipped => k
    case Binding(text, random, secret) =>
      var inner := if random in k then k[random] else map[];
      k[random := inner[ParseLabel(text) := secret]]
  }

  function BindAll(lines: seq<Line>): Keylog
    decreases |lines|
  {
    if lines == [] then map[] else Bind(BindAll(lines[..|lines| - 1]), lines[|lines| - 1])
  }

  predicate Binds(line: Line, random: Bytes, tag: Label) {
    line.Binding? && line.random == random && ParseLabel(line.text) == tag
  }

  // The secret of the last line that binds the pair.
  function LastSecret(lines: seq<Line>, random: Bytes, tag: Label): Option<Bytes>
    decreases |lines|
  {
    if lines == [] then None
    else if Binds(lines[|lines| - 1], random, tag) then Some(lines[|lines| - 1].secret)
    else LastSecret(lines[..|lines| - 1], random, tag)
  }

  function Entries(lines: seq<Line>): nat
    decreases |lines|
  {
    if lines == [] then 0
    else Entries(lines[..|lines| - 1]) + if lines[|lines| - 1].Binding? then 1 else 0
  }

  lemma {:induction false} LookupIsLastBinding(lines: seq<Line>, random: Bytes, tag: Label)
    ensures SecretFor(BindAll(lines), random, tag) == LastSecret(lines, random, tag)
    decreases |lines|
  {
    if lines != [] {
      LookupIsLastBinding(lines[..|lines| - 1], random, tag);
    }
  }

  method Parse(lines: seq<Line>) returns (k: Keylog, count: nat)
    ensures forall random, tag :: SecretFor(k, random, tag) == LastSecret(lines, random, tag)
    ensures k == BindAll(lines) && count == Entries(lines)
  {
    k, count := map[], 0;
    for i := 0 to |lines|
      invariant k == BindAll(lines[..i]) && count == Entries(lines[..i])
    {
      assert lines[..i + 1][..i] == lines[..i];
      var line := lines[i];
      if line.Binding? {
        var inner := if line.random in k then k[line.random] else map[];
        k := k[line.random := inner[ParseLabel(line.text) := line.secret]];
        count := count + 1;
      }
    }
    assert lines[..|lines|] == lines;
    forall random, tag
      ensures SecretFor(k, random, tag) == LastSecret(lines, random, tag)
    {
      LookupIsLastBinding(lines, random, tag);
    }
  }

  // Parsing a log grown by whole lines is the overlay of the two parses.
  lemma {:induction false} GrownLogOverlays(before: seq<Line>, added: seq<Line>, random: Bytes, tag: Label)
    ensures var later := SecretFor(BindAll(added), random, tag);
            SecretFor(BindAll(before + added), random, tag)
            == if later.Some? then later else SecretFor(BindAll(before), random, tag)
    ensures Entries(before + added) == Entries(before) + Entries(added)
    decreases |added|
  {
    if added == [] {
      assert before + added == before;
    } else {
      var init := added[..|added| - 1];
      assert (before + added)[..|before + added| - 1] == before + init;
      GrownLogOverlays(before, init, random, tag);
    }
  }

  // Every secret the smaller log knows is what the larger one knows.
  ghost predicate Agrees(k: Keylog, full: Keylog) {
    forall random, tag :: SecretFor(k, random, tag).Some? ==>
      SecretFor(full, random, tag) == SecretFor(k, random, tag)
  }

  // No line binds a pair to another secret than an earlier line did.
  ghost predicate NoRebinding(lines: seq<Line>) {
    forall i, j :: 0 <= i < j < |lines| ==> !Rebinds(lines[i], lines[j])
  }

  predicate Rebinds(earlier: Line, later: Line) {
    && earlier.Binding?
    && Binds(later, earlier.random, ParseLabel(earlier.text))
    && later.secret != earlier.secret
  }

  lemma {:induction false} LastSecretIsSome(lines: seq<Line>, random: Bytes, tag: Label)
    ensures var s := LastSecret(lines, random, tag);
            if s.Some? then exists i :: 0 <= i < |lines| && Binds(lines[i], random, tag) && lines[i].secret == s.value
            else forall i :: 0 <= i < |lines| ==> !Binds(lines[i], random, tag)
    decreases |lines|
  {
    if lines != [] {
      LastSecretIsSome(lines[..|lines| - 1], random, tag);
    }
  }

  // Any snapshot of a log that never rebinds agrees with the log as it finally stands.
  lemma SnapshotsAgree(lines: seq<Line>, n: nat)
    requires NoRebinding(lines) && n <= |lines|
    ensures Agrees(BindAll(lines[..n]), BindAll(lines))
  {
    forall random, tag | SecretFor(BindAll(lines[..n]), random, tag).Some?
      ensures SecretFor(BindAll(lines), random, tag) == SecretFor(BindAll(lines[..n]), random, tag)
    {
      LookupIsLastBinding(lines[..n], random, tag);
      LookupIsLastBinding(lines, random, tag);
      SnapshotAgrees(lines, n, random, tag);
    }
  }

  lemma SnapshotAgrees(lines: seq<Line>, n: nat, random: Bytes, tag: Label)
    requires NoRebinding(lines) && n <= |lines| && LastSecret(lines[..n], random, tag).Some?
    ensures LastSecret(lines, random, tag) == LastSecret(lines[..n], random, tag)
  {
    var early, late := LastSecret(lines[..n], random, tag), LastSecret(lines, random, tag);
    LastSecretIsSome(lines[..n], random, tag);
    LastSecretIsSome(lines, random, tag);
    var i :| 0 <= i < n && Binds(lines[..n][i], random, tag) && lines[..n][i].secret == early.value;
    assert Binds(lines[i], random, tag);
    var j :| 0 <= j < |lines| && Binds(lines[j], random, tag) && lines[j].secret == late.value;
    assert i < j ==> !Rebinds(lines[i], lines[j]);
    assert j < i ==> !Rebinds(lines[j], lines[i]);
  }
}
