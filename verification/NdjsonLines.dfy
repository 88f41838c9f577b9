// One line per TLS record, or per occurrence of the exploded group: each line is one complete
// JSON object, and reading the output back line by line recovers the objects written.
module NdjsonLines {
  import opened Common
  import opened Fields
  import opened Json
  import opened Ndjson
  import opened Pipeline

  // `order` lists the selected dissector groups; `groups` all selected ones.
  datatype Config = Config(groups: set<string>, order: seq<string>, explode: Option<string>, maps: set<string>)

  datatype Record = Record(srcIp: string, dstIp: string, srcPort: nat, dstPort: nat,
                           appData: Bytes, fields: FrameFields, micros: nat)

  // The record to write for a message: addresses as text, the capture time in microseconds.
  function RecordOf(m: Message, text: nat -> string): Record {
    Record(text(m.src.ip), text(m.dst.ip), m.src.port, m.dst.port, m.appData, m.fields, m.timestamp / 1000)
  }

  // ----- the objects -----

  // The envelope every line repeats.
  function Envelope(cfg: Config, r: Record): seq<(string, Json)> {
    [("kind", Text("tls_record")), ("tstamp", Num(r.micros))]
    + (if "ip" in cfg.groups then [("ip", Obj([("src", Text(r.srcIp)), ("dst", Text(r.dstIp))]))] else [])
    + (if "tcp" in cfg.groups then [("tcp", Obj([("srcport", Num(r.srcPort)), ("dstport", Num(r.dstPort))]))] else [])
    + (if "tls" in cfg.groups then [("tls", Obj([("app_data", Text(Hex(r.appData)))]))] else [])
  }

  // The member of one selected group; None when it did not fire.
  function GroupMember(cfg: Config, r: Record, group: string, exploded: Option<(string, FieldValue)>)
    : Option<(string, Json)>
  {
    if exploded.Some? && exploded.value.0 == group then Some((group, ValueJson(exploded.value.1, group, cfg.maps)))
    else if group in FirstOccurrences(r.fields.entries) then
      ValuesAreShallow(r.fields.entries, group);
      Some((group, NamedJson(group, ValuesOf(r.fields.entries, group), group, cfg.maps, DepthOf(r.fields.entries))))
    else None
  }

  function GroupMembers(cfg: Config, r: Record, exploded: Option<(string, FieldValue)>,
                        order: seq<string>): seq<(string, Json)>
    decreases |order|
  {
    if order == [] then []
    else
      var before := GroupMembers(cfg, r, exploded, order[..|order| - 1]);
      var m := GroupMember(cfg, r, order[|order| - 1], exploded);
      if m.Some? then before + [m.value] else before
  }

  function RecordJson(cfg: Config, r: Record, exploded: Option<(string, FieldValue)>): Json {
    Obj(Envelope(cfg, r) + GroupMembers(cfg, r, exploded, cfg.order))
  }

  // The occurrences of the group to explode.
  function Occurrences(cfg: Config, r: Record): seq<FieldValue> {
    if cfg.explode.Some? then ValuesOf(r.fields.entries, cfg.explode.value) else []
  }

  function Objects(cfg: Config, r: Record): seq<Json> {
    var vs := Occurrences(cfg, r);
    if vs == [] then [RecordJson(cfg, r, None)]
    else seq(|vs|, i requires 0 <= i < |vs| => RecordJson(cfg, r, Some((cfg.explode.value, vs[i]))))
  }

  function LinesOf(objs: seq<Json>): string {
    if objs == [] then [] else Render(objs[0]) + ['\n'] + LinesOf(objs[1..])
  }

  lemma {:induction false} LinesOfSnoc(objs: seq<Json>, j: Json)
    ensures LinesOf(objs + [j]) == LinesOf(objs) + (Render(j) + "\n")
  {
    if objs == [] {
      assert objs + [j] == [j];
    } else {
      LinesOfSnoc(objs[1..], j);
      assert (objs + [j])[1..] == objs[1..] + [j];
    }
  }

  // ----- what a line says -----

  // The value under a name of an object: that of the first member so named.
  function Field(j: Json, name: string): Option<Json> {
    if j.Obj? then FirstNamed(j.members, name) else None
  }

  function FirstNamed(ms: seq<(string, Json)>, name: string): Option<Json> {
    if ms == [] then None else if ms[0].0 == name then Some(ms[0].1) else FirstNamed(ms[1..], name)
  }

  function FieldOf(j: Json, outer: string, inner: string): Option<Json> {
    var o := Field(j, outer);
    if o.None? then None else Field(o.value, inner)
  }

  lemma {:induction false} FirstNamedAppend(p: seq<(string, Json)>, q: seq<(string, Json)>, name: string)
    ensures FirstNamed(p + q, name) == if FirstNamed(p, name).Some? then FirstNamed(p, name) else FirstNamed(q, name)
  {
    if p == [] {
      assert p + q == q;
    } else {
      assert (p + q)[1..] == p[1..] + q && (p + q)[0] == p[0];
      FirstNamedAppend(p[1..], q, name);
    }
  }

  // Every line of a message tells its kind and time, its two addresses and ports, each under its
  // own name, and its application data in hexadecimal, as far as these are selected.
  lemma LineTellsMessage(cfg: Config, m: Message, text: nat -> string, exploded: Option<(string, FieldValue)>)
    ensures var j := RecordJson(cfg, RecordOf(m, text), exploded);
            && Field(j, "kind") == Some(Text("tls_record")) && Field(j, "tstamp") == Some(Num(m.timestamp / 1000))
            && ("ip" in cfg.groups ==>
                  && FieldOf(j, "ip", "src") == Some(Text(text(m.src.ip)))
                  && FieldOf(j, "ip", "dst") == Some(Text(text(m.dst.ip))))
            && ("tcp" in cfg.groups ==>
                  && FieldOf(j, "tcp", "srcport") == Some(Num(m.src.port))
                  && FieldOf(j, "tcp", "dstport") == Some(Num(m.dst.port)))
            && ("tls" in cfg.groups ==>
                  exists data :: FieldOf(j, "tls", "app_data") == Some(Text(data)) && Unhex(data) == m.appData)
  {
    var r := RecordOf(m, text);
    var groups := GroupMembers(cfg, r, exploded, cfg.order);
    FirstNamedAppend(Envelope(cfg, r), groups, "kind");
    FirstNamedAppend(Envelope(cfg, r), groups, "tstamp");
    FirstNamedAppend(Envelope(cfg, r), groups, "ip");
    FirstNamedAppend(Envelope(cfg, r), groups, "tcp");
    FirstNamedAppend(Envelope(cfg, r), groups, "tls");
    EnvelopeFields(cfg, r);
    TwoNamed(("src", Text(r.srcIp)), ("dst", Text(r.dstIp)), "src");
    TwoNamed(("src", Text(r.srcIp)), ("dst", Text(r.dstIp)), "dst");
    TwoNamed(("srcport", Num(r.srcPort)), ("dstport", Num(r.dstPort)), "srcport");
    TwoNamed(("srcport", Num(r.srcPort)), ("dstport", Num(r.dstPort)), "dstport");
    UnhexInverts(m.appData);
  }

  lemma EnvelopeFields(cfg: Config, r: Record)
    ensures var ms := Envelope(cfg, r);
            && FirstNamed(ms, "kind") == Some(Text("tls_record")) && FirstNamed(ms, "tstamp") == Some(Num(r.micros))
            && ("ip" in cfg.groups ==>
                  FirstNamed(ms, "ip") == Some(Obj([("src", Text(r.srcIp)), ("dst", Text(r.dstIp))])))
            && ("tcp" in cfg.groups ==>
                  FirstNamed(ms, "tcp") == Some(Obj([("srcport", Num(r.srcPort)), ("dstport", Num(r.dstPort))])))
            && ("tls" in cfg.groups ==> FirstNamed(ms, "tls") == Some(Obj([("app_data", Text(Hex(r.appData)))])))
  {
    EnvelopeField(cfg, r, "kind");
    EnvelopeField(cfg, r, "tstamp");
    EnvelopeField(cfg, r, "ip");
    EnvelopeField(cfg, r, "tcp");
    EnvelopeField(cfg, r, "tls");
  }

  lemma OneOrNone(present: bool, named: string, j: Json, name: string)
    ensures FirstNamed(if present then [(named, j)] else [], name)
         == if present && name == named then Some(j) else None
  {
  }

  lemma TwoNamed(a: (string, Json), b: (string, Json), name: string)
    ensures FirstNamed([a, b], name) == if name == a.0 then Some(a.1) else if name == b.0 then Some(b.1) else None
  {
    assert [a, b][1..] == [b] && [b][1..] == [];
    assert FirstNamed([b], name) == if b.0 == name then Some(b.1) else FirstNamed([], name);
    assert FirstNamed([a, b], name) == if a.0 == name then Some(a.1) else FirstNamed([b], name);
  }

  lemma EnvelopeField(cfg: Config, r: Record, name: string)
    ensures FirstNamed(Envelope(cfg, r), name)
         == if name == "kind" then Some(Text("tls_record"))
            else if name == "tstamp" then Some(Num(r.micros))
            else if name == "ip" && "ip" in cfg.groups then Some(Obj([("src", Text(r.srcIp)), ("dst", Text(r.dstIp))]))
            else if name == "tcp" && "tcp" in cfg.groups then
              Some(Obj([("srcport", Num(r.srcPort)), ("dstport", Num(r.dstPort))]))
            else if name == "tls" && "tls" in cfg.groups then Some(Obj([("app_data", Text(Hex(r.appData)))]))
            else None
  {
    var ipj := Obj([("src", Text(r.srcIp)), ("dst", Text(r.dstIp))]);
    var tcpj := Obj([("srcport", Num(r.srcPort)), ("dstport", Num(r.dstPort))]);
    var tlsj := Obj([("app_data", Text(Hex(r.appData)))]);
    var start := [("kind", Text("tls_record")), ("tstamp", Num(r.micros))];
    var ip := if "ip" in cfg.groups then [("ip", ipj)] else [];
    var tcp := if "tcp" in cfg.groups then [("tcp", tcpj)] else [];
    var tls := if "tls" in cfg.groups then [("tls", tlsj)] else [];
    FirstNamedAppend(start, ip, name);
    FirstNamedAppend(start + ip, tcp, name);
    FirstNamedAppend(start + ip + tcp, tls, name);
    TwoNamed(start[0], start[1], name);
    OneOrNone("ip" in cfg.groups, "ip", ipj, name);
    OneOrNone("tcp" in cfg.groups, "tcp", tcpj, name);
    OneOrNone("tls" in cfg.groups, "tls", tlsj, name);
  }

  // After the envelope come the selected groups that occur, in the order selected; the exploded
  // one with a single occurrence, every other with all of its occurrences.
  lemma {:induction false} GroupsAsSelected(cfg: Config, r: Record, exploded: Option<(string, FieldValue)>,
                                            p: seq<string>, q: seq<string>, group: string)
    ensures GroupMembers(cfg, r, exploded, p + q)
         == GroupMembers(cfg, r, exploded, p) + GroupMembers(cfg, r, exploded, q)
    ensures var ms := GroupMembers(cfg, r, exploded, [group]);
            if exploded.Some? && exploded.value.0 == group then
              ms == [(group, ValueJson(exploded.value.1, group, cfg.maps))]
            else if exists e :: e in r.fields.entries && e.0 == group then
              |ms| == 1 && ms[0].0 == group
              && (group in cfg.maps ==> ms[0].1 == Obj(MapMembers(ValuesOf(r.fields.entries, group), group)))
              && (group !in cfg.maps ==>
                    |OccurrencesIn(ms[0].1)| == |ValuesOf(r.fields.entries, group)|
                    && forall i :: 0 <= i < |ValuesOf(r.fields.entries, group)| ==>
                         OccurrencesIn(ms[0].1)[i] == ValueJson(ValuesOf(r.fields.entries, group)[i], group, cfg.maps))
            else ms == []
    decreases |q|
  {
    OneGroup(cfg, r, exploded, group);
    if q == [] {
      assert p + q == p;
    } else {
      assert (p + q)[..|p + q| - 1] == p + q[..|q| - 1] && (p + q)[|p + q| - 1] == q[|q| - 1];
      GroupsAsSelected(cfg, r, exploded, p, q[..|q| - 1], group);
    }
  }

  lemma OneGroup(cfg: Config, r: Record, exploded: Option<(string, FieldValue)>, group: string)
    ensures var m := GroupMember(cfg, r, group, exploded);
            GroupMembers(cfg, r, exploded, [group]) == if m.Some? then [m.value] else []
    ensures (exists e :: e in r.fields.entries && e.0 == group) <==> group in FirstOccurrences(r.fields.entries)
    ensures group !in cfg.maps ==>
              var values := ValuesOf(r.fields.entries, group);
              && Within(values, DepthOf(r.fields.entries))
              && var j := NamedJson(group, values, group, cfg.maps, DepthOf(r.fields.entries));
                 |OccurrencesIn(j)| == |values|
                 && forall i :: 0 <= i < |values| ==> OccurrencesIn(j)[i] == ValueJson(values[i], group, cfg.maps)
  {
    assert [group][..0] == [];
    NamesOccur(r.fields.entries, group);
    ValuesAreShallow(r.fields.entries, group);
    GroupReadsBack(ValuesOf(r.fields.entries, group), group, cfg.maps, DepthOf(r.fields.entries));
  }

  lemma {:induction false} ExplodedGroup(cfg: Config, r: Record, name: string, v: FieldValue, order: seq<string>)
    ensures FirstNamed(GroupMembers(cfg, r, Some((name, v)), order), name)
         == if name in order then Some(ValueJson(v, name, cfg.maps)) else None
    decreases |order|
  {
    if order != [] {
      var init, last := order[..|order| - 1], order[|order| - 1];
      ExplodedGroup(cfg, r, name, v, init);
      assert order == init + [last];
      var m := GroupMember(cfg, r, last, Some((name, v)));
      if m.Some? {
        FirstNamedAppend(GroupMembers(cfg, r, Some((name, v)), init), [m.value], name);
        OneOrNone(true, m.value.0, m.value.1, name);
      }
    }
  }

  // With a selected group exploded, the i-th line holds its i-th occurrence and no other.
  lemma ExplodedLinesInOrder(cfg: Config, r: Record, name: string, i: nat)
    requires cfg.explode == Some(name) && name in cfg.order && name !in {"kind", "tstamp", "ip", "tcp", "tls"}
    requires i < |ValuesOf(r.fields.entries, name)|
    ensures |Objects(cfg, r)| == |ValuesOf(r.fields.entries, name)|
    ensures Field(Objects(cfg, r)[i], name) == Some(ValueJson(ValuesOf(r.fields.entries, name)[i], name, cfg.maps))
  {
    var v := ValuesOf(r.fields.entries, name)[i];
    ExplodedGroup(cfg, r, name, v, cfg.order);
    EnvelopeField(cfg, r, name);
    FirstNamedAppend(Envelope(cfg, r), GroupMembers(cfg, r, Some((name, v)), cfg.order), name);
  }

  // ----- the writers -----

  method FindGroup(groups: seq<Group>, name: string,
                   ghost es: seq<(string, FieldValue)>)
    returns (values: Option<seq<FieldValue>>)
    requires groups == Grouped(es)
    ensures values == if name in FirstOccurrences(es) then Some(ValuesOf(es, name)) else None
  {
    for i := 0 to |groups|
      invariant name !in FirstOccurrences(es)[..i]
    {
      assert FirstOccurrences(es)[..i + 1] == FirstOccurrences(es)[..i] + [groups[i].name];
      if groups[i].name == name {
        return Some(groups[i].values);
      }
    }
    assert FirstOccurrences(es)[..|groups|] == FirstOccurrences(es);
    return None;
  }

  method WriteOne(out: string, cfg: Config, rec: Record, groups: seq<Group>, exploded: Option<(string, FieldValue)>)
    returns (r: string)
    requires groups == Grouped(rec.fields.entries)
    ensures r == out + (Render(RecordJson(cfg, rec, exploded)) + "\n")
  {
    EnvelopeIsNotEmpty(cfg, rec);
    r := WriteMembers(out, Envelope(cfg, rec));
    r := WriteGroups(r, cfg, rec, groups, exploded, out + "{", Envelope(cfg, rec));
    Finish(out, RenderMembers(Envelope(cfg, rec) + GroupMembers(cfg, rec, exploded, cfg.order)));
    r := r + "}\n";
  }

  lemma EnvelopeIsNotEmpty(cfg: Config, r: Record)
    ensures Envelope(cfg, r) != []
  {
  }

  // The selected groups, after the members written so far.
  method WriteGroups(buf: string, cfg: Config, rec: Record, groups: seq<Group>, exploded: Option<(string, FieldValue)>,
                     ghost start: string, ghost head: seq<(string, Json)>)
    returns (r: string)
    requires groups == Grouped(rec.fields.entries)
    requires head != [] && buf == start + RenderMembers(head)
    ensures r == start + RenderMembers(head + GroupMembers(cfg, rec, exploded, cfg.order))
  {
    r := buf;
    ghost var members := head;
    assert head + GroupMembers(cfg, rec, exploded, cfg.order[..0]) == head;
    for i := 0 to |cfg.order|
      invariant members == head + GroupMembers(cfg, rec, exploded, cfg.order[..i]) && members != []
      invariant r == start + RenderMembers(members)
    {
      r := WriteSelected(r, cfg, rec, groups, cfg.order[i], exploded, start, members);
      members := WithMember(members, GroupMember(cfg, rec, cfg.order[i], exploded));
      GroupMembersStep(cfg, rec, exploded, head, i);
    }
    assert cfg.order[..|cfg.order|] == cfg.order;
  }

  function WithMember(ms: seq<(string, Json)>, m: Option<(string, Json)>): seq<(string, Json)> {
    if m.None? then ms else ms + [m.value]
  }

  lemma GroupMembersStep(cfg: Config, rec: Record, exploded: Option<(string, FieldValue)>,
                         head: seq<(string, Json)>, i: nat)
    requires i < |cfg.order|
    ensures head + GroupMembers(cfg, rec, exploded, cfg.order[..i + 1])
         == WithMember(head + GroupMembers(cfg, rec, exploded, cfg.order[..i]),
                       GroupMember(cfg, rec, cfg.order[i], exploded))
  {
    assert cfg.order[..i + 1][..i] == cfg.order[..i];
  }

  lemma Finish(out: string, body: string)
    ensures out + "{" + body + "}\n" == out + ("{" + body + "}" + "\n")
  {
  }

  method WriteSelected(out: string, cfg: Config, rec: Record, groups: seq<Group>, group: string,
                       exploded: Option<(string, FieldValue)>,
                       ghost buf: string, ghost before: seq<(string, Json)>)
    returns (r: string)
    requires groups == Grouped(rec.fields.entries)
    requires before != [] && out == buf + RenderMembers(before)
    ensures r == buf + RenderMembers(WithMember(before, GroupMember(cfg, rec, group, exploded)))
  {
    ghost var m := GroupMember(cfg, rec, group, exploded);
    if m.Some? {
      GrowMembers(buf, before, m.value);
    }
    if exploded.Some? && exploded.value.0 == group {
      r := WriteString(out + ",", group);
      r := WriteFieldValue(r + ":", exploded.value.1, group, cfg.maps);
      return;
    }
    var values := FindGroup(groups, group, rec.fields.entries);
    if values.None? {
      r := out;
      return;
    }
    ValuesAreShallow(rec.fields.entries, group);
    r := WriteString(out + ",", group);
    r := WriteNamedValue(r + ":", group, values.value, group, cfg.maps, DepthOf(rec.fields.entries));
  }

  // Opens an object and writes its first members.
  method WriteMembers(out: string, members: seq<(string, Json)>) returns (r: string)
    requires members != []
    ensures r == out + "{" + RenderMembers(members)
  {
    ghost var buf := out + "{";
    r := out + "{";
    assert buf + RenderMembers([]) == buf;
    for i := 0 to |members|
      invariant r == buf + RenderMembers(members[..i])
    {
      GrowMembers(buf, members[..i], members[i]);
      assert members[..i] + [members[i]] == members[..i + 1];
      if i > 0 {
        r := r + ",";
      }
      r := WriteString(r, members[i].0);
      r := r + ":" + Render(members[i].1);
    }
    assert members[..|members|] == members;
  }

  // Writes the line, or the lines, of one TLS record.
  method WriteTlsRecord(out: string, cfg: Config, rec: Record) returns (r: string)
    ensures r == out + LinesOf(Objects(cfg, rec))
  {
    var groups := GroupEntries(rec.fields.entries);
    if cfg.explode.Some? {
      NamesOccur(rec.fields.entries, cfg.explode.value);
      var values := FindGroup(groups, cfg.explode.value, rec.fields.entries);
      if values.Some? {
        r := WriteEach(out, cfg, rec, groups, cfg.explode.value, values.value);
        return;
      }
    }
    r := WriteOne(out, cfg, rec, groups, None);
    LinesOfSnoc([], RecordJson(cfg, rec, None));
    assert [] + [RecordJson(cfg, rec, None)] == [RecordJson(cfg, rec, None)];
  }

  // One line for each occurrence of the exploded group.
  method WriteEach(out: string, cfg: Config, rec: Record, groups: seq<Group>, name: string, values: seq<FieldValue>)
    returns (r: string)
    requires groups == Grouped(rec.fields.entries)
    ensures r == out + LinesOf(seq(|values|,
                                   i requires 0 <= i < |values| => RecordJson(cfg, rec, Some((name, values[i])))))
  {
    ghost var objs := seq(|values|, i requires 0 <= i < |values| => RecordJson(cfg, rec, Some((name, values[i]))));
    r := out;
    assert out + LinesOf([]) == out;
    for i := 0 to |values|
      invariant r == out + LinesOf(objs[..i])
    {
      LinesOfSnoc(objs[..i], objs[i]);
      assert objs[..i] + [objs[i]] == objs[..i + 1];
      Assoc(out, LinesOf(objs[..i]), Render(objs[i]) + "\n");
      r := WriteOne(r, cfg, rec, groups, Some((name, values[i])));
    }
    assert objs[..|values|] == objs;
  }

  // ----- reading it back -----

  datatype Split = Split(lines: seq<string>, tail: string)

  // Cuts a text after every newline; the tail is the unterminated rest.
  function SplitLines(s: string): Split {
    if s == [] then Split([], [])
    else
      var r := SplitLines(s[1..]);
      if s[0] == '\n' then Split([[]] + r.lines, r.tail)
      else if r.lines == [] then Split([], [s[0]] + r.tail)
      else Split([[s[0]] + r.lines[0]] + r.lines[1..], r.tail)
  }

  function Newlines(s: string): nat {
    if s == [] then 0 else (if s[0] == '\n' then 1 else 0) + Newlines(s[1..])
  }

  lemma {:induction false} SplitCountsNewlines(s: string)
    ensures Newlines(s) == |SplitLines(s).lines|
  {
    if s != [] {
      SplitCountsNewlines(s[1..]);
    }
  }

  lemma {:induction false} SplitOneLine(line: string, rest: string)
    requires OneLine(line)
    ensures SplitLines(line + ['\n'] + rest) == Split([line] + SplitLines(rest).lines, SplitLines(rest).tail)
  {
    var s := line + ['\n'] + rest;
    if line == [] {
      assert s[1..] == rest;
    } else {
      SplitOneLine(line[1..], rest);
      assert s[1..] == line[1..] + ['\n'] + rest;
      assert [line[0]] + line[1..] == line;
      var r := SplitLines(s[1..]);
      assert r.lines[0] == line[1..] && r.lines[1..] == SplitLines(rest).lines;
    }
  }

  lemma {:induction false} SplitRecoversLines(objs: seq<Json>)
    ensures var s := SplitLines(LinesOf(objs));
            && s.tail == [] && |s.lines| == |objs|
            && forall i :: 0 <= i < |objs| ==> s.lines[i] == Render(objs[i])
  {
    if objs != [] {
      RenderIsOneLine(objs[0]);
      SplitOneLine(Render(objs[0]), LinesOf(objs[1..]));
      SplitRecoversLines(objs[1..]);
    }
  }

  // Every newline of the text ends one line, and each line parses back to its object.
  ghost predicate ReadsBack(text: string, objs: seq<Json>) {
    var s := SplitLines(text);
    && Newlines(text) == |objs| == |s.lines| && s.tail == []
    && forall i :: 0 <= i < |objs| ==> ParseValue(s.lines[i]) == Got(objs[i], [])
  }

  lemma LinesReadBack(objs: seq<Json>)
    ensures ReadsBack(LinesOf(objs), objs)
  {
    SplitRecoversLines(objs);
    SplitCountsNewlines(LinesOf(objs));
    forall i | 0 <= i < |objs|
      ensures ParseValue(Render(objs[i])) == Got(objs[i], [])
    {
      ParseInverts(objs[i], []);
      assert Render(objs[i]) + [] == Render(objs[i]);
    }
  }

  // For every record, however deeply its fields nest: exactly max(1, n) newlines are written,
  // n being the occurrences of the exploded group; each ends one line; and each line parses
  // back to the one object it was written for.
  lemma LineDiscipline(cfg: Config, rec: Record)
    ensures var n, objs := |Occurrences(cfg, rec)|, Objects(cfg, rec);
            && |objs| == (if n == 0 then 1 else n)
            && (forall i :: 0 <= i < |objs| ==> objs[i].Obj?)
            && ReadsBack(LinesOf(objs), objs)
  {
    LinesReadBack(Objects(cfg, rec));
  }

  // What is written for a list of messages, one after the other, and the objects in it.
  function Output(cfg: Config, text: nat -> string, ms: seq<Message>): string
    decreases |ms|
  {
    if ms == [] then []
    else Output(cfg, text, ms[..|ms| - 1]) + LinesOf(Objects(cfg, RecordOf(ms[|ms| - 1], text)))
  }

  function OutputObjects(cfg: Config, text: nat -> string, ms: seq<Message>): seq<Json>
    decreases |ms|
  {
    if ms == [] then []
    else OutputObjects(cfg, text, ms[..|ms| - 1]) + Objects(cfg, RecordOf(ms[|ms| - 1], text))
  }

  lemma {:induction false} LinesOfAppend(a: seq<Json>, b: seq<Json>)
    ensures LinesOf(a + b) == LinesOf(a) + LinesOf(b)
  {
    if a == [] {
      assert a + b == b;
    } else {
      LinesOfAppend(a[1..], b);
      assert (a + b)[1..] == a[1..] + b && (a + b)[0] == a[0];
      Assoc(Render(a[0]) + ['\n'], LinesOf(a[1..]), LinesOf(b));
    }
  }

  lemma {:induction false} OutputIsLines(cfg: Config, text: nat -> string, ms: seq<Message>)
    ensures Output(cfg, text, ms) == LinesOf(OutputObjects(cfg, text, ms))
    decreases |ms|
  {
    if ms != [] {
      var init, last := ms[..|ms| - 1], ms[|ms| - 1];
      OutputIsLines(cfg, text, init);
      LinesOfAppend(OutputObjects(cfg, text, init), Objects(cfg, RecordOf(last, text)));
    }
  }

  // The output for any list of messages reads back, line by line, as the objects of those
  // messages in order.
  lemma OutputReadsBack(cfg: Config, text: nat -> string, ms: seq<Message>)
    ensures ReadsBack(Output(cfg, text, ms), OutputObjects(cfg, text, ms))
  {
    OutputIsLines(cfg, text, ms);
    LinesReadBack(OutputObjects(cfg, text, ms));
  }
}
