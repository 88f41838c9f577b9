// The NDJSON writer: grouping of fields, nested values, exploding and maps, one JSON object
// per line.
module Ndjson {
  import opened Common
  import opened Fields
  import opened Json

  type Entry = (string, FieldValue)

  // ----- grouping -----

  datatype Group = Group(name: string, values: seq<FieldValue>)

  // The distinct names, in the order of their first occurrence.
  function FirstOccurrences(es: seq<Entry>): seq<string>
    decreases |es|
  {
    if es == [] then []
    else
      var before, name := FirstOccurrences(es[..|es| - 1]), es[|es| - 1].0;
      if name in before then before else before + [name]
  }

  // The values recorded under a name, in order.
  function ValuesOf(es: seq<Entry>, name: string): seq<FieldValue>
    decreases |es|
  {
    if es == [] then []
    else
      var before := ValuesOf(es[..|es| - 1], name);
      if es[|es| - 1].0 == name then before + [es[|es| - 1].1] else before
  }

  function Grouped(es: seq<Entry>): seq<Group> {
    var names := FirstOccurrences(es);
    seq(|names|, i requires 0 <= i < |names| => Group(names[i], ValuesOf(es, names[i])))
  }

  lemma {:induction false} NamesOccur(es: seq<Entry>, name: string)
    ensures name in FirstOccurrences(es) <==> ValuesOf(es, name) != []
    ensures name in FirstOccurrences(es) <==> exists e :: e in es && e.0 == name
    decreases |es|
  {
    if es != [] {
      var init, last := es[..|es| - 1], es[|es| - 1];
      NamesOccur(init, name);
      NamesOccur(init, last.0);
      assert es == init + [last];
    }
  }

  lemma {:induction false} NamesAreDistinct(es: seq<Entry>)
    ensures forall i, j :: 0 <= i < j < |FirstOccurrences(es)| ==> FirstOccurrences(es)[i] != FirstOccurrences(es)[j]
    decreases |es|
  {
    if es != [] {
      NamesAreDistinct(es[..|es| - 1]);
    }
  }

  lemma SnocEntries(p: seq<Entry>, q: seq<Entry>)
    requires q != []
    ensures (p + q)[..|p + q| - 1] == p + q[..|q| - 1] && (p + q)[|p + q| - 1] == q[|q| - 1]
  {
  }

  // A group's values come in the order of the entries, one for each entry of that name.
  lemma {:induction false} ValuesInOrder(p: seq<Entry>, q: seq<Entry>, e: Entry, name: string)
    ensures ValuesOf(p + q, name) == ValuesOf(p, name) + ValuesOf(q, name)
    ensures ValuesOf([e], name) == if e.0 == name then [e.1] else []
    decreases |q|
  {
    assert [e][..0] == [];
    if q == [] {
      assert p + q == p;
    } else {
      SnocEntries(p, q);
      ValuesInOrder(p, q[..|q| - 1], e, name);
    }
  }

  // Those names that have not been seen.
  function Unseen(names: seq<string>, seen: seq<string>): seq<string>
    decreases |names|
  {
    if names == [] then []
    else
      var before, last := Unseen(names[..|names| - 1], seen), names[|names| - 1];
      if last in seen then before else before + [last]
  }

  lemma {:induction false} UnseenMembers(names: seq<string>, seen: seq<string>, name: string)
    ensures name in Unseen(names, seen) <==> name in names && name !in seen
    decreases |names|
  {
    if names != [] {
      assert names == names[..|names| - 1] + [names[|names| - 1]];
      UnseenMembers(names[..|names| - 1], seen, name);
    }
  }

  // Groups come in the order of first occurrence: those of the later entries after all of the
  // earlier ones', and among themselves in their own order.
  lemma {:induction false} GroupsInOrder(p: seq<Entry>, q: seq<Entry>, e: Entry)
    ensures FirstOccurrences(p + q) == FirstOccurrences(p) + Unseen(FirstOccurrences(q), FirstOccurrences(p))
    ensures FirstOccurrences([e]) == [e.0]
    decreases |q|
  {
    assert [e][..0] == [];
    if q == [] {
      assert p + q == p;
    } else {
      var init, name := q[..|q| - 1], q[|q| - 1].0;
      SnocEntries(p, q);
      GroupsInOrder(p, init, e);
      UnseenMembers(FirstOccurrences(init), FirstOccurrences(p), name);
      UnseenSnoc(FirstOccurrences(init), name, FirstOccurrences(p));
    }
  }

  lemma UnseenSnoc(names: seq<string>, name: string, seen: seq<string>)
    ensures Unseen(names + [name], seen) == Unseen(names, seen) + if name in seen then [] else [name]
  {
    assert (names + [name])[..|names|] == names;
  }

  lemma {:induction false} ValuesAreFromEntries(es: seq<Entry>, name: string, v: FieldValue)
    requires v in ValuesOf(es, name)
    ensures exists e :: e in es && e.1 == v
    decreases |es|
  {
    var init, last := es[..|es| - 1], es[|es| - 1];
    if last.0 == name && v == last.1 {
      assert last in es;
    } else {
      ValuesAreFromEntries(init, name, v);
      var e :| e in init && e.1 == v;
      assert e in es;
    }
  }

  // The loop with its order list and its map of lists.
  method GroupEntries(es: seq<Entry>) returns (groups: seq<Group>)
    ensures groups == Grouped(es)
  {
    var order: seq<string>, m: map<string, seq<FieldValue>> := [], map[];
    for i := 0 to |es|
      invariant order == FirstOccurrences(es[..i])
      invariant forall name :: name in m <==> name in order
      invariant forall name :: name in m ==> m[name] == ValuesOf(es[..i], name)
    {
      assert es[..i + 1][..i] == es[..i];
      NamesOccur(es[..i], es[i].0);
      var (name, value) := es[i];
      if name !in m {
        order := order + [name];
        m := m[name := []];
      }
      m := m[name := m[name] + [value]];
    }
    assert es[..|es|] == es;
    groups := [];
    for i := 0 to |order|
      invariant groups == Grouped(es)[..i]
    {
      groups := groups + [Group(order[i], m[order[i]])];
    }
  }

  // ----- nesting depth -----

  function Max(a: nat, b: nat): nat {
    if a < b then b else a
  }

  function Depth(v: FieldValue): nat
    decreases v, 1
  {
    if v.Tree? then 1 + DepthOf(v.fields.entries) else 0
  }

  function DepthOf(es: seq<Entry>): nat
    decreases es, 0
  {
    if es == [] then 0 else Max(EntryDepth(es[0]), DepthOf(es[1..]))
  }

  function EntryDepth(e: Entry): nat
    decreases e, 2
  {
    Depth(e.1)
  }

  lemma {:induction false} EntriesAreShallower(es: seq<Entry>, e: Entry)
    requires e in es
    ensures Depth(e.1) <= DepthOf(es)
    decreases |es|
  {
    if e != es[0] {
      EntriesAreShallower(es[1..], e);
    }
  }

  ghost predicate Within(values: seq<FieldValue>, n: nat) {
    forall v :: v in values ==> Depth(v) <= n
  }

  lemma ValuesAreShallow(es: seq<Entry>, name: string)
    ensures Within(ValuesOf(es, name), DepthOf(es))
  {
    forall v | v in ValuesOf(es, name)
      ensures Depth(v) <= DepthOf(es)
    {
      ValuesAreFromEntries(es, name, v);
      var e :| e in es && e.1 == v;
      EntriesAreShallower(es, e);
    }
  }

  // ----- names -----

  function ShortName(name: string, prefix: string): string {
    if prefix + "." <= name then name[|prefix| + 1..] else name
  }

  function Underscored(s: string): string {
    seq(|s|, i requires 0 <= i < |s| => if s[i] == '.' then '_' else s[i])
  }

  function Hex(b: Bytes): string {
    if b == [] then [] else [HexDigit(b[0] / 16), HexDigit(b[0] % 16)] + Hex(b[1..])
  }

  // ----- values as JSON -----

  function ValueJson(v: FieldValue, prefix: string, maps: set<string>): Json
    decreases Depth(v), 0, 0
  {
    match v
    case UInt(n) => Num(n)
    case Str(s) => Text(s)
    case Octets(b) => Text(Hex(b))
    case Tree(ff) => FieldsJson(ff, prefix, maps)
  }

  // One object member per group of a subtree, its own name stripped from theirs.
  function FieldsJson(ff: FrameFields, prefix: string, maps: set<string>): Json
    decreases DepthOf(ff.entries), 3, 0
  {
    var names := FirstOccurrences(ff.entries);
    Obj(seq(|names|, i requires 0 <= i < |names| => MemberJson(ff, names[i], prefix, maps)))
  }

  function MemberJson(ff: FrameFields, name: string, prefix: string, maps: set<string>): (string, Json)
    decreases DepthOf(ff.entries), 2, 0
  {
    var short := ShortName(name, prefix);
    ValuesAreShallow(ff.entries, name);
    (Underscored(short), NamedJson(short, ValuesOf(ff.entries, name), name, maps, DepthOf(ff.entries)))
  }

  function NamedJson(short: string, values: seq<FieldValue>, prefix: string, maps: set<string>, n: nat): Json
    requires Within(values, n)
    decreases n, 1, 1
  {
    if short in maps then Obj(MapMembers(values, prefix)) else ScalarOrArray(values, prefix, maps, n)
  }

  // A lone leaf stays a scalar; several values, or any subtree, make an array.
  function ScalarOrArray(values: seq<FieldValue>, prefix: string, maps: set<string>, n: nat): Json
    requires Within(values, n)
    decreases n, 1, 0
  {
    if |values| == 1 && !values[0].Tree? then ValueJson(values[0], prefix, maps)
    else Arr(seq(|values|, i requires 0 <= i < |values| => ValueJson(values[i], prefix, maps)))
  }

  // The last string recorded under a short name of a subtree.
  function LastString(es: seq<Entry>, prefix: string, short: string): Option<string>
    decreases |es|
  {
    if es == [] then None
    else
      var last := es[|es| - 1];
      if ShortName(last.0, prefix) == short && last.1.Str? then Some(last.1.s)
      else LastString(es[..|es| - 1], prefix, short)
  }

  // The name and value leaves of each occurrence; those lacking either are skipped.
  function MapMembers(values: seq<FieldValue>, prefix: string): seq<(string, Json)>
    decreases |values|
  {
    if values == [] then []
    else
      var before, v := MapMembers(values[..|values| - 1], prefix), values[|values| - 1];
      if !v.Tree? then before
      else
        var key, val := LastString(v.fields.entries, prefix, "name"), LastString(v.fields.entries, prefix, "value");
        if key.Some? && val.Some? then before + [(key.value, Text(val.value))] else before
  }

  // ----- what a reader of the object finds -----

  // The occurrences in a rendered group: an array's items, or the lone scalar.
  function OccurrencesIn(j: Json): seq<Json> {
    if j.Arr? then j.items else [j]
  }

  // Every occurrence of a group is there, in order; only a lone leaf is not in an array.
  lemma GroupReadsBack(values: seq<FieldValue>, prefix: string, maps: set<string>, n: nat)
    requires Within(values, n)
    ensures var j := ScalarOrArray(values, prefix, maps, n);
            && (j.Arr? <==> |values| != 1 || values[0].Tree?)
            && |OccurrencesIn(j)| == |values|
            && forall i :: 0 <= i < |values| ==> OccurrencesIn(j)[i] == ValueJson(values[i], prefix, maps)
  {
  }

  // A rendered leaf tells its value.
  lemma LeafReadsBack(v: FieldValue, prefix: string, maps: set<string>)
    ensures var j := ValueJson(v, prefix, maps);
            match v
            case UInt(n) => j == Num(n)
            case Str(s) => j == Text(s)
            case Octets(b) => j.Text? && |j.s| == 2 * |b| && Unhex(j.s) == b
            case Tree(_) => j.Obj?
  {
    if v.Octets? {
      UnhexInverts(v.b);
    }
  }

  // A rendered subtree has one member for each name in it, in order of first occurrence, under
  // that name without the subtree's own and without dots; it holds all the name's occurrences,
  // themselves rendered as within a subtree of that name.
  lemma SubtreeReadsBack(ff: FrameFields, prefix: string, maps: set<string>, i: nat)
    requires i < |FirstOccurrences(ff.entries)|
    ensures var j, name := FieldsJson(ff, prefix, maps), FirstOccurrences(ff.entries)[i];
            var values, short := ValuesOf(ff.entries, name), ShortName(name, prefix);
            && j.Obj? && |j.members| == |FirstOccurrences(ff.entries)|
            && j.members[i].0 == Underscored(short)
            && if short in maps then j.members[i].1 == Obj(MapMembers(values, name))
               else
                 && (j.members[i].1.Arr? <==> |values| != 1 || values[0].Tree?)
                 && |OccurrencesIn(j.members[i].1)| == |values|
                 && forall n :: 0 <= n < |values| ==>
                      OccurrencesIn(j.members[i].1)[n] == ValueJson(values[n], name, maps)
  {
    var name := FirstOccurrences(ff.entries)[i];
    var short := ShortName(name, prefix);
    ValuesAreShallow(ff.entries, name);
    assert FieldsJson(ff, prefix, maps).members[i] == MemberJson(ff, name, prefix, maps);
    assert MemberJson(ff, name, prefix, maps)
        == (Underscored(short), NamedJson(short, ValuesOf(ff.entries, name), name, maps, DepthOf(ff.entries)));
    GroupReadsBack(ValuesOf(ff.entries, name), name, maps, DepthOf(ff.entries));
  }

  // A subtree's own name is stripped from a nested name, and nothing else is.
  lemma ShortNameStrips(prefix: string, rest: string, name: string)
    ensures ShortName(prefix + "." + rest, prefix) == rest
    ensures ShortName(name, prefix) == name || name == prefix + "." + ShortName(name, prefix)
    ensures (exists r :: name == prefix + "." + r) ==> name == prefix + "." + ShortName(name, prefix)
  {
    assert (prefix + "." + rest)[|prefix| + 1..] == rest;
  }

  lemma UnderscoredHasNoDots(s: string, i: nat)
    requires i < |s|
    ensures |Underscored(s)| == |s| && '.' !in Underscored(s)
    ensures s[i] != '.' ==> Underscored(s)[i] == s[i]
    ensures s[i] == '.' ==> Underscored(s)[i] == '_'
  {
  }

  // Reads hexadecimal back.
  function HexValue(c: char): nat {
    if '0' <= c <= '9' then (c - '0') as nat else if 'a' <= c <= 'f' then (c - 'a') as nat + 10 else 0
  }

  function Unhex(s: string): seq<nat> {
    if |s| < 2 then [] else [16 * HexValue(s[0]) + HexValue(s[1])] + Unhex(s[2..])
  }

  lemma HexValueInverts(n: nat)
    requires n < 16
    ensures HexValue(HexDigit(n)) == n
  {
    assert HexDigit(n) == if n < 10 then '0' + n as char else 'a' + (n - 10) as char;
  }

  lemma UnhexPair(a: char, b: char, rest: string)
    ensures Unhex([a, b] + rest) == [16 * HexValue(a) + HexValue(b)] + Unhex(rest)
  {
    assert ([a, b] + rest)[2..] == rest;
  }

  lemma {:induction false} UnhexInverts(b: Bytes)
    ensures |Hex(b)| == 2 * |b|
    ensures Unhex(Hex(b)) == b
  {
    if b != [] {
      UnhexInverts(b[1..]);
      HexValueInverts(b[0] / 16);
      HexValueInverts(b[0] % 16);
      UnhexPair(HexDigit(b[0] / 16), HexDigit(b[0] % 16), Hex(b[1..]));
    }
  }

  // The value under a short name is that of the last string recorded under it.
  lemma {:induction false} LastStringIsLast(es: seq<Entry>, prefix: string, short: string)
    ensures var r := LastString(es, prefix, short);
            if r.Some? then
              exists i :: 0 <= i < |es| && Names(es[i], prefix, short) && es[i].1.s == r.value
                && forall j :: i < j < |es| ==> !Names(es[j], prefix, short)
            else forall i :: 0 <= i < |es| ==> !Names(es[i], prefix, short)
    decreases |es|
  {
    if es != [] {
      LastStringIsLast(es[..|es| - 1], prefix, short);
    }
  }

  predicate Names(e: Entry, prefix: string, short: string) {
    ShortName(e.0, prefix) == short && e.1.Str?
  }

  // A map has, in order, one member for each occurrence that has both a name and a value.
  lemma {:induction false} MapInOrder(p: seq<FieldValue>, q: seq<FieldValue>, v: FieldValue, prefix: string)
    ensures MapMembers(p + q, prefix) == MapMembers(p, prefix) + MapMembers(q, prefix)
    ensures v.Tree? ==>
              var key := LastString(v.fields.entries, prefix, "name");
              var val := LastString(v.fields.entries, prefix, "value");
              MapMembers([v], prefix) == if key.Some? && val.Some? then [(key.value, Text(val.value))] else []
    ensures !v.Tree? ==> MapMembers([v], prefix) == []
    decreases |q|
  {
    assert [v][..0] == [];
    if q == [] {
      assert p + q == p;
    } else {
      assert (p + q)[..|p + q| - 1] == p + q[..|q| - 1] && (p + q)[|p + q| - 1] == q[|q| - 1];
      MapInOrder(p, q[..|q| - 1], v, prefix);
    }
  }

  // ----- the writers -----

  // What a buffer holding an opened object, or array, becomes when one more element is written.
  lemma GrowMembers(buf: string, ms: seq<(string, Json)>, m: (string, Json))
    ensures buf + RenderMembers(ms + [m])
         == (if ms == [] then buf + RenderMembers(ms)
             else buf + RenderMembers(ms) + ",") + Quote(m.0) + ":" + Render(m.1)
  {
    RenderMembersSnoc(ms, m);
    if ms == [] {
      assert buf + [] == buf;
      assert buf + (Quote(m.0) + [':'] + Render(m.1)) == buf + Quote(m.0) + ":" + Render(m.1);
    } else {
      FiveParts(buf, RenderMembers(ms), Quote(m.0), [':'], Render(m.1));
    }
  }

  lemma FiveParts(a: string, b: string, c: string, d: string, e: string)
    ensures a + (b + [','] + (c + d + e)) == a + b + "," + c + d + e
  {
  }

  lemma GrowItems(buf: string, items: seq<Json>, j: Json)
    ensures buf + RenderItems(items + [j])
         == (if items == [] then buf + RenderItems(items) else buf + RenderItems(items) + ",") + Render(j)
  {
    RenderItemsSnoc(items, j);
    assert buf + [] == buf;
    assert buf + (RenderItems(items) + [','] + Render(j)) == buf + RenderItems(items) + "," + Render(j);
  }

  // Closing what was opened.
  lemma Close(out: string, open: string, body: string, close: string)
    ensures out + open + body + close == out + (open + body + close)
  {
  }

  method WriteFieldValue(out: string, v: FieldValue, prefix: string, maps: set<string>) returns (r: string)
    ensures r == out + Render(ValueJson(v, prefix, maps))
    decreases Depth(v), 0, 0
  {
    match v {
      case UInt(n) => r := out + Decimal(n);
      case Str(s) => r := WriteString(out, s);
      case Octets(b) => r := WriteString(out, Hex(b));
      case Tree(ff) => r := WriteFieldsObject(out, ff, prefix, maps);
    }
  }

  method WriteFieldsObject(out: string, ff: FrameFields, prefix: string, maps: set<string>) returns (r: string)
    ensures r == out + Render(FieldsJson(ff, prefix, maps))
    decreases DepthOf(ff.entries), 3, 0
  {
    var groups := GroupEntries(ff.entries);
    ghost var members := FieldsJson(ff, prefix, maps).members;
    r := out + "{";
    for i := 0 to |groups|
      invariant r == out + "{" + RenderMembers(members[..i])
    {
      GrowMembers(out + "{", members[..i], members[i]);
      assert members[..i] + [members[i]] == members[..i + 1];
      r := WriteGroup(r, i == 0, ff, groups[i], prefix, maps);
    }
    assert members[..|groups|] == members;
    Close(out, "{", RenderMembers(members), "}");
    r := r + "}";
  }

  method WriteGroup(out: string, first: bool, ff: FrameFields, g: Group, prefix: string,
                    maps: set<string>)
    returns (r: string)
    requires g.values == ValuesOf(ff.entries, g.name)
    ensures var m := MemberJson(ff, g.name, prefix, maps);
            r == (if first then out else out + ",") + Quote(m.0) + ":" + Render(m.1)
    decreases DepthOf(ff.entries), 2, 0
  {
    r := out;
    if !first {
      r := r + ",";
    }
    ValuesAreShallow(ff.entries, g.name);
    var short := ShortName(g.name, prefix);
    r := WriteString(r, Underscored(short));
    r := r + ":";
    r := WriteNamedValue(r, short, g.values, g.name, maps, DepthOf(ff.entries));
  }

  method WriteNamedValue(out: string, short: string, values: seq<FieldValue>, prefix: string, maps: set<string>,
                         ghost n: nat)
    returns (r: string)
    requires Within(values, n)
    ensures r == out + Render(NamedJson(short, values, prefix, maps, n))
    decreases n, 1, 1
  {
    if short in maps {
      r := WriteMap(out, values, prefix);
    } else {
      r := WriteValueOrArray(out, values, prefix, maps, n);
    }
  }

  method WriteValueOrArray(out: string, values: seq<FieldValue>, prefix: string, maps: set<string>, ghost n: nat)
    returns (r: string)
    requires Within(values, n)
    ensures r == out + Render(ScalarOrArray(values, prefix, maps, n))
    decreases n, 1, 0
  {
    if |values| == 1 && !values[0].Tree? {
      r := WriteFieldValue(out, values[0], prefix, maps);
      return;
    }
    ghost var items := ScalarOrArray(values, prefix, maps, n).items;
    r := out + "[";
    for i := 0 to |values|
      invariant r == out + "[" + RenderItems(items[..i])
    {
      GrowItems(out + "[", items[..i], items[i]);
      assert items[..i] + [items[i]] == items[..i + 1];
      if i > 0 {
        r := r + ",";
      }
      r := WriteFieldValue(r, values[i], prefix, maps);
    }
    assert items[..|values|] == items;
    Close(out, "[", RenderItems(items), "]");
    r := r + "]";
  }

  method WriteMap(out: string, values: seq<FieldValue>, prefix: string) returns (r: string)
    ensures r == out + Render(Obj(MapMembers(values, prefix)))
  {
    r := out + "{";
    var first := true;
    for i := 0 to |values|
      invariant r == out + "{" + RenderMembers(MapMembers(values[..i], prefix))
      invariant first <==> MapMembers(values[..i], prefix) == []
    {
      assert values[..i + 1][..i] == values[..i];
      if values[i].Tree? {
        var key, val := FindNameAndValue(values[i].fields.entries, prefix);
        if key.Some? && val.Some? {
          GrowMembers(out + "{", MapMembers(values[..i], prefix), (key.value, Text(val.value)));
          if !first {
            r := r + ",";
          }
          first := false;
          r := WriteString(r, key.value);
          r := r + ":";
          r := WriteString(r, val.value);
        }
      }
    }
    assert values[..|values|] == values;
    Close(out, "{", RenderMembers(MapMembers(values, prefix)), "}");
    r := r + "}";
  }

  method FindNameAndValue(es: seq<Entry>, prefix: string) returns (key: Option<string>, val: Option<string>)
    ensures key == LastString(es, prefix, "name") && val == LastString(es, prefix, "value")
  {
    key, val := None, None;
    for i := 0 to |es|
      invariant key == LastString(es[..i], prefix, "name") && val == LastString(es[..i], prefix, "value")
    {
      assert es[..i + 1][..i] == es[..i];
      var short := ShortName(es[i].0, prefix);
      if short == "name" && es[i].1.Str? {
        key := Some(es[i].1.s);
      } else if short == "value" && es[i].1.Str? {
        val := Some(es[i].1.s);
      }
    }
    assert es[..|es|] == es;
  }
}
