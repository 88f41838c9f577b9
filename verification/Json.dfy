// JSON text: rendering, and a parser for it (section 7 of RFC 8259 for strings) that
// recovers exactly what was rendered.
module Json {
  datatype Json =
    | Num(n: nat)
    | Text(s: string)
    | Arr(items: seq<Json>)
    | Obj(members: seq<(string, Json)>)

  // ----- strings -----

  function HexDigit(n: nat): char
    requires n < 16
  {
    "0123456789abcdef"[n]
  }

  function EscapeChar(c: char): string {
    if c == '"' then ['\\', '"']
    else if c == '\\' then ['\\', '\\']
    else if c == '\n' then ['\\', 'n']
    else if c == '\r' then ['\\', 'r']
    else if c == '\t' then ['\\', 't']
    else if c as int < 0x20 then ['\\', 'u', '0', '0', HexDigit(c as int / 16), HexDigit(c as int % 16)]
    else [c]
  }

  function Escape(s: string): string {
    if s == [] then [] else EscapeChar(s[0]) + Escape(s[1..])
  }

  function Quote(s: string): string {
    ['"'] + Escape(s) + ['"']
  }

  lemma {:induction false} EscapeSnoc(s: string, c: char)
    ensures Escape(s + [c]) == Escape(s) + EscapeChar(c)
  {
    if s == [] {
      assert s + [c] == [c];
    } else {
      EscapeSnoc(s[1..], c);
      assert (s + [c])[1..] == s[1..] + [c] && (s + [c])[0] == s[0];
      assert EscapeChar(s[0]) + (Escape(s[1..]) + EscapeChar(c)) == EscapeChar(s[0]) + Escape(s[1..]) + EscapeChar(c);
    }
  }

  // The writing loop.
  method WriteString(out: string, s: string) returns (r: string)
    ensures r == out + Quote(s)
  {
    r := out + ['"'];
    for i := 0 to |s|
      invariant r == out + (['"'] + Escape(s[..i]))
    {
      EscapeSnoc(s[..i], s[i]);
      assert s[..i] + [s[i]] == s[..i + 1];
      var escaped := WriteChar(s[i]);
      Reassociate(out, ['"'], Escape(s[..i]), escaped);
      r := r + escaped;
    }
    assert s[..|s|] == s;
    Reassociate(out, ['"'], Escape(s), ['"']);
    r := r + ['"'];
  }

  lemma Reassociate(a: string, b: string, c: string, d: string)
    ensures a + (b + c) + d == a + (b + (c + d)) && a + (b + c) + d == a + (b + c + d)
  {
  }

  method WriteChar(c: char) returns (r: string)
    ensures r == EscapeChar(c)
  {
    match c {
      case '"' => r := ['\\', '"'];
      case '\\' => r := ['\\', '\\'];
      case '\n' => r := ['\\', 'n'];
      case '\r' => r := ['\\', 'r'];
      case '\t' => r := ['\\', 't'];
      case _ =>
        if c as int < 0x20 {
          r := ['\\', 'u', '0', '0', HexDigit(c as int / 16), HexDigit(c as int % 16)];
        } else {
          r := [c];
        }
    }
  }

  // ----- parsing -----

  datatype Parse<+T> = Fail | Got(value: T, rest: string)

  function HexValue(c: char): int {
    if '0' <= c <= '9' then c as int - '0' as int
    else if 'a' <= c <= 'f' then c as int - 'a' as int + 10
    else if 'A' <= c <= 'F' then c as int - 'A' as int + 10
    else -1
  }

  // One possibly escaped character. Surrogate pairs, which the writer never produces, are refused.
  function ParseChar(s: string): (r: Parse<char>)
    ensures r.Got? ==> |r.rest| < |s|
  {
    if s == [] || s[0] == '"' || s[0] as int < 0x20 then Fail
    else if s[0] != '\\' then Got(s[0], s[1..])
    else if |s| < 2 then Fail
    else if s[1] in {'"', '\\', '/'} then Got(s[1], s[2..])
    else if s[1] == 'n' then Got('\n', s[2..])
    else if s[1] == 'r' then Got('\r', s[2..])
    else if s[1] == 't' then Got('\t', s[2..])
    else if s[1] == 'b' then Got(8 as char, s[2..])
    else if s[1] == 'f' then Got(12 as char, s[2..])
    else if s[1] != 'u' || |s| < 6 then Fail
    else
      var a, b, c, d := HexValue(s[2]), HexValue(s[3]), HexValue(s[4]), HexValue(s[5]);
      var code := ((a * 16 + b) * 16 + c) * 16 + d;
      if a < 0 || b < 0 || c < 0 || d < 0 || 0xD800 <= code < 0xE000 then Fail
      else
        assert 0 <= code < 0x10000;
        Got(code as char, s[6..])
  }

  // The characters up to the closing quote.
  function ParseChars(s: string): (r: Parse<string>)
    ensures r.Got? ==> |r.rest| < |s|
    decreases |s|
  {
    if s != [] && s[0] == '"' then Got([], s[1..])
    else
      var c := ParseChar(s);
      if c.Fail? then Fail
      else
        var r := ParseChars(c.rest);
        if r.Fail? then Fail else Got([c.value] + r.value, r.rest)
  }

  predicate IsDigit(c: char) {
    '0' <= c <= '9'
  }

  function ParseDigits(s: string, acc: nat): (r: (nat, string))
    ensures |r.1| <= |s|
    ensures s != [] && IsDigit(s[0]) ==> |r.1| < |s|
  {
    if s == [] || !IsDigit(s[0]) then (acc, s)
    else ParseDigits(s[1..], acc * 10 + (s[0] as int - '0' as int))
  }

  function ParseValue(s: string): (r: Parse<Json>)
    ensures r.Got? ==> |r.rest| < |s|
    decreases |s|, 0
  {
    if s == [] then Fail
    else if IsDigit(s[0]) then
      var (n, rest) := ParseDigits(s, 0);
      Got(Num(n), rest)
    else if s[0] == '"' then
      var t := ParseChars(s[1..]);
      if t.Fail? then Fail else Got(Text(t.value), t.rest)
    else if s[0] == '[' then
      if |s| > 1 && s[1] == ']' then Got(Arr([]), s[2..])
      else
        var v := ParseItems(s[1..]);
        if v.Fail? then Fail else Got(Arr(v.value), v.rest)
    else if s[0] == '{' then
      if |s| > 1 && s[1] == '}' then Got(Obj([]), s[2..])
      else
        var v := ParseMembers(s[1..]);
        if v.Fail? then Fail else Got(Obj(v.value), v.rest)
    else Fail
  }

  function ParseItems(s: string): (r: Parse<seq<Json>>)
    ensures r.Got? ==> |r.rest| < |s|
    decreases |s|, 1
  {
    var v := ParseValue(s);
    if v.Fail? || v.rest == [] then Fail
    else if v.rest[0] == ']' then Got([v.value], v.rest[1..])
    else if v.rest[0] != ',' then Fail
    else
      var more := ParseItems(v.rest[1..]);
      if more.Fail? then Fail else Got([v.value] + more.value, more.rest)
  }

  function ParseMembers(s: string): (r: Parse<seq<(string, Json)>>)
    ensures r.Got? ==> |r.rest| < |s|
    decreases |s|, 1
  {
    if s == [] || s[0] != '"' then Fail
    else
      var k := ParseChars(s[1..]);
      if k.Fail? || k.rest == [] || k.rest[0] != ':' then Fail
      else
        var v := ParseValue(k.rest[1..]);
        if v.Fail? || v.rest == [] then Fail
        else if v.rest[0] == '}' then Got([(k.value, v.value)], v.rest[1..])
        else if v.rest[0] != ',' then Fail
        else
          var more := ParseMembers(v.rest[1..]);
          if more.Fail? then Fail else Got([(k.value, v.value)] + more.value, more.rest)
  }

  // ----- rendering -----

  function Decimal(n: nat): string {
    if n < 10 then [HexDigit(n)] else Decimal(n / 10) + [HexDigit(n % 10)]
  }

  function Render(j: Json): string
    decreases j, 1
  {
    match j
    case Num(n) => Decimal(n)
    case Text(s) => Quote(s)
    case Arr(items) => ['['] + RenderItems(items) + [']']
    case Obj(members) => ['{'] + RenderMembers(members) + ['}']
  }

  function RenderItems(items: seq<Json>): string
    decreases items, 0
  {
    if items == [] then []
    else if |items| == 1 then Render(items[0])
    else Render(items[0]) + [','] + RenderItems(items[1..])
  }

  function RenderMember(m: (string, Json)): string
    decreases m, 2
  {
    Quote(m.0) + [':'] + Render(m.1)
  }

  function RenderMembers(members: seq<(string, Json)>): string
    decreases members, 0
  {
    if members == [] then []
    else if |members| == 1 then RenderMember(members[0])
    else RenderMember(members[0]) + [','] + RenderMembers(members[1..])
  }

  lemma {:induction false} RenderItemsSnoc(items: seq<Json>, j: Json)
    ensures RenderItems(items + [j]) == if items == [] then Render(j) else RenderItems(items) + [','] + Render(j)
    decreases |items|
  {
    if items != [] {
      assert (items + [j])[1..] == items[1..] + [j];
      RenderItemsSnoc(items[1..], j);
    }
  }

  lemma {:induction false} RenderMembersSnoc(members: seq<(string, Json)>, m: (string, Json))
    ensures RenderMembers(members + [m])
         == if members == [] then RenderMember(m) else RenderMembers(members) + [','] + RenderMember(m)
    decreases |members|
  {
    if members != [] {
      assert (members + [m])[1..] == members[1..] + [m];
      RenderMembersSnoc(members[1..], m);
    }
  }

  // ----- round trips -----

  lemma ParseCharInverts(c: char, rest: string)
    ensures ParseChar(EscapeChar(c) + rest) == Got(c, rest)
  {
    var e := EscapeChar(c);
    assert (e + rest)[|e|..] == rest;
    if c as int < 0x20 {
      HexInverts(c as int / 16);
      HexInverts(c as int % 16);
      HexInverts(0);
    }
  }

  lemma HexInverts(n: nat)
    requires n < 16
    ensures HexValue(HexDigit(n)) == n
  {
  }

  // Unescaping inverts escaping, for every string.
  lemma {:induction false} UnescapeInverts(s: string, rest: string)
    ensures ParseChars(Escape(s) + ['"'] + rest) == Got(s, rest)
  {
    if s == [] {
      assert Escape(s) + ['"'] + rest == ['"'] + rest;
    } else {
      var tail := Escape(s[1..]) + ['"'] + rest;
      assert Escape(s) + ['"'] + rest == EscapeChar(s[0]) + tail;
      ParseCharInverts(s[0], tail);
      UnescapeInverts(s[1..], rest);
      assert EscapeChar(s[0])[0] != '"';
      assert [s[0]] + s[1..] == s;
    }
  }

  predicate NoDigitFirst(s: string) {
    s == [] || !IsDigit(s[0])
  }

  lemma {:induction false} DigitsInvert(n: nat, rest: string)
    requires NoDigitFirst(rest)
    ensures ParseDigits(Decimal(n) + rest, 0) == (n, rest)
    ensures Decimal(n) != [] && IsDigit(Decimal(n)[0])
  {
    DigitsContinue(n, rest);
  }

  lemma {:induction false} DigitsContinue(n: nat, rest: string)
    ensures ParseDigits(Decimal(n) + rest, 0) == ParseDigits(rest, n)
    ensures Decimal(n) != [] && IsDigit(Decimal(n)[0])
  {
    if n < 10 {
      assert (Decimal(n) + rest)[1..] == rest;
    } else {
      var last := [HexDigit(n % 10)];
      DigitsContinue(n / 10, last + rest);
      assert Decimal(n) + rest == Decimal(n / 10) + (last + rest);
      assert (last + rest)[1..] == rest;
    }
  }

  lemma RenderStarts(j: Json)
    ensures Render(j) != [] && (IsDigit(Render(j)[0]) || Render(j)[0] in {'"', '[', '{'})
  {
    if j.Num? {
      DigitsContinue(j.n, []);
    }
  }

  lemma Tail(open: char, body: string, close: char, rest: string)
    ensures var s := [open] + body + [close] + rest;
            s[0] == open && s[1..] == body + ([close] + rest) && (body == [] ==> s[1] == close && s[2..] == rest)
  {
  }

  lemma Nest(a: string, b: string, c: string, d: string)
    ensures a + b + c + d == a + (b + (c + d))
  {
  }

  // Parsing recovers every rendered value and stops right after it.
  lemma {:induction false} ParseInverts(j: Json, rest: string)
    requires NoDigitFirst(rest)
    ensures ParseValue(Render(j) + rest) == Got(j, rest)
    decreases j, 1
  {
    match j
    case Num(n) =>
      DigitsInvert(n, rest);
    case Text(t) =>
      Tail('"', Escape(t), '"', rest);
      assert Escape(t) + (['"'] + rest) == Escape(t) + ['"'] + rest;
      UnescapeInverts(t, rest);
    case Arr(items) =>
      if items != [] {
        ItemsInvert(items, rest);
      }
      ArrayInverts(items, rest);
    case Obj(members) =>
      if members != [] {
        MembersInvert(members, rest);
      }
      ObjectInverts(members, rest);
  }

  lemma ArrayInverts(items: seq<Json>, rest: string)
    requires items != [] ==> ParseItems(RenderItems(items) + ([']'] + rest)) == Got(items, rest)
    ensures ParseValue(['['] + RenderItems(items) + [']'] + rest) == Got(Arr(items), rest)
  {
    Tail('[', RenderItems(items), ']', rest);
    if items != [] {
      RenderStarts(items[0]);
    }
  }

  lemma ObjectInverts(members: seq<(string, Json)>, rest: string)
    requires members != [] ==> ParseMembers(RenderMembers(members) + (['}'] + rest)) == Got(members, rest)
    ensures ParseValue(['{'] + RenderMembers(members) + ['}'] + rest) == Got(Obj(members), rest)
  {
    Tail('{', RenderMembers(members), '}', rest);
    if members != [] {
      assert RenderMembers(members)[0] == '"';
    }
  }

  lemma {:induction false} ItemsInvert(items: seq<Json>, rest: string)
    requires items != []
    ensures ParseItems(RenderItems(items) + ([']'] + rest)) == Got(items, rest)
    decreases items, 0
  {
    if |items| == 1 {
      ParseInverts(items[0], [']'] + rest);
      LastItem(Render(items[0]), items[0], rest);
      assert items == [items[0]];
    } else {
      var tail := RenderItems(items[1..]) + ([']'] + rest);
      ParseInverts(items[0], [','] + tail);
      ItemsInvert(items[1..], rest);
      FirstItem(Render(items[0]), items[0], tail, items[1..], rest);
      Nest(Render(items[0]), [','], RenderItems(items[1..]), [']'] + rest);
      assert [items[0]] + items[1..] == items;
    }
  }

  lemma LastItem(text: string, item: Json, rest: string)
    requires ParseValue(text + ([']'] + rest)) == Got(item, [']'] + rest)
    ensures ParseItems(text + ([']'] + rest)) == Got([item], rest)
  {
    assert ([']'] + rest)[1..] == rest;
  }

  lemma FirstItem(text: string, item: Json, tail: string, items: seq<Json>, rest: string)
    requires ParseValue(text + ([','] + tail)) == Got(item, [','] + tail) && ParseItems(tail) == Got(items, rest)
    ensures ParseItems(text + ([','] + tail)) == Got([item] + items, rest)
  {
    assert ([','] + tail)[1..] == tail;
  }

  lemma MemberText(key: string, value: string, after: string)
    ensures var s := ['"'] + key + ['"'] + [':'] + value + after;
            s[0] == '"' && s[1..] == key + ['"'] + ([':'] + (value + after))
  {
  }

  lemma {:induction false} MemberInverts(m: (string, Json), after: string)
    requires NoDigitFirst(after)
    ensures var s := RenderMember(m) + after;
            var k := ParseChars(s[1..]);
            && s[0] == '"'
            && k == Got(m.0, [':'] + (Render(m.1) + after))
            && ParseValue(k.rest[1..]) == Got(m.1, after)
    decreases m, 2
  {
    MemberText(Escape(m.0), Render(m.1), after);
    UnescapeInverts(m.0, [':'] + (Render(m.1) + after));
    assert ([':'] + (Render(m.1) + after))[1..] == Render(m.1) + after;
    ParseInverts(m.1, after);
  }

  lemma {:induction false} MemberThenMore(m: (string, Json), after: string)
    requires after != [] && after[0] in {',', '}'}
    ensures ParseMembers(RenderMember(m) + after)
         == (if after[0] == '}' then Got([m], after[1..])
             else
               var more := ParseMembers(after[1..]);
               if more.Fail? then Fail else Got([m] + more.value, more.rest))
    decreases m, 3
  {
    MemberInverts(m, after);
  }

  lemma {:induction false} MembersInvert(members: seq<(string, Json)>, rest: string)
    requires members != []
    ensures ParseMembers(RenderMembers(members) + (['}'] + rest)) == Got(members, rest)
    decreases members, 0
  {
    if |members| == 1 {
      MemberThenMore(members[0], ['}'] + rest);
      assert members == [members[0]];
    } else {
      var tail := RenderMembers(members[1..]) + (['}'] + rest);
      Nest(RenderMember(members[0]), [','], RenderMembers(members[1..]), ['}'] + rest);
      MemberThenMore(members[0], [','] + tail);
      assert ([','] + tail)[1..] == tail;
      MembersInvert(members[1..], rest);
      assert [members[0]] + members[1..] == members;
    }
  }

  // ----- no raw newline -----

  predicate OneLine(s: string) {
    '\n' !in s
  }

  lemma {:induction false} EscapeIsOneLine(s: string)
    ensures OneLine(Escape(s))
  {
    if s != [] {
      EscapeIsOneLine(s[1..]);
    }
  }

  lemma {:induction false} DecimalIsOneLine(n: nat)
    ensures OneLine(Decimal(n))
  {
    if n >= 10 {
      DecimalIsOneLine(n / 10);
    }
  }

  lemma {:induction false} RenderIsOneLine(j: Json)
    ensures OneLine(Render(j))
    decreases j, 1
  {
    match j
    case Num(n) => DecimalIsOneLine(n);
    case Text(s) => EscapeIsOneLine(s);
    case Arr(items) => ItemsAreOneLine(items);
    case Obj(members) => MembersAreOneLine(members);
  }

  lemma {:induction false} ItemsAreOneLine(items: seq<Json>)
    ensures OneLine(RenderItems(items))
    decreases items, 0
  {
    if items != [] {
      RenderIsOneLine(items[0]);
      ItemsAreOneLine(items[1..]);
    }
  }

  lemma {:induction false} MembersAreOneLine(members: seq<(string, Json)>)
    ensures OneLine(RenderMembers(members))
    decreases members, 0
  {
    if members != [] {
      MemberIsOneLine(members[0]);
      MembersAreOneLine(members[1..]);
    }
  }

  lemma {:induction false} MemberIsOneLine(m: (string, Json))
    ensures OneLine(RenderMember(m))
    decreases m, 2
  {
    EscapeIsOneLine(m.0);
    RenderIsOneLine(m.1);
  }
}
