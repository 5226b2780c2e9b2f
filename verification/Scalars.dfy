// The text form of constraint values in the request builder: valueForInput and parseScalar for
// one value, and the comma-separated list for the "one of these values" mode.
module Scalars {
  import opened Wrappers
  import opened Decimals
  import opened Json
  import opened JsonText
  import opened TextFields

  // ---------------------------------------------------------------- trimming

  // White space and line terminators as String.prototype.trim removes them.
  predicate IsSpace(c: char) {
    var u := c as int;
    9 <= u <= 13 || u == 0x20 || u == 0xA0 || u == 0x1680 || 0x2000 <= u <= 0x200A ||
    u == 0x2028 || u == 0x2029 || u == 0x202F || u == 0x205F || u == 0x3000 || u == 0xFEFF
  }

  function TrimStart(s: string): (t: string)
    ensures |t| <= |s|
    ensures t != "" ==> !IsSpace(t[0])
  {
    if s != "" && IsSpace(s[0]) then TrimStart(s[1..]) else s
  }

  function TrimEnd(s: string): (t: string)
    ensures |t| <= |s| && t == s[..|t|]
    ensures t != "" ==> !IsSpace(t[|t| - 1])
  {
    if s != "" && IsSpace(s[|s| - 1]) then TrimEnd(s[..|s| - 1]) else s
  }

  function Trim(s: string): (t: string)
    ensures t != "" ==> !IsSpace(t[0]) && !IsSpace(t[|t| - 1])
  {
    TrimEnd(TrimStart(s))
  }

  lemma {:induction false} TrimTrimmed(s: string)
    requires s == "" || (!IsSpace(s[0]) && !IsSpace(s[|s| - 1]))
    ensures Trim(s) == s
  {
  }

  // Trimming takes off white space at both ends and nothing else.
  lemma {:induction false} TrimExact(s: string) returns (i: nat, j: nat)
    ensures i <= j <= |s| && Trim(s) == s[i..j]
    ensures forall k :: 0 <= k < i || j <= k < |s| ==> IsSpace(s[k])
  {
    hide IsSpace;
    i := TrimStartExact(s);
    j := i + |Trim(s)|;
    TrimEndExact(s[i..]);
    assert s[i..][..|Trim(s)|] == s[i..j];
    forall k | 0 <= k < i || j <= k < |s| ensures IsSpace(s[k]) {
      if k >= j { assert s[i..][k - i] == s[k]; }
    }
  }

  lemma {:induction false} TrimStartExact(s: string) returns (i: nat)
    ensures i <= |s| && TrimStart(s) == s[i..] && forall k :: 0 <= k < i ==> IsSpace(s[k])
  {
    hide IsSpace;
    i := 0;
    if s != "" && IsSpace(s[0]) {
      i := TrimStartExact(s[1..]);
      i := i + 1;
      assert s[1..][i - 1..] == s[i..];
      forall k | 0 <= k < i ensures IsSpace(s[k]) {
        if k > 0 { assert s[1..][k - 1] == s[k]; }
      }
    }
  }

  lemma {:induction false} TrimEndExact(s: string)
    ensures forall k :: |TrimEnd(s)| <= k < |s| ==> IsSpace(s[k])
  {
    hide IsSpace;
    if s != "" && IsSpace(s[|s| - 1]) {
      var shorter := s[..|s| - 1];
      TrimEndExact(shorter);
      assert forall k :: 0 <= k < |shorter| ==> shorter[k] == s[k];
    }
  }

  lemma TrimIdempotent(s: string)
    ensures Trim(Trim(s)) == Trim(s)
  {
    TrimTrimmed(Trim(s));
  }

  lemma {:induction false} TrimOneLine(s: string)
    requires OneLine(s)
    ensures OneLine(Trim(s)) && |Trim(s)| <= |s|
  {
    TrimStartOneLine(s);
  }

  lemma {:induction false} TrimStartOneLine(s: string)
    requires OneLine(s)
    ensures OneLine(TrimStart(s))
  {
    if s != "" && IsSpace(s[0]) { TrimStartOneLine(s[1..]); }
  }

  // ---------------------------------------------------------------- weight

  // The number of characters that no number text is made of. Parsing and printing back never
  // raises it, whereas it may lengthen a text ("1e3" is printed as "1000").
  function Weight(s: string): nat {
    if s == "" then 0 else (if IsNumberChar(s[0]) then 0 else 1) + Weight(s[1..])
  }

  function Commas(s: string): nat {
    if s == "" then 0 else (if s[0] == ',' then 1 else 0) + Commas(s[1..])
  }

  lemma {:induction false} WeightConcat(a: string, b: string)
    ensures Weight(a + b) == Weight(a) + Weight(b)
  {
    if a == "" {
      assert a + b == b;
    } else {
      assert (a + b)[1..] == a[1..] + b;
      WeightConcat(a[1..], b);
    }
  }

  lemma {:induction false} WeightNumber(s: string)
    requires AllNumberChars(s)
    ensures Weight(s) == 0
  {
    if s != "" { WeightNumber(s[1..]); }
  }

  predicate IsSuffix(t: string, s: string) { |t| <= |s| && s[|s| - |t|..] == t }

  lemma {:induction false} WeightSuffix(t: string, s: string)
    requires IsSuffix(t, s)
    ensures Weight(t) <= Weight(s)
  {
    assert s == s[..|s| - |t|] + t;
    WeightConcat(s[..|s| - |t|], t);
  }

  lemma {:induction false} SkipBlankSuffix(s: string)
    ensures IsSuffix(SkipBlank(s), s)
  {
    if s != "" && IsBlank(s[0]) { SkipBlankSuffix(s[1..]); }
  }

  lemma {:induction false} ScanNumberSuffix(t: string)
    requires ScanNumber(t).Scanned?
    ensures IsSuffix(ScanNumber(t).rest, t)
  {
    var neg := t != "" && t[0] == '-';
    var u := if neg then t[1..] else t;
    ScanUnsignedSuffix(neg, u);
  }

  lemma {:induction false} ScanUnsignedSuffix(neg: bool, t: string)
    requires ScanUnsigned(neg, t).Scanned?
    ensures IsSuffix(ScanUnsigned(neg, t).rest, t)
  {
    var a := t[DigitRun(t)..];
    var b := ScanFraction(a).1;
    assert IsSuffix(b, a);
    var c := ScanPower(b).1;
    ScanPowerSuffix(b);
    SuffixOf(c, b, a);
    SuffixOf(c, a, t);
  }

  lemma {:induction false} ScanPowerSuffix(s: string)
    ensures IsSuffix(ScanPower(s).1, s)
  {
  }

  lemma {:induction false} SuffixOf(a: string, b: string, c: string)
    requires IsSuffix(a, b) && IsSuffix(b, c)
    ensures IsSuffix(a, c)
  {
    assert c[|c| - |a|..] == c[|c| - |b|..][|b| - |a|..];
  }

  // ---------------------------------------------------------------- parsing never adds weight

  lemma {:induction false} WeightOf1(a: char)
    ensures Weight([a]) == if IsNumberChar(a) then 0 else 1
  {
    assert [a][1..] == "";
  }

  lemma {:induction false} WeightCons(a: char, s: string)
    ensures Weight([a] + s) == Weight([a]) + Weight(s)
  {
    WeightConcat([a], s);
  }

  lemma {:induction false} WeightHead(s: string)
    requires s != ""
    ensures Weight(s) == Weight([s[0]]) + Weight(s[1..])
  {
    assert s == [s[0]] + s[1..];
    WeightCons(s[0], s[1..]);
  }

  lemma {:induction false} WeightHexDigit(c: char)
    requires HexValue(c).Some?
    ensures Weight([HexDigit(HexValue(c).value)]) == Weight([c])
  {
    WeightOf1(c);
    WeightOf1(HexDigit(HexValue(c).value));
  }

  lemma {:induction false} WeightEscapeChar(c: char)
    ensures Weight([c]) <= Weight(EscapeChar(c))
    ensures c == '"' || c == '\\' || c == '\n' || c == '\r' || c == '\t' || c as int == 8 || c as int == 12
            ==> Weight(EscapeChar(c)) == 2
    ensures !(c == '"' || c == '\\' || c < ' ') ==> Weight(EscapeChar(c)) == Weight([c])
    ensures c < ' ' && !(c == '\n' || c == '\r' || c == '\t' || c as int == 8 || c as int == 12)
            ==> Weight(EscapeChar(c)) == 2 + Weight([HexDigit(c as int / 16)]) + Weight([HexDigit(c as int % 16)])
  {
    WeightOf1(c);
    var e := EscapeChar(c);
    WeightHead(e);
    WeightOf1(e[0]);
    if |e| > 1 {
      WeightHead(e[1..]);
      WeightOf1(e[1]);
    }
    if |e| == 6 {
      var h := e[1..][1..];
      assert h == ['0'] + (['0'] + ([e[4]] + [e[5]]));
      WeightCons('0', ['0'] + ([e[4]] + [e[5]]));
      WeightCons('0', [e[4]] + [e[5]]);
      WeightCons(e[4], [e[5]]);
      WeightOf1('0');
    }
  }

  lemma {:induction false} ScanHexWeight(s: string)
    requires ScanHex(s).Got?
    ensures Weight(s) == Weight([s[0]]) + Weight([s[1]]) + Weight([s[2]]) + Weight([s[3]]) + Weight(s[4..])
  {
    WeightHead(s);
    WeightHead(s[1..]);
    WeightHead(s[1..][1..]);
    WeightHead(s[1..][1..][1..]);
    assert s[1..][1..][1..][1..] == s[4..];
  }

  lemma {:induction false} ScanUnicodeWeight(s: string)
    requires ScanUnicode(s).Got?
    ensures Weight(EscapeChar(ScanUnicode(s).value)) + Weight(ScanUnicode(s).rest) <= 2 + Weight(s)
  {
    var r := ScanUnicode(s);
    var c := r.value;
    var first := ScanHex(s);
    ScanHexWeight(s);
    WeightEscapeChar(c);
    WeightOf1(c);
    if IsHigh(first.value) {
      var low := first.rest[2..];
      ScanHexWeight(low);
      WeightSuffix(low, first.rest);
    } else if c < ' ' {
      WeightHexDigit(s[2]);
      WeightHexDigit(s[3]);
      HexLow(s);
    }
  }

  lemma {:induction false} HexLow(s: string)
    requires ScanHex(s).Got? && ScanHex(s).value < 32
    ensures HexValue(s[2]).value == ScanHex(s).value / 16 && HexValue(s[3]).value == ScanHex(s).value % 16
  {
  }

  lemma {:induction false} ScanEscapeWeight(s: string)
    requires ScanEscape(s).Got?
    ensures Weight(EscapeChar(ScanEscape(s).value)) + Weight(ScanEscape(s).rest) <= 1 + Weight(s)
  {
    WeightHead(s);
    WeightOf1(s[0]);
    if s[0] == 'u' {
      ScanUnicodeWeight(s[1..]);
    } else {
      WeightEscapeChar(ScanEscape(s).value);
      WeightOf1(ScanEscape(s).value);
    }
  }

  lemma {:induction false} ScanCharWeight(s: string)
    requires s != "" && s[0] != '"' && ScanChar(s).Got?
    ensures Weight(EscapeChar(ScanChar(s).value)) + Weight(ScanChar(s).rest) <= Weight(s)
  {
    WeightHead(s);
    WeightOf1(s[0]);
    if s[0] == '\\' {
      ScanEscapeWeight(s[1..]);
    } else {
      WeightEscapeChar(s[0]);
    }
  }

  lemma {:induction false} ScanCharsWeight(s: string)
    requires ScanChars(s).Got?
    ensures Weight(Escape(ScanChars(s).value)) + 1 + Weight(ScanChars(s).rest) <= Weight(s)
    decreases |s|
  {
    if s[0] == '"' {
      WeightHead(s);
      WeightOf1('"');
    } else {
      var c := ScanChar(s);
      var r := ScanChars(c.rest);
      ScanCharWeight(s);
      ScanCharsWeight(c.rest);
      var x := [c.value] + r.value;
      assert x[1..] == r.value;
      WeightConcat(EscapeChar(c.value), Escape(r.value));
    }
  }

  lemma {:induction false} WeightEscape(s: string)
    ensures Weight(s) <= Weight(Escape(s))
    ensures Weight(Quote(s)) == Weight(Escape(s)) + 2
  {
    WeightOf1('"');
    WeightConcat("\"", Escape(s));
    WeightConcat("\"" + Escape(s), "\"");
    if s != "" {
      WeightEscape(s[1..]);
      WeightHead(s);
      WeightEscapeChar(s[0]);
      WeightConcat(EscapeChar(s[0]), Escape(s[1..]));
    }
  }

  function Compact(v: Json): string { Print(v, "", "") }

  lemma {:induction false} AtomWeight(t: string)
    requires t != "" && ParseAtom(t).Got?
    ensures Weight(Compact(ParseAtom(t).value)) + Weight(ParseAtom(t).rest) <= Weight(t)
  {
    hide ScanNumber, ScanChars, Parse, NumberText;
    var r := ParseAtom(t);
    if t[0] == '"' {
      WeightHead(t);
      WeightOf1('"');
      ScanCharsWeight(t[1..]);
      WeightEscape(r.value.s);
    } else if t[0] == 'n' {
      WordWeight(t, "null", Null);
    } else if t[0] == 't' {
      WordWeight(t, "true", Bool(true));
    } else if t[0] == 'f' {
      WordWeight(t, "false", Bool(false));
    } else {
      ScanNumberSuffix(t);
      WeightSuffix(r.rest, t);
      NumberTextChars(r.value.n);
      WeightNumber(NumberText(r.value.n));
    }
  }

  lemma {:induction false} WordWeight(t: string, word: string, v: Json)
    requires ParseWord(t, word, v).Got?
    ensures Weight(word) + Weight(ParseWord(t, word, v).rest) == Weight(t)
  {
    assert t == word + t[|word|..];
    WeightConcat(word, t[|word|..]);
  }

  // The weight of a list of members, one separator counted for each.
  function MembersWeight(ms: seq<Member>): nat {
    if ms == [] then 0 else Weight(PrintMember(ms[0], "", "")) + 1 + MembersWeight(ms[1..])
  }

  function ItemsWeight(items: seq<Json>): nat {
    if items == [] then 0 else Weight(Compact(items[0])) + 1 + ItemsWeight(items[1..])
  }

  lemma {:induction false} PrintItemsWeight(items: seq<Json>)
    requires items != []
    ensures Weight(PrintItems(items, "", "")) + 1 == ItemsWeight(items)
    decreases |items|
  {
    if |items| == 1 {
      assert items[1..] == [];
    } else {
      var later := PrintItems(items[1..], "", "");
      PrintItemsWeight(items[1..]);
      assert "" + later == later;
      WeightCons(',', later);
      WeightOf1(',');
      WeightConcat(Compact(items[0]), "," + later);
    }
  }

  lemma {:induction false} PrintMembersWeight(ms: seq<Member>)
    requires ms != []
    ensures Weight(PrintMembers(ms, "", "")) + 1 == MembersWeight(ms)
    decreases |ms|
  {
    if |ms| == 1 {
      assert ms[1..] == [];
    } else {
      var later := PrintMembers(ms[1..], "", "");
      PrintMembersWeight(ms[1..]);
      assert "" + later == later;
      WeightCons(',', later);
      WeightOf1(',');
      WeightConcat(PrintMember(ms[0], "", ""), "," + later);
    }
  }

  lemma {:induction false} BracketWeight(open: char, body: string, close: char)
    requires !IsNumberChar(open) && !IsNumberChar(close)
    ensures Weight([open] + ("" + (body + ("" + [close])))) == Weight(body) + 2
  {
    assert [open] + ("" + (body + ("" + [close]))) == [open] + (body + [close]);
    WeightCons(open, body + [close]);
    WeightConcat(body, [close]);
    WeightOf1(open);
    WeightOf1(close);
  }

  lemma {:induction false} ArrayWeight(items: seq<Json>)
    requires items != []
    ensures Weight(Compact(Arr(items))) == ItemsWeight(items) + 1
  {
    PrintItemsWeight(items);
    assert "" + "" == "";
    BracketWeight('[', PrintItems(items, "", ""), ']');
  }

  lemma {:induction false} ObjectWeight(ms: seq<Member>)
    requires ms != []
    ensures Weight(Compact(Obj(ms))) == MembersWeight(ms) + 1
  {
    PrintMembersWeight(ms);
    assert "" + "" == "";
    BracketWeight('{', PrintMembers(ms, "", ""), '}');
  }

  lemma {:induction false} MemberWeight(m: Member)
    ensures Weight(PrintMember(m, "", "")) == Weight(Escape(m.name)) + 3 + Weight(Compact(m.value))
  {
    WeightCons(':', Compact(m.value));
    WeightOf1(':');
    WeightEscape(m.name);
    WeightConcat(Quote(m.name), ":" + Compact(m.value));
  }

  lemma {:induction false} PutWeight(ms: seq<Member>, name: string, value: Json)
    ensures MembersWeight(Put(ms, name, value))
         <= MembersWeight(ms) + Weight(PrintMember(Member(name, value), "", "")) + 1
  {
    if ms != [] {
      if ms[0].name == name {
        assert ([Member(name, value)] + ms[1..])[1..] == ms[1..];
      } else {
        PutWeight(ms[1..], name, value);
        assert ([ms[0]] + Put(ms[1..], name, value))[1..] == Put(ms[1..], name, value);
      }
    }
  }

  lemma {:induction false} CollectWeight(ms: seq<Member>, raw: seq<Member>)
    ensures MembersWeight(Collect(ms, raw)) <= MembersWeight(ms) + MembersWeight(raw)
    decreases |raw|
  {
    if raw != [] {
      PutWeight(ms, raw[0].name, raw[0].value);
      CollectWeight(Put(ms, raw[0].name, raw[0].value), raw[1..]);
    }
  }

  lemma {:induction false} CollectNonEmpty(ms: seq<Member>, raw: seq<Member>)
    requires ms != [] || raw != []
    ensures Collect(ms, raw) != []
    decreases |raw|
  {
    if raw != [] { CollectNonEmpty(Put(ms, raw[0].name, raw[0].value), raw[1..]); }
  }

  lemma {:induction false} SkipBlankWeight(s: string)
    ensures Weight(SkipBlank(s)) <= Weight(s)
  {
    SkipBlankSuffix(s);
    WeightSuffix(SkipBlank(s), s);
  }

  // Printing back what was parsed weighs no more than the text it was parsed from.
  lemma {:induction false} ParseWeight(s: string)
    requires ParseValue(s).Got?
    ensures Weight(Compact(ParseValue(s).value)) + Weight(ParseValue(s).rest) <= Weight(s)
    decreases |s|, 1
  {
    var t := SkipBlank(s);
    SkipBlankWeight(s);
    WeightHead(t);
    WeightOf1(t[0]);
    if t[0] == '[' {
      SkipBlankWeight(t[1..]);
      ParseArrayWeight(SkipBlank(t[1..]));
    } else if t[0] == '{' {
      SkipBlankWeight(t[1..]);
      ParseObjectWeight(SkipBlank(t[1..]));
    } else {
      AtomWeight(t);
    }
  }

  lemma {:induction false} ParseArrayWeight(u: string)
    requires ParseArray(u).Got?
    ensures Weight(Compact(ParseArray(u).value)) + Weight(ParseArray(u).rest) <= Weight(u) + 1
    decreases |u|, 4
  {
    if u != "" && u[0] == ']' {
      WeightHead(u);
      WeightOf1(']');
      WeightOf1('[');
      WeightCons('[', "]");
      assert Compact(Arr([])) == "[" + "]";
    } else {
      ParseItemsWeight(u);
      ArrayWeight(ParseItems(u).value);
    }
  }

  lemma {:induction false} ParseObjectWeight(u: string)
    requires ParseObject(u).Got?
    ensures Weight(Compact(ParseObject(u).value)) + Weight(ParseObject(u).rest) <= Weight(u) + 1
    decreases |u|, 4
  {
    if u != "" && u[0] == '}' {
      WeightHead(u);
      WeightOf1('}');
      WeightOf1('{');
      WeightCons('{', "}");
      assert Compact(Obj([])) == "{" + "}";
    } else {
      ParseMembersWeight(u);
      var raw := ParseMembers(u).value;
      CollectNonEmpty([], raw);
      CollectWeight([], raw);
      ObjectWeight(Collect([], raw));
    }
  }

  lemma {:induction false} ParseItemsWeight(s: string)
    requires ParseItems(s).Got?
    ensures ParseItems(s).value != []
    ensures ItemsWeight(ParseItems(s).value) + Weight(ParseItems(s).rest) <= Weight(s)
    decreases |s|, 2
  {
    var v := ParseValue(s);
    ParseWeight(s);
    var t := SkipBlank(v.rest);
    SkipBlankWeight(v.rest);
    WeightHead(t);
    WeightOf1(t[0]);
    if t[0] == ',' {
      ParseItemsWeight(t[1..]);
      assert ([v.value] + ParseItems(t[1..]).value)[1..] == ParseItems(t[1..]).value;
    } else {
      assert [v.value][1..] == [];
    }
  }

  lemma {:induction false} ParseMemberWeight(s: string)
    requires ParseMember(s).Got?
    ensures Weight(PrintMember(ParseMember(s).value, "", "")) + Weight(ParseMember(s).rest) <= Weight(s)
    decreases |s|, 2
  {
    var t := SkipBlank(s);
    SkipBlankWeight(s);
    WeightHead(t);
    WeightOf1('"');
    var name := ScanChars(t[1..]);
    ScanCharsWeight(t[1..]);
    var u := SkipBlank(name.rest);
    SkipBlankWeight(name.rest);
    WeightHead(u);
    WeightOf1(':');
    ParseWeight(u[1..]);
    MemberWeight(ParseMember(s).value);
  }

  lemma {:induction false} ParseMembersWeight(s: string)
    requires ParseMembers(s).Got?
    ensures ParseMembers(s).value != []
    ensures MembersWeight(ParseMembers(s).value) + Weight(ParseMembers(s).rest) <= Weight(s)
    decreases |s|, 3
  {
    var m := ParseMember(s);
    ParseMemberWeight(s);
    var t := SkipBlank(m.rest);
    SkipBlankWeight(m.rest);
    WeightHead(t);
    WeightOf1(t[0]);
    if t[0] == ',' {
      ParseMembersWeight(t[1..]);
      assert ([m.value] + ParseMembers(t[1..]).value)[1..] == ParseMembers(t[1..]).value;
    } else {
      assert [m.value][1..] == [];
    }
  }

  // ---------------------------------------------------------------- one scalar

  // valueForInput
  function InputText(v: Json): string { if v.Str? then v.s else Compact(v) }

  // What the input shows of it.
  function ValueText(v: Json): TextField { Strip(InputText(v)) }

  lemma ValueTextOf(v: Json)
    ensures ValueText(v) == if v.Str? then Strip(v.s) else Compact(v)
  {
    if !v.Str? { PrintedOneLine(v); }
  }

  // parseScalar on a text that is not blank
  function ParseText(text: string): Json {
    var t := Trim(text);
    match Parse(t)
    case Some(v) => v
    case None => Str(t)
  }

  // parseScalar; None stands for the thrown "needs a value" error
  function ParseScalar(text: string): Option<Json> {
    if Trim(text) == "" then None else Some(ParseText(text))
  }

  lemma {:induction false} TrimWeight(s: string)
    ensures Weight(Trim(s)) <= Weight(s)
  {
    TrimStartSuffix(s);
    var a := TrimStart(s);
    WeightSuffix(a, s);
    var b := TrimEnd(a);
    assert a == b + a[|b|..];
    WeightConcat(b, a[|b|..]);
  }

  lemma {:induction false} TrimStartSuffix(s: string)
    ensures IsSuffix(TrimStart(s), s)
  {
    if s != "" && IsSpace(s[0]) { TrimStartSuffix(s[1..]); }
  }

  lemma {:induction false} StripWeight(s: string)
    ensures Weight(Strip(s)) <= Weight(s)
  {
    if s != "" { StripWeight(s[1..]); }
  }

  lemma {:induction false} ParseTextWeight(text: string)
    ensures Weight(ValueText(ParseText(text))) <= Weight(text)
  {
    StripWeight(InputText(ParseText(text)));
    var t := Trim(text);
    TrimWeight(text);
    if Parse(t).Some? {
      ParseWeight(t);
      var v := ParseText(text);
      if v.Str? { WeightEscape(v.s); }
    }
  }

  // The text of a string literal never decodes to itself: the quotes are lost.
  lemma {:induction false} LiteralShrinks(t: string)
    requires Parse(t).Some? && Parse(t).value.Str?
    ensures Weight(Parse(t).value.s) < Weight(t)
  {
    ParseWeight(t);
    WeightEscape(Parse(t).value.s);
  }

  // The values that survive their text form: everything but strings that are blank-edged or
  // empty, hold a line break, or are themselves JSON text.
  predicate Stable(v: Json) {
    v.Str? ==> v.s != "" && Trim(v.s) == v.s && OneLine(v.s) && Parse(v.s).None?
  }

  lemma {:induction false} PrintedTrim(v: Json)
    requires !v.Str?
    ensures Compact(v) != "" && Trim(Compact(v)) == Compact(v)
  {
    var t := Compact(v);
    if v.Num? {
      NumberTextChars(v.n);
    } else if v.Arr? && v.items != [] {
      assert t[|t| - 1] == ']';
    } else if v.Obj? && v.members != [] {
      assert t[|t| - 1] == '}';
    }
    TrimTrimmed(t);
  }

  // parseScalar(valueForInput(v)) is v exactly for the stable values.
  lemma {:induction false} ScalarRoundTrip(v: Json)
    requires WellFormed(v)
    ensures ParseScalar(ValueText(v)) == Some(v) <==> Stable(v)
  {
    ValueTextOf(v);
    if v.Str? {
      var shown := Strip(v.s);
      TrimOneLine(shown);
      if Trim(shown) != "" && Parse(Trim(shown)).Some? && Parse(Trim(shown)).value == v {
        LiteralShrinks(Trim(shown));
        TrimWeight(shown);
        StripWeight(v.s);
      }
    } else {
      PrintedTrim(v);
      TextRoundTrip(v, "");
    }
  }

  // ---------------------------------------------------------------- lists

  // values.map(valueForInput).join(', ')
  function Join(texts: seq<string>): string {
    if texts == [] then "" else if |texts| == 1 then texts[0] else texts[0] + "," + (" " + Join(texts[1..]))
  }

  function Texts(vs: seq<Json>): (ts: seq<string>)
    ensures |ts| == |vs| && forall i :: 0 <= i < |vs| ==> ts[i] == ValueText(vs[i])
  {
    seq(|vs|, i requires 0 <= i < |vs| => ValueText(vs[i]))
  }

  function InputTexts(vs: seq<Json>): (ts: seq<string>)
    ensures |ts| == |vs| && forall i :: 0 <= i < |vs| ==> ts[i] == InputText(vs[i])
  {
    seq(|vs|, i requires 0 <= i < |vs| => InputText(vs[i]))
  }

  // What the input shows of a list.
  function ListText(vs: seq<Json>): TextField { Strip(Join(InputTexts(vs))) }

  lemma {:induction false} ListTextOf(vs: seq<Json>)
    ensures ListText(vs) == Join(Texts(vs))
  {
    hide InputText, Strip;
    if |vs| <= 1 {
      assert Strip("") == "" by { EmptyStrip(); }
    } else {
      var first, later := InputText(vs[0]), Join(InputTexts(vs[1..]));
      assert InputTexts(vs)[1..] == InputTexts(vs[1..]) && Texts(vs)[1..] == Texts(vs[1..]);
      ListTextOf(vs[1..]);
      StripConcat(first + ",", " " + later);
      StripConcat(first, ",");
      StripConcat(" ", later);
      assert first + ("," + (" " + later)) == first + "," + (" " + later);
      assert Strip(",") == "," && Strip(" ") == " ";
    }
  }

  lemma EmptyStrip()
    ensures Strip("") == ""
  {
  }

  // text.split(',')
  function Split(s: string): (ps: seq<string>)
    ensures |ps| > 0
  {
    if s == "" then [""]
    else if s[0] == ',' then [""] + Split(s[1..])
    else
      var ps := Split(s[1..]);
      [[s[0]] + ps[0]] + ps[1..]
  }

  // .map(trim).filter(Boolean)
  function Trimmed(ps: seq<string>): (ts: seq<string>)
    ensures forall i :: 0 <= i < |ts| ==> ts[i] != "" && Trim(ts[i]) == ts[i]
  {
    if ps == [] then []
    else
      var t := Trim(ps[0]);
      TrimIdempotent(ps[0]);
      (if t == "" then [] else [t]) + Trimmed(ps[1..])
  }

  function Tokens(text: string): seq<string> { Trimmed(Split(text)) }

  function ParseEach(ts: seq<string>): (vs: seq<Json>)
    ensures |vs| == |ts| && forall i :: 0 <= i < |ts| ==> vs[i] == ParseText(ts[i])
  {
    seq(|ts|, i requires 0 <= i < |ts| => ParseText(ts[i]))
  }

  // The values of a comma-separated text; None stands for the thrown error on an empty list.
  function ParseList(text: string): Option<seq<Json>> {
    var ts := Tokens(text);
    if ts == [] then None else Some(ParseEach(ts))
  }

  lemma {:induction false} SplitConcat(a: string, b: string)
    ensures Split(a + "," + b) == Split(a) + Split(b)
  {
    var s := a + "," + b;
    if a == "" {
      assert s[1..] == b;
    } else {
      assert s[1..] == a[1..] + "," + b;
      SplitConcat(a[1..], b);
    }
  }

  lemma {:induction false} TrimmedConcat(a: seq<string>, b: seq<string>)
    ensures Trimmed(a + b) == Trimmed(a) + Trimmed(b)
  {
    if a == [] {
      assert a + b == b;
    } else {
      assert (a + b)[1..] == a[1..] + b;
      TrimmedConcat(a[1..], b);
    }
  }

  lemma {:induction false} TokensAfterSpace(b: string)
    ensures Tokens(" " + b) == Tokens(b)
  {
    var ps := Split(b);
    assert (" " + b)[1..] == b;
    assert Split(" " + b) == [" " + ps[0]] + ps[1..];
    assert (" " + ps[0])[1..] == ps[0];
    assert Trim(" " + ps[0]) == Trim(ps[0]);
    assert ([" " + ps[0]] + ps[1..])[1..] == ps[1..];
  }

  function JoinTokens(texts: seq<string>): seq<string> {
    if texts == [] then [] else Tokens(texts[0]) + JoinTokens(texts[1..])
  }

  // The tokens of a joined text are those of its parts, one after the other.
  lemma {:induction false} TokensOfJoin(texts: seq<string>)
    ensures Tokens(Join(texts)) == JoinTokens(texts)
  {
    if texts == [] {
      assert Split("") == [""] && [""][1..] == [];
      assert Trim("") == "";
    } else if |texts| == 1 {
      assert JoinTokens(texts[1..]) == [];
    } else {
      var later := Join(texts[1..]);
      SplitConcat(texts[0], " " + later);
      TrimmedConcat(Split(texts[0]), Split(" " + later));
      TokensAfterSpace(later);
      TokensOfJoin(texts[1..]);
    }
  }

  function TotalWeight(ts: seq<string>): nat {
    if ts == [] then 0 else Weight(ts[0]) + TotalWeight(ts[1..])
  }

  function TotalCommas(ts: seq<string>): nat {
    if ts == [] then 0 else Commas(ts[0]) + TotalCommas(ts[1..])
  }

  lemma {:induction false} TotalWeightConcat(a: seq<string>, b: seq<string>)
    ensures TotalWeight(a + b) == TotalWeight(a) + TotalWeight(b)
  {
    if a == [] {
      assert a + b == b;
    } else {
      assert (a + b)[1..] == a[1..] + b;
      TotalWeightConcat(a[1..], b);
    }
  }

  lemma {:induction false} SplitWeight(s: string)
    ensures TotalWeight(Split(s)) + Commas(s) == Weight(s)
  {
    if s == "" {
      assert [""][1..] == [];
    } else {
      SplitWeight(s[1..]);
      WeightHead(s);
      WeightOf1(s[0]);
      var ps := Split(s[1..]);
      if s[0] == ',' {
        assert ([""] + ps)[1..] == ps;
      } else {
        WeightCons(s[0], ps[0]);
        assert ([[s[0]] + ps[0]] + ps[1..])[1..] == ps[1..];
      }
    }
  }

  lemma {:induction false} TrimmedWeight(ps: seq<string>)
    ensures TotalWeight(Trimmed(ps)) <= TotalWeight(ps)
  {
    if ps != [] {
      TrimWeight(ps[0]);
      TrimmedWeight(ps[1..]);
      var t := Trim(ps[0]);
      if t == "" {
        assert [] + Trimmed(ps[1..]) == Trimmed(ps[1..]);
      } else {
        assert ([t] + Trimmed(ps[1..]))[1..] == Trimmed(ps[1..]);
      }
    }
  }

  // Commas are lost in the tokens of a text.
  lemma {:induction false} JoinTokensWeight(texts: seq<string>)
    ensures TotalWeight(JoinTokens(texts)) + TotalCommas(texts) <= TotalWeight(texts)
  {
    if texts != [] {
      SplitWeight(texts[0]);
      TrimmedWeight(Split(texts[0]));
      JoinTokensWeight(texts[1..]);
      TotalWeightConcat(Tokens(texts[0]), JoinTokens(texts[1..]));
    }
  }

  lemma {:induction false} ParseEachWeight(ts: seq<string>)
    ensures TotalWeight(Texts(ParseEach(ts))) <= TotalWeight(ts)
  {
    if ts != [] {
      ParseTextWeight(ts[0]);
      ParseEachWeight(ts[1..]);
      assert Texts(ParseEach(ts))[1..] == Texts(ParseEach(ts[1..]));
    }
  }

  predicate CommaFree(s: string) { forall i :: 0 <= i < |s| ==> s[i] != ',' }

  lemma {:induction false} NoCommas(s: string)
    ensures Commas(s) == 0 <==> CommaFree(s)
  {
    if s != "" {
      NoCommas(s[1..]);
      assert forall i :: 0 < i < |s| ==> s[i] == s[1..][i - 1];
    }
  }

  lemma {:induction false} SplitCommaFree(s: string)
    requires CommaFree(s)
    ensures Split(s) == [s]
  {
    if s != "" {
      SplitCommaFree(s[1..]);
      assert [s[0]] + s[1..] == s;
    }
  }

  lemma {:induction false} TokensCommaFree(s: string)
    requires CommaFree(s)
    ensures Tokens(s) == if Trim(s) == "" then [] else [Trim(s)]
  {
    SplitCommaFree(s);
    assert [s][1..] == [] && Trimmed([]) == [];
    assert [Trim(s)] + [] == [Trim(s)];
  }

  lemma {:induction false} TotalCommasZero(texts: seq<string>)
    ensures TotalCommas(texts) == 0 <==> forall t :: t in texts ==> CommaFree(t)
  {
    if texts != [] {
      NoCommas(texts[0]);
      TotalCommasZero(texts[1..]);
      assert texts == [texts[0]] + texts[1..];
    }
  }

  // Comma-free texts give at most one token each, so all are found iff none is blank.
  lemma {:induction false} JoinTokensCount(texts: seq<string>)
    requires forall t :: t in texts ==> CommaFree(t)
    ensures |JoinTokens(texts)| <= |texts|
    ensures |JoinTokens(texts)| == |texts| <==> forall t :: t in texts ==> Trim(t) != ""
  {
    if texts != [] {
      TokensCommaFree(texts[0]);
      JoinTokensCount(texts[1..]);
      assert texts == [texts[0]] + texts[1..];
    }
  }

  lemma {:induction false} JoinTokensAt(texts: seq<string>, i: nat)
    requires forall t :: t in texts ==> CommaFree(t) && Trim(t) != ""
    requires i < |texts|
    ensures |JoinTokens(texts)| == |texts| && JoinTokens(texts)[i] == Trim(texts[i])
  {
    TokensCommaFree(texts[0]);
    JoinTokensCount(texts);
    JoinTokensCount(texts[1..]);
    if i > 0 { JoinTokensAt(texts[1..], i - 1); }
  }

  // A list that survives its comma-separated text.
  predicate StableList(vs: seq<Json>) {
    vs != [] && forall i :: 0 <= i < |vs| ==> Stable(vs[i]) && CommaFree(ValueText(vs[i]))
  }

  // A list of the same length and no less weight leaves no room for commas inside a text.
  lemma {:induction false} ListWithoutLoss(vs: seq<Json>, out: seq<Json>)
    requires ParseList(ListText(vs)) == Some(out)
    requires |out| == |vs| && TotalWeight(Texts(out)) >= TotalWeight(Texts(vs))
    ensures forall i :: 0 <= i < |vs| ==>
              && CommaFree(ValueText(vs[i]))
              && ParseScalar(ValueText(vs[i])) == Some(out[i])
  {
    hide Weight, TotalWeight, TotalCommas, JoinTokens, ParseText, Trim, Tokens, Split, Trimmed, Join, ParseEach,
         ValueText;
    var texts := Texts(vs);
    var ts := JoinTokens(texts);
    ListTextOf(vs);
    TokensOfJoin(texts);
    ParseEachWeight(ts);
    JoinTokensWeight(texts);
    TotalCommasZero(texts);
    JoinTokensCount(texts);
    forall i | 0 <= i < |vs|
      ensures CommaFree(ValueText(vs[i])) && ParseScalar(ValueText(vs[i])) == Some(out[i])
    {
      assert texts[i] in texts;
      JoinTokensAt(texts, i);
      ParseTextTrims(texts[i]);
    }
  }

  lemma ParseTextTrims(text: string)
    ensures ParseText(Trim(text)) == ParseText(text)
  {
    hide Trim;
    TrimIdempotent(text);
  }

  // The comma-separated form gives back exactly the non-empty lists of stable, comma-free values.
  lemma {:induction false} ListRoundTrip(vs: seq<Json>)
    requires forall i :: 0 <= i < |vs| ==> WellFormed(vs[i])
    ensures ParseList(ListText(vs)) == Some(vs) <==> StableList(vs)
  {
    ListTextOf(vs);
    TokensOfJoin(Texts(vs));
    if StableList(vs) { StableListReturns(vs); }
    if ParseList(ListText(vs)) == Some(vs) {
      ListWithoutLoss(vs, vs);
      forall i | 0 <= i < |vs| ensures Stable(vs[i]) { ScalarRoundTrip(vs[i]); }
    }
  }

  lemma {:induction false} StableListReturns(vs: seq<Json>)
    requires forall i :: 0 <= i < |vs| ==> WellFormed(vs[i])
    requires StableList(vs)
    ensures ParseEach(JoinTokens(Texts(vs))) == vs
  {
    var texts := Texts(vs);
    forall i | 0 <= i < |vs| ensures Trim(texts[i]) != "" && ParseText(texts[i]) == vs[i] {
      ScalarRoundTrip(vs[i]);
    }
    JoinTokensCount(texts);
    forall i | 0 <= i < |vs| ensures ParseText(JoinTokens(texts)[i]) == vs[i] {
      JoinTokensAt(texts, i);
      TrimIdempotent(texts[i]);
    }
  }
}
