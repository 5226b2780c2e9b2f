// JSON.stringify and JSON.parse on texts. Texts are sequences of Unicode scalar values, so an
// escape that denotes a lone surrogate is outside the model and is treated as a syntax error.
module JsonText {
  import opened Wrappers
  import opened Decimals
  import opened Json

  // ---------------------------------------------------------------- blanks

  predicate IsBlank(c: char) { c == ' ' || c == '\t' || c == '\n' || c == '\r' }

  predicate AllBlank(s: string) { forall i :: 0 <= i < |s| ==> IsBlank(s[i]) }

  function SkipBlank(s: string): (t: string)
    ensures |t| <= |s|
    ensures t != "" ==> !IsBlank(t[0])
  {
    if s != "" && IsBlank(s[0]) then SkipBlank(s[1..]) else s
  }

  lemma {:induction false} SkipBlanks(w: string, s: string)
    requires AllBlank(w)
    ensures SkipBlank(w + s) == SkipBlank(s)
  {
    if w == "" {
      assert w + s == s;
    } else {
      assert (w + s)[1..] == w[1..] + s;
      SkipBlanks(w[1..], s);
    }
  }

  // ---------------------------------------------------------------- strings

  function HexDigit(d: nat): (c: char)
    requires d < 16
    ensures HexValue(c) == Some(d)
  {
    if d < 10 then DigitChar(d) else ('a' as int + (d - 10)) as char
  }

  function HexValue(c: char): (r: Option<nat>)
    ensures r.Some? ==> r.value < 16
  {
    if '0' <= c <= '9' then Some(c as int - '0' as int)
    else if 'a' <= c <= 'f' then Some(c as int - 'a' as int + 10)
    else if 'A' <= c <= 'F' then Some(c as int - 'A' as int + 10)
    else None
  }

  // QuoteJSONString on one character.
  function EscapeChar(c: char): (s: string)
    ensures s != ""
  {
    if c == '"' then "\\\""
    else if c == '\\' then "\\\\"
    else if c == '\n' then "\\n"
    else if c == '\r' then "\\r"
    else if c == '\t' then "\\t"
    else if c as int == 8 then "\\b"
    else if c as int == 12 then "\\f"
    else if c < ' ' then ['\\', 'u', '0', '0', HexDigit(c as int / 16), HexDigit(c as int % 16)]
    else [c]
  }

  function Escape(s: string): string {
    if s == "" then "" else EscapeChar(s[0]) + Escape(s[1..])
  }

  function Quote(s: string): string { "\"" + Escape(s) + "\"" }

  datatype Parsed<+T> = Fail | Got(value: T, rest: string)

  // The code unit after "\u".
  function ScanHex(s: string): (r: Parsed<nat>)
    ensures r.Got? ==> |s| >= 4 && r.value < 0x10000 && r.rest == s[4..]
  {
    if |s| < 4 then Fail
    else
      var a, b, c, d := HexValue(s[0]), HexValue(s[1]), HexValue(s[2]), HexValue(s[3]);
      if a.Some? && b.Some? && c.Some? && d.Some? then
        Got(((a.value * 16 + b.value) * 16 + c.value) * 16 + d.value, s[4..])
      else Fail
  }

  predicate IsHigh(u: nat) { 0xD800 <= u < 0xDC00 }

  predicate IsLow(u: nat) { 0xDC00 <= u < 0xE000 }

  function ScanUnicode(s: string): (r: Parsed<char>)
    ensures r.Got? ==> |r.rest| < |s|
  {
    var first := ScanHex(s);
    if first.Fail? then Fail
    else if !IsHigh(first.value) && !IsLow(first.value) then Got(first.value as char, first.rest)
    else if IsHigh(first.value) && |first.rest| > 2 && first.rest[0] == '\\' && first.rest[1] == 'u' then
      var second := ScanHex(first.rest[2..]);
      if second.Got? && IsLow(second.value) then
        Got((0x10000 + (first.value - 0xD800) * 0x400 + (second.value - 0xDC00)) as char, second.rest)
      else Fail
    else Fail
  }

  // The character denoted after a backslash.
  function ScanEscape(s: string): (r: Parsed<char>)
    ensures r.Got? ==> |r.rest| < |s|
  {
    if s == "" then Fail
    else if s[0] == '"' || s[0] == '\\' || s[0] == '/' then Got(s[0], s[1..])
    else if s[0] == 'b' then Got(8 as char, s[1..])
    else if s[0] == 'f' then Got(12 as char, s[1..])
    else if s[0] == 'n' then Got('\n', s[1..])
    else if s[0] == 'r' then Got('\r', s[1..])
    else if s[0] == 't' then Got('\t', s[1..])
    else if s[0] == 'u' then ScanUnicode(s[1..])
    else Fail
  }

  // One character of a string literal, plain or escaped.
  function ScanChar(s: string): (r: Parsed<char>)
    requires s != "" && s[0] != '"'
    ensures r.Got? ==> |r.rest| < |s|
  {
    if s[0] == '\\' then ScanEscape(s[1..])
    else if s[0] < ' ' then Fail
    else Got(s[0], s[1..])
  }

  // The characters of a string literal up to and including its closing quote.
  function ScanChars(s: string): (r: Parsed<string>)
    ensures r.Got? ==> |r.rest| < |s|
  {
    if s == "" then Fail
    else if s[0] == '"' then Got("", s[1..])
    else
      var c := ScanChar(s);
      if c.Fail? then Fail
      else
        var r := ScanChars(c.rest);
        if r.Fail? then Fail else Got([c.value] + r.value, r.rest)
  }

  lemma {:induction false} ScanEscaped(c: char, rest: string)
    ensures EscapeChar(c)[0] != '"'
    ensures EscapeChar(c) + rest != "" && (EscapeChar(c) + rest)[0] != '"'
    ensures ScanChar(EscapeChar(c) + rest) == Got(c, rest)
  {
    var e := EscapeChar(c);
    var s := e + rest;
    assert s[0] == e[0];
    if c == '"' || c == '\\' || c == '\n' || c == '\r' || c == '\t' || c as int == 8 || c as int == 12 {
      assert s[1..][0] == e[1];
      assert s[1..][1..] == rest;
    } else if c < ' ' {
      var h := s[1..][1..];
      assert s[1..][0] == 'u';
      assert h[0] == '0' && h[1] == '0' && h[2] == HexDigit(c as int / 16) && h[3] == HexDigit(c as int % 16);
      assert h[4..] == rest;
    } else {
      assert s[1..] == rest;
    }
  }

  lemma {:induction false} StringRoundTrip(s: string, rest: string)
    ensures ScanChars(Escape(s) + "\"" + rest) == Got(s, rest)
  {
    var t := Escape(s) + "\"" + rest;
    if s == "" {
      assert t == "\"" + rest;
      assert t[1..] == rest;
    } else {
      var u := Escape(s[1..]) + "\"" + rest;
      assert t == EscapeChar(s[0]) + u;
      ScanEscaped(s[0], u);
      StringRoundTrip(s[1..], rest);
      assert [s[0]] + s[1..] == s;
    }
  }

  // ---------------------------------------------------------------- printing

  // JSON.stringify(v, null, gap): compact for an empty gap, one line per element otherwise.
  function Print(v: Json, gap: string, indent: string): (t: string)
    decreases v, 0
  {
    match v
    case Null => "null"
    case Bool(b) => if b then "true" else "false"
    case Num(n) => NumberText(n)
    case Str(s) => Quote(s)
    case Arr(items) =>
      if items == [] then "[]"
      else "[" + (Break(gap, indent + gap) + (PrintItems(items, gap, indent + gap) + (Break(gap, indent) + "]")))
    case Obj(ms) =>
      if ms == [] then "{}"
      else "{" + (Break(gap, indent + gap) + (PrintMembers(ms, gap, indent + gap) + (Break(gap, indent) + "}")))
  }

  function Break(gap: string, indent: string): string { if gap == "" then "" else "\n" + indent }

  function PrintItems(items: seq<Json>, gap: string, indent: string): string
    requires items != []
    decreases items, 1
  {
    if |items| == 1 then Print(items[0], gap, indent)
    else Print(items[0], gap, indent) + ("," + (Break(gap, indent) + PrintItems(items[1..], gap, indent)))
  }

  function PrintMember(m: Member, gap: string, indent: string): string
    decreases m, 1
  {
    Quote(m.name) + (Colon(gap) + Print(m.value, gap, indent))
  }

  function PrintMembers(ms: seq<Member>, gap: string, indent: string): string
    requires ms != []
    decreases ms, 2
  {
    if |ms| == 1 then PrintMember(ms[0], gap, indent)
    else PrintMember(ms[0], gap, indent) + ("," + (Break(gap, indent) + PrintMembers(ms[1..], gap, indent)))
  }

  // ---------------------------------------------------------------- parsing

  function ParseWord(s: string, word: string, v: Json): Parsed<Json> {
    if |word| <= |s| && s[..|word|] == word then Got(v, s[|word|..]) else Fail
  }

  // A string, a word or a number.
  function ParseAtom(t: string): (r: Parsed<Json>)
    requires t != ""
    ensures r.Got? ==> |r.rest| < |t| && WellFormed(r.value)
  {
    if t[0] == '"' then
      var r := ScanChars(t[1..]);
      if r.Fail? then Fail else Got(Str(r.value), r.rest)
    else if t[0] == 'n' then ParseWord(t, "null", Null)
    else if t[0] == 't' then ParseWord(t, "true", Bool(true))
    else if t[0] == 'f' then ParseWord(t, "false", Bool(false))
    else
      var r := ScanNumber(t);
      if r.Scanned? && r.strict then Got(Num(r.number), r.rest) else Fail
  }

  function ParseValue(s: string): (r: Parsed<Json>)
    ensures r.Got? ==> |r.rest| < |s| && WellFormed(r.value)
    decreases |s|, 1
  {
    var t := SkipBlank(s);
    if t == "" then Fail
    else if t[0] == '[' then ParseArray(SkipBlank(t[1..]))
    else if t[0] == '{' then ParseObject(SkipBlank(t[1..]))
    else ParseAtom(t)
  }

  function ParseArray(u: string): (r: Parsed<Json>)
    ensures r.Got? ==> |r.rest| < |u| && WellFormed(r.value)
    decreases |u|, 4
  {
    if u != "" && u[0] == ']' then Got(Arr([]), u[1..])
    else
      var r := ParseItems(u);
      if r.Fail? then Fail else Got(Arr(r.value), r.rest)
  }

  function ParseObject(u: string): (r: Parsed<Json>)
    ensures r.Got? ==> |r.rest| < |u| && WellFormed(r.value)
    decreases |u|, 4
  {
    if u != "" && u[0] == '}' then Got(Obj([]), u[1..])
    else
      var r := ParseMembers(u);
      if r.Fail? then Fail else CollectWellFormed([], r.value); Got(Obj(Collect([], r.value)), r.rest)
  }

  // Elements up to and including the closing bracket.
  function ParseItems(s: string): (r: Parsed<seq<Json>>)
    ensures r.Got? ==> |r.rest| < |s| && forall i :: 0 <= i < |r.value| ==> WellFormed(r.value[i])
    decreases |s|, 2
  {
    var v := ParseValue(s);
    if v.Fail? then Fail
    else
      var t := SkipBlank(v.rest);
      if t == "" then Fail
      else if t[0] == ']' then Got([v.value], t[1..])
      else if t[0] == ',' then
        var r := ParseItems(t[1..]);
        if r.Fail? then Fail else Got([v.value] + r.value, r.rest)
      else Fail
  }

  function ParseMember(s: string): (r: Parsed<Member>)
    ensures r.Got? ==> |r.rest| < |s| && WellFormed(r.value.value)
    decreases |s|, 2
  {
    var t := SkipBlank(s);
    if t == "" || t[0] != '"' then Fail
    else
      var name := ScanChars(t[1..]);
      if name.Fail? then Fail else ParseNamed(name.value, name.rest)
  }

  // The colon and the value after a member's name.
  function ParseNamed(name: string, s: string): (r: Parsed<Member>)
    ensures r.Got? ==> |r.rest| < |s| && WellFormed(r.value.value)
    decreases |s|, 2
  {
    var u := SkipBlank(s);
    if u == "" || u[0] != ':' then Fail
    else
      var v := ParseValue(u[1..]);
      if v.Fail? then Fail else Got(Member(name, v.value), v.rest)
  }

  // Members up to and including the closing brace, repeated names included.
  function ParseMembers(s: string): (r: Parsed<seq<Member>>)
    ensures r.Got? ==> |r.rest| < |s| && AllWellFormed(r.value)
    decreases |s|, 3
  {
    var m := ParseMember(s);
    if m.Fail? then Fail
    else
      var t := SkipBlank(m.rest);
      if t == "" then Fail
      else if t[0] == '}' then Got([m.value], t[1..])
      else if t[0] == ',' then
        var r := ParseMembers(t[1..]);
        if r.Fail? then Fail else Got([m.value] + r.value, r.rest)
      else Fail
  }

  // A repeated name keeps its first place and its last value.
  function Collect(ms: seq<Member>, raw: seq<Member>): seq<Member>
    decreases |raw|
  {
    if raw == [] then ms else Collect(Put(ms, raw[0].name, raw[0].value), raw[1..])
  }

  predicate AllWellFormed(ms: seq<Member>) { forall m :: m in ms ==> WellFormed(m.value) }

  lemma {:induction false} CollectWellFormed(ms: seq<Member>, raw: seq<Member>)
    requires Unique(ms) && AllWellFormed(ms) && AllWellFormed(raw)
    ensures WellFormed(Obj(Collect(ms, raw)))
    decreases |raw|
  {
    if raw != [] {
      assert raw[0] in raw;
      PutUnique(ms, raw[0].name, raw[0].value);
      PutWellFormed(ms, raw[0].name, raw[0].value);
      CollectWellFormed(Put(ms, raw[0].name, raw[0].value), raw[1..]);
    }
  }

  lemma {:induction false} PutWellFormed(ms: seq<Member>, name: string, value: Json)
    requires WellFormed(value) && AllWellFormed(ms)
    ensures AllWellFormed(Put(ms, name, value))
  {
    if ms != [] {
      assert ms[0] in ms;
      if ms[0].name != name { PutWellFormed(ms[1..], name, value); }
    }
  }

  lemma {:induction false} CollectUnique(ms: seq<Member>, raw: seq<Member>)
    requires Unique(ms + raw)
    ensures Collect(ms, raw) == ms + raw
    decreases |raw|
  {
    if raw == [] {
      assert ms + raw == ms;
    } else {
      var m := raw[0];
      assert (ms + raw)[|ms|] == m && forall i :: 0 <= i < |ms| ==> (ms + raw)[i] == ms[i];
      PutNew(ms, m.name, m.value);
      assert ms + [Member(m.name, m.value)] + raw[1..] == ms + raw;
      CollectUnique(ms + [m], raw[1..]);
    }
  }

  // JSON.parse: the whole text is one value and blanks; None stands for the thrown SyntaxError.
  function Parse(s: string): (r: Option<Json>)
    ensures r.Some? ==> WellFormed(r.value)
  {
    var r := ParseValue(s);
    if r.Got? && SkipBlank(r.rest) == "" then Some(r.value) else None
  }

  // ---------------------------------------------------------------- round trip

  lemma {:induction false} BreakBlank(gap: string, indent: string)
    requires AllBlank(gap) && AllBlank(indent)
    ensures AllBlank(Break(gap, indent)) && AllBlank(indent + gap)
  {
  }

  // Leading blanks never matter to the parser of a value.
  lemma {:induction false} ParseAfterBlanks(w: string, s: string)
    requires AllBlank(w)
    ensures ParseValue(w + s) == ParseValue(s)
  {
    SkipBlanks(w, s);
  }

  lemma {:induction false} PrintStart(v: Json, gap: string, indent: string)
    ensures Print(v, gap, indent) != ""
    ensures var c := Print(v, gap, indent)[0]; !IsBlank(c) && c != ']' && c != '}'
  {
    if v.Num? { NumberTextChars(v.n); }
  }

  // Parsing what was printed, in front of any text that may follow a value, gives the value back.
  lemma {:induction false} PrintedParses(v: Json, gap: string, indent: string, rest: string)
    requires WellFormed(v) && AllBlank(gap) && AllBlank(indent) && Stops(rest)
    ensures ParseValue(Print(v, gap, indent) + rest) == Got(v, rest)
    decreases v, 0
  {
    match v {
      case Arr(items) => ArrayParses(items, gap, indent, rest);
      case Obj(ms) => ObjectParses(ms, gap, indent, rest);
      case _ =>
        AtomParses(v, gap, indent, rest);
        var s := Print(v, gap, indent) + rest;
        assert SkipBlank(s) == s;
    }
  }

  lemma {:induction false} AtomParses(v: Json, gap: string, indent: string, rest: string)
    requires !v.Arr? && !v.Obj? && Stops(rest)
    ensures var s := Print(v, gap, indent) + rest;
            s != "" && !IsBlank(s[0]) && s[0] != '[' && s[0] != '{' && ParseAtom(s) == Got(v, rest)
  {
    match v {
      case Null => WordParses("null", Null, rest);
      case Bool(b) => WordParses(if b then "true" else "false", v, rest);
      case Num(n) => NumberAtomParses(n, rest);
      case Str(x) => StringAtomParses(x, rest);
    }
  }

  lemma {:induction false} NumberAtomParses(n: Number, rest: string)
    requires Stops(rest)
    ensures var s := NumberText(n) + rest;
            s != "" && (s[0] == '-' || IsDigit(s[0])) && ParseAtom(s) == Got(Num(n), rest)
  {
    NumberTextChars(n);
    NumberRoundTrip(n, rest);
    FirstOf(NumberText(n), rest);
    ScannedAtom(NumberText(n) + rest, ScanNumber(NumberText(n) + rest));
  }

  lemma {:induction false} FirstOf(a: string, b: string)
    requires a != ""
    ensures a + b != "" && (a + b)[0] == a[0]
  {
  }

  lemma {:induction false} ScannedAtom(t: string, scan: Scan)
    requires t != "" && (t[0] == '-' || IsDigit(t[0]))
    requires scan == ScanNumber(t) && scan.Scanned? && scan.strict
    ensures ParseAtom(t) == Got(Num(scan.number), scan.rest)
  {
    hide ScanNumber, ScanChars, ParseWord;
  }

  lemma {:induction false} StringAtomParses(x: string, rest: string)
    ensures var s := Quote(x) + rest;
            s != "" && s[0] == '"' && ParseAtom(s) == Got(Str(x), rest)
  {
    var s := Quote(x) + rest;
    assert s[1..] == Escape(x) + "\"" + rest;
    StringRoundTrip(x, rest);
  }

  lemma {:induction false} WordParses(word: string, v: Json, rest: string)
    requires word != ""
    ensures (word + rest)[0] == word[0] && ParseWord(word + rest, word, v) == Got(v, rest)
  {
    assert (word + rest)[..|word|] == word && (word + rest)[|word|..] == rest;
  }

  // The text after an opening bracket, with its blanks skipped, is the body of the list.
  lemma {:induction false} BodyText(open: string, w: string, body: string, w2: string, close: string, rest: string)
    requires |open| == 1 && !IsBlank(open[0]) && AllBlank(w) && body != "" && !IsBlank(body[0])
    ensures var s := open + (w + (body + (w2 + close))) + rest;
            && SkipBlank(s) == s && s[0] == open[0]
            && SkipBlank(s[1..]) == body + (w2 + (close + rest))
  {
    var s := open + (w + (body + (w2 + close))) + rest;
    var t := body + (w2 + (close + rest));
    assert s[1..] == w + t;
    SkipBlanks(w, t);
    assert t[0] == body[0];
  }

  lemma {:induction false} ArrayParses(items: seq<Json>, gap: string, indent: string, rest: string)
    requires WellFormed(Arr(items)) && AllBlank(gap) && AllBlank(indent)
    ensures ParseValue(Print(Arr(items), gap, indent) + rest) == Got(Arr(items), rest)
    decreases items, 3
  {
    if items == [] {
      var s := "[]" + rest;
      assert s[1..] == "]" + rest && s[1..][1..] == rest;
    } else {
      BreakBlank(gap, indent + gap);
      BreakBlank(gap, indent);
      ItemsStart(items, gap, indent + gap);
      BodyText("[", Break(gap, indent + gap), PrintItems(items, gap, indent + gap), Break(gap, indent), "]", rest);
      ItemsParse(items, gap, indent + gap, Break(gap, indent), rest);
    }
  }

  lemma {:induction false} ItemsStart(items: seq<Json>, gap: string, indent: string)
    requires items != []
    ensures var t := PrintItems(items, gap, indent); t != "" && !IsBlank(t[0]) && t[0] != ']'
  {
    PrintStart(items[0], gap, indent);
  }

  lemma {:induction false} ItemsStep(s: string, v: Json, more: string, list: seq<Json>, rest: string)
    requires ParseValue(s) == Got(v, "," + more) && ParseItems(more) == Got(list, rest)
    ensures ParseItems(s) == Got([v] + list, rest)
  {
    assert SkipBlank("," + more) == "," + more && ("," + more)[1..] == more;
  }

  lemma {:induction false} ItemsEnd(s: string, v: Json, w: string, rest: string)
    requires AllBlank(w) && ParseValue(s) == Got(v, w + ("]" + rest))
    ensures ParseItems(s) == Got([v], rest)
  {
    SkipBlanks(w, "]" + rest);
    assert ("]" + rest)[1..] == rest;
  }

  lemma {:induction false} ItemsParse(items: seq<Json>, gap: string, indent: string, w: string, rest: string)
    requires items != [] && WellFormed(Arr(items)) && AllBlank(gap) && AllBlank(indent) && AllBlank(w)
    ensures ParseItems(PrintItems(items, gap, indent) + (w + ("]" + rest))) == Got(items, rest)
    decreases items, 2
  {
    var close := w + ("]" + rest);
    if |items| == 1 {
      assert Stops(close);
      PrintedParses(items[0], gap, indent, close);
      ItemsEnd(PrintItems(items, gap, indent) + close, items[0], w, rest);
      assert [items[0]] == items;
    } else {
      var first, later := Print(items[0], gap, indent), PrintItems(items[1..], gap, indent);
      var more := Break(gap, indent) + (later + close);
      Regroup4(first, ",", Break(gap, indent), later, close);
      PrintedParses(items[0], gap, indent, "," + more);
      ItemsParse(items[1..], gap, indent, w, rest);
      BreakBlank(gap, indent);
      ParseAfterBlanks(Break(gap, indent), later + close);
      assert ParseItems(more) == ParseItems(later + close);
      ItemsStep(first + ("," + more), items[0], more, items[1..], rest);
      assert [items[0]] + items[1..] == items;
    }
  }

  lemma {:induction false} Regroup4(a: string, b: string, c: string, d: string, e: string)
    ensures a + (b + (c + d)) + e == a + (b + (c + (d + e)))
  {
  }

  lemma {:induction false} ObjectParses(ms: seq<Member>, gap: string, indent: string, rest: string)
    requires WellFormed(Obj(ms)) && AllBlank(gap) && AllBlank(indent)
    ensures ParseValue(Print(Obj(ms), gap, indent) + rest) == Got(Obj(ms), rest)
    decreases ms, 4
  {
    if ms == [] {
      var s := "{}" + rest;
      assert s[1..] == "}" + rest && s[1..][1..] == rest;
    } else {
      BreakBlank(gap, indent + gap);
      BreakBlank(gap, indent);
      MembersStart(ms, gap, indent + gap);
      BodyText("{", Break(gap, indent + gap), PrintMembers(ms, gap, indent + gap), Break(gap, indent), "}", rest);
      MembersParse(ms, gap, indent + gap, Break(gap, indent), rest);
      assert [] + ms == ms;
      CollectUnique([], ms);
    }
  }

  lemma {:induction false} MembersStart(ms: seq<Member>, gap: string, indent: string)
    requires ms != []
    ensures PrintMembers(ms, gap, indent) != "" && PrintMembers(ms, gap, indent)[0] == '"'
  {
    assert PrintMember(ms[0], gap, indent)[0] == '"';
  }

  function Colon(gap: string): string { if gap == "" then ":" else ": " }

  lemma {:induction false} MemberParses(m: Member, gap: string, indent: string, rest: string)
    requires WellFormed(m.value) && AllBlank(gap) && AllBlank(indent) && Stops(rest)
    ensures ParseMember(PrintMember(m, gap, indent) + rest) == Got(m, rest)
    decreases m, 1
  {
    var body := Print(m.value, gap, indent);
    var u := Colon(gap) + (body + rest);
    NameParses(m.name, u);
    MemberText(Escape(m.name), Colon(gap), body, rest);
    PrintedParses(m.value, gap, indent, rest);
    NamedParses(m.name, gap, body + rest);
  }

  lemma {:induction false} NamedParses(name: string, gap: string, s: string)
    ensures ParseNamed(name, Colon(gap) + s)
         == var v := ParseValue(s); if v.Fail? then Fail else Got(Member(name, v.value), v.rest)
  {
    var u := Colon(gap) + s;
    var w := if gap == "" then "" else " ";
    assert u[1..] == w + s && u[0] == ':';
    ParseAfterBlanks(w, s);
  }

  lemma {:induction false} NameParses(name: string, u: string)
    ensures var s := "\"" + (Escape(name) + "\"" + u);
            SkipBlank(s) == s && s[0] == '"' && ScanChars(s[1..]) == Got(name, u)
  {
    var s := "\"" + (Escape(name) + "\"" + u);
    assert s[1..] == Escape(name) + "\"" + u;
    StringRoundTrip(name, u);
  }

  lemma {:induction false} MemberText(e: string, colon: string, body: string, rest: string)
    ensures "\"" + e + "\"" + (colon + body) + rest == "\"" + (e + "\"" + (colon + (body + rest)))
  {
  }

  lemma {:induction false} MemberAfterBlanks(w: string, s: string)
    requires AllBlank(w)
    ensures ParseMember(w + s) == ParseMember(s)
  {
    SkipBlanks(w, s);
  }

  lemma {:induction false} MembersStep(s: string, m: Member, more: string, list: seq<Member>, rest: string)
    requires ParseMember(s) == Got(m, "," + more) && ParseMembers(more) == Got(list, rest)
    ensures ParseMembers(s) == Got([m] + list, rest)
  {
    assert SkipBlank("," + more) == "," + more && ("," + more)[1..] == more;
  }

  lemma {:induction false} MembersEnd(s: string, m: Member, w: string, rest: string)
    requires AllBlank(w) && ParseMember(s) == Got(m, w + ("}" + rest))
    ensures ParseMembers(s) == Got([m], rest)
  {
    SkipBlanks(w, "}" + rest);
    assert ("}" + rest)[1..] == rest;
  }

  lemma {:induction false} MembersParse(ms: seq<Member>, gap: string, indent: string, w: string, rest: string)
    requires ms != [] && AllBlank(gap) && AllBlank(indent) && AllBlank(w)
    requires forall i :: 0 <= i < |ms| ==> WellFormed(ms[i].value)
    ensures ParseMembers(PrintMembers(ms, gap, indent) + (w + ("}" + rest))) == Got(ms, rest)
    decreases ms, 3
  {
    var close := w + ("}" + rest);
    if |ms| == 1 {
      assert Stops(close);
      MemberParses(ms[0], gap, indent, close);
      MembersEnd(PrintMembers(ms, gap, indent) + close, ms[0], w, rest);
      assert [ms[0]] == ms;
    } else {
      var first, later := PrintMember(ms[0], gap, indent), PrintMembers(ms[1..], gap, indent);
      var more := Break(gap, indent) + (later + close);
      Regroup4(first, ",", Break(gap, indent), later, close);
      MemberParses(ms[0], gap, indent, "," + more);
      MembersParse(ms[1..], gap, indent, w, rest);
      BreakBlank(gap, indent);
      MemberAfterBlanks(Break(gap, indent), later + close);
      assert ParseMembers(more) == ParseMembers(later + close);
      MembersStep(first + ("," + more), ms[0], more, ms[1..], rest);
      assert [ms[0]] + ms[1..] == ms;
    }
  }

  // JSON.parse undoes JSON.stringify, compact or indented, on every value.
  lemma TextRoundTrip(v: Json, gap: string)
    requires WellFormed(v) && AllBlank(gap)
    ensures Parse(Print(v, gap, "")) == Some(v)
  {
    PrintedParses(v, gap, "", "");
    assert Print(v, gap, "") + "" == Print(v, gap, "");
  }
}
