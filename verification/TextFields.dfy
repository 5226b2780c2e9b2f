// The single-line text inputs of the page: what they hold of a text they are given.
module TextFields {
  import opened Decimals
  import opened Json
  import opened JsonText

  predicate OneLine(s: string) { forall i :: 0 <= i < |s| ==> s[i] != '\n' && s[i] != '\r' }

  // What a text input holds: the browser strips line breaks from the value it is given.
  type TextField = t: string | OneLine(t)

  function Strip(s: string): (t: TextField)
    ensures |t| <= |s|
    ensures if OneLine(s) then t == s else |t| < |s|
  {
    if s == "" then ""
    else if s[0] == '\n' || s[0] == '\r' then Strip(s[1..])
    else
      assert OneLine(s) <==> OneLine(s[1..]) by { OneLineConcat([s[0]], s[1..]); assert s == [s[0]] + s[1..]; }
      [s[0]] + Strip(s[1..])
  }

  lemma OneLineConcat(a: string, b: string)
    ensures OneLine(a + b) <==> OneLine(a) && OneLine(b)
  {
    if OneLine(a + b) {
      assert forall i :: 0 <= i < |a| ==> a[i] == (a + b)[i];
      assert forall i :: 0 <= i < |b| ==> b[i] == (a + b)[|a| + i];
    }
  }

  lemma {:induction false} StripConcat(a: string, b: string)
    ensures Strip(a + b) == Strip(a) + Strip(b)
  {
    if a == "" {
      assert a + b == b;
    } else {
      assert (a + b)[1..] == a[1..] + b;
      StripConcat(a[1..], b);
    }
  }

  // ---------------------------------------------------------------- JSON on one line

  lemma {:induction false} EscapeOneLine(s: string)
    ensures OneLine(Escape(s)) && OneLine(Quote(s))
  {
    if s != "" {
      EscapeOneLine(s[1..]);
      OneLineConcat(EscapeChar(s[0]), Escape(s[1..]));
    }
    OneLineConcat("\"", Escape(s));
    OneLineConcat("\"" + Escape(s), "\"");
  }

  // Without a gap, JSON.stringify writes no line break: those in strings are escaped.
  lemma {:induction false} PrintedOneLine(v: Json)
    ensures OneLine(Print(v, "", ""))
    decreases v, 0
  {
    if v.Str? {
      EscapeOneLine(v.s);
    } else if v.Arr? && v.items != [] {
      ArrayText(v.items);
      hide OneLine, Print, PrintItems;
      ItemsOneLine(v.items);
      Bracketed("[", PrintItems(v.items, "", ""), "]");
    } else if v.Obj? && v.members != [] {
      ObjectText(v.members);
      hide OneLine, Print, PrintMembers;
      MembersOneLine(v.members);
      Bracketed("{", PrintMembers(v.members, "", ""), "}");
    } else {
      AtomOneLine(v);
    }
  }

  lemma AtomOneLine(v: Json)
    requires !v.Str? && (v.Arr? ==> v.items == []) && (v.Obj? ==> v.members == [])
    ensures OneLine(Print(v, "", ""))
  {
    hide NumberText;
    if v.Num? {
      NumberOneLine(v.n);
    } else {
      hide PrintItems, PrintMembers;
      assert OneLine("null") && OneLine("true") && OneLine("false") && OneLine("[]") && OneLine("{}");
    }
  }

  lemma NumberOneLine(n: Number)
    ensures OneLine(NumberText(n))
  {
    hide NumberText;
    NumberTextChars(n);
  }

  lemma ArrayText(items: seq<Json>)
    requires items != []
    ensures Print(Arr(items), "", "") == "[" + ("" + (PrintItems(items, "", "") + ("" + "]")))
  {
    hide PrintItems;
    assert "" + "" == "";
  }

  lemma ObjectText(ms: seq<Member>)
    requires ms != []
    ensures Print(Obj(ms), "", "") == "{" + ("" + (PrintMembers(ms, "", "") + ("" + "}")))
  {
    hide PrintMembers;
    assert "" + "" == "";
  }

  lemma Bracketed(open: string, body: string, close: string)
    requires (open == "[" && close == "]") || (open == "{" && close == "}")
    requires OneLine(body)
    ensures OneLine(open + ("" + (body + ("" + close))))
  {
    assert open + ("" + (body + ("" + close))) == open + (body + close);
    OneLineConcat(body, close);
    OneLineConcat(open, body + close);
  }

  lemma Listed(first: string, later: string)
    requires OneLine(first) && OneLine(later)
    ensures OneLine(first + ("," + ("" + later)))
  {
    assert first + ("," + ("" + later)) == first + ("," + later);
    OneLineConcat(",", later);
    OneLineConcat(first, "," + later);
  }

  lemma {:induction false} ItemsOneLine(items: seq<Json>)
    requires items != []
    ensures OneLine(PrintItems(items, "", ""))
    decreases items, 1
  {
    PrintedOneLine(items[0]);
    if |items| > 1 {
      ItemsOneLine(items[1..]);
      Listed(Print(items[0], "", ""), PrintItems(items[1..], "", ""));
    }
  }

  lemma {:induction false} MemberOneLine(m: Member)
    ensures OneLine(PrintMember(m, "", ""))
    decreases m, 1
  {
    EscapeOneLine(m.name);
    PrintedOneLine(m.value);
    OneLineConcat(":", Print(m.value, "", ""));
    OneLineConcat(Quote(m.name), ":" + Print(m.value, "", ""));
  }

  lemma {:induction false} MembersOneLine(ms: seq<Member>)
    requires ms != []
    ensures OneLine(PrintMembers(ms, "", ""))
    decreases ms, 2
  {
    MemberOneLine(ms[0]);
    if |ms| > 1 {
      MembersOneLine(ms[1..]);
      Listed(PrintMember(ms[0], "", ""), PrintMembers(ms[1..], "", ""));
    }
  }
}
