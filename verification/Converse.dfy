// Only canonical claims survive: whatever comes back from the form as the same JSON was
// canonical before it went in.
module Converse {
  import opened Wrappers
  import opened Decimals
  import opened Json
  import opened JsonText
  import opened TextFields
  import opened Scalars
  import opened ClaimsForm
  import opened Canonical
  import opened Suggestions
  import opened Arrangement
  import opened LoadThenBuild

  // ---------------------------------------------------------------- weight and member order

  lemma {:induction false} WeightWithout(ms: seq<Member>, name: string)
    requires Unique(ms) && Has(ms, name)
    ensures MembersWeight(ms)
         == Weight(PrintMember(Member(name, Lookup(ms, name).value), "", "")) + 1 + MembersWeight(Remove(ms, name))
  {
    if ms[0].name == name {
      RemoveAbsent(ms[1..], name);
    } else {
      WeightWithout(ms[1..], name);
      assert Remove(ms, name)[1..] == Remove(ms[1..], name);
    }
  }

  lemma {:induction false} RemoveAbsent(ms: seq<Member>, name: string)
    requires !Has(ms, name)
    ensures Remove(ms, name) == ms
  {
    if ms != [] {
      assert ms[0].name != name;
      assert forall i :: 0 <= i < |ms[1..]| ==> ms[1..][i] == ms[i + 1];
      RemoveAbsent(ms[1..], name);
    }
  }

  // The printed weight of a value does not depend on the order of members.
  lemma {:induction false} SameWeight(a: Json, b: Json)
    requires WellFormed(a) && WellFormed(b) && Same(a, b)
    ensures Weight(Compact(a)) == Weight(Compact(b))
    decreases a
  {
    match a {
      case Arr(items) =>
        SameArray(items, b.items);
        SameItemsWeight(items, b.items);
        if items != [] {
          ArrayWeight(items);
          ArrayWeight(b.items);
        }
      case Obj(ms) =>
        SameMembersWeight(ms, b.members);
        if ms != [] {
          SameEmpty(b.members, ms);
          ObjectWeight(ms);
          ObjectWeight(b.members);
        } else {
          SameEmpty(ms, b.members);
        }
      case _ =>
    }
  }

  lemma SameEmpty(a: seq<Member>, b: seq<Member>)
    requires Same(Obj(a), Obj(b))
    ensures a == [] ==> b == []
  {
    if b != [] {
      assert Has(b, b[0].name);
      SameLookup(a, b, b[0].name);
    }
  }

  lemma {:induction false} SameItemsWeight(a: seq<Json>, b: seq<Json>)
    requires |a| == |b|
    requires forall i :: 0 <= i < |a| ==> WellFormed(a[i]) && WellFormed(b[i]) && Same(a[i], b[i])
    ensures ItemsWeight(a) == ItemsWeight(b)
    decreases a
  {
    if a != [] {
      SameWeight(a[0], b[0]);
      SameItemsWeight(a[1..], b[1..]);
    }
  }

  lemma {:induction false} SameMembersWeight(a: seq<Member>, b: seq<Member>)
    requires WellFormed(Obj(a)) && WellFormed(Obj(b)) && Same(Obj(a), Obj(b))
    ensures MembersWeight(a) == MembersWeight(b)
    decreases a
  {
    if a == [] {
      SameEmpty(a, b);
    } else {
      var m, later := a[0], a[1..];
      var b' := Remove(b, m.name);
      assert Has(a, m.name);
      SameLookup(a, b, m.name);
      LookupSmaller(b, m.name);
      var v := Lookup(b, m.name).value;
      SameWeight(m.value, v);
      MemberWeight(m);
      MemberWeight(Member(m.name, v));
      WeightWithout(b, m.name);
      WellFormedTail(a);
      RemoveKeeps(b, m.name);
      SameWithout(a, b);
      SameMembersWeight(later, b');
    }
  }

  lemma {:induction false} SameWithout(a: seq<Member>, b: seq<Member>)
    requires a != [] && Unique(a) && Same(Obj(a), Obj(b))
    ensures Same(Obj(a[1..]), Obj(Remove(b, a[0].name)))
  {
    var later, b' := a[1..], Remove(b, a[0].name);
    assert forall i :: 0 <= i < |later| ==> later[i] == a[i + 1];
    forall k
      ensures Has(later, k) <==> Has(b', k)
      ensures Has(later, k) ==> Same(Lookup(later, k).value, Lookup(b', k).value)
    {
      SameLookup(a, b, k);
      LookupRemove(b, a[0].name, k);
      assert Lookup(a, k) == if a[0].name == k then Some(a[0].value) else Lookup(later, k);
      assert !Has(later, a[0].name);
    }
    SameMembers(later, b');
  }

  // ---------------------------------------------------------------- scalars and lists

  lemma {:induction false} StableIfSame(v: Json)
    requires WellFormed(v) && ParseScalar(ValueText(v)).Some? && Same(ParseScalar(ValueText(v)).value, v)
    ensures Stable(v)
  {
    ScalarRoundTrip(v);
  }

  lemma {:induction false} SameTextsWeight(a: seq<Json>, b: seq<Json>)
    requires |a| == |b|
    requires forall i :: 0 <= i < |a| ==> WellFormed(a[i]) && WellFormed(b[i]) && Same(a[i], b[i])
    ensures TotalWeight(Texts(a)) == TotalWeight(Texts(b))
  {
    hide Print, Weight, ValueText;
    if a != [] {
      SameWeight(a[0], b[0]);
      ValueTextOf(a[0]);
      ValueTextOf(b[0]);
      SameTextsWeight(a[1..], b[1..]);
      assert Texts(a)[1..] == Texts(a[1..]) && Texts(b)[1..] == Texts(b[1..]);
    }
  }

  lemma {:induction false} ListConverse(vs: seq<Json>, out: seq<Json>)
    requires forall i :: 0 <= i < |vs| ==> WellFormed(vs[i])
    requires ParseList(ListText(vs)) == Some(out) && Same(Arr(out), Arr(vs))
    ensures StableList(vs)
  {
    SameArray(out, vs);
    SameTextsWeight(out, vs);
    ListWithoutLoss(vs, out);
    forall i | 0 <= i < |vs| ensures Stable(vs[i]) { StableIfSame(vs[i]); }
  }

  // ---------------------------------------------------------------- constraints

  lemma {:induction false} FlagLookup(essential: bool, ms: seq<Member>, k: string)
    ensures Lookup(Flag(essential) + ms, k)
         == if essential && k == "essential" then Some(Bool(true)) else Lookup(ms, k)
  {
    LookupConcat(Flag(essential), ms, k);
    if essential { LookupOne("essential", Bool(true), k); }
  }

  // An object that is the same as a flag followed by ms.
  lemma {:induction false} SameAsFlagged(essential: bool, ms: seq<Member>, c: seq<Member>)
    requires Same(Obj(Flag(essential) + ms), Obj(c)) && !Has(ms, "essential")
    ensures Flagged(c)
    ensures forall k :: Has(c, k) && k != "essential" ==> Has(ms, k)
    ensures forall k :: Has(ms, k) ==> Has(c, k) && Same(Lookup(ms, k).value, Lookup(c, k).value)
  {
    forall k
      ensures Has(c, k) && k != "essential" ==> Has(ms, k)
      ensures Has(ms, k) ==> Has(c, k) && Same(Lookup(ms, k).value, Lookup(c, k).value)
    {
      SameLookup(Flag(essential) + ms, c, k);
      FlagLookup(essential, ms, k);
    }
    SameLookup(Flag(essential) + ms, c, "essential");
    FlagLookup(essential, ms, "essential");
  }

  lemma OnlyFrom(ms: seq<Member>, names: set<string>)
    requires forall k :: Has(ms, k) ==> k in names
    ensures Only(ms, names)
  {
    forall m | m in ms ensures m.name in names {
      var i :| 0 <= i < |ms| && ms[i] == m;
      assert Has(ms, m.name);
    }
  }

  lemma {:induction false} ExactConverse(name: string, ms: seq<Member>, title: string)
    requires WellFormed(Obj(ms)) && Has(ms, "value")
    requires RowVisit(name, Obj(ms), title).Ok? && Same(RowVisit(name, Obj(ms), title).value, Obj(ms))
    ensures CanonicalConstraint(Obj(ms))
  {
    hide ScanNumber, DomText, ParseScalar, ListText, ValueText, Print, Stable, Essential;
    var v := Lookup(ms, "value").value;
    var out := ParseScalar(ValueText(v)).value;
    LookupSmaller(ms, "value");
    LookupOne("value", out, "value");
    LookupOne("value", out, "essential");
    SameAsFlagged(Essential(Obj(ms)), [Member("value", out)], ms);
    StableIfSame(v);
    forall k | Has(ms, k) ensures k in {"essential", "value"} { LookupOne("value", out, k); }
    OnlyFrom(ms, {"essential", "value"});
  }

  lemma {:induction false} ListConstraintConverse(name: string, ms: seq<Member>, title: string)
    requires WellFormed(Obj(ms)) && !Has(ms, "value") && Has(ms, "values")
    requires RowVisit(name, Obj(ms), title).Ok? && Same(RowVisit(name, Obj(ms), title).value, Obj(ms))
    ensures CanonicalConstraint(Obj(ms))
  {
    hide ScanNumber, DomText, ParseList, ListText, Print, StableList, Essential;
    var v := Lookup(ms, "values").value;
    var out := ParseList(ListText(v.items)).value;
    LookupSmaller(ms, "values");
    LookupOne("values", Arr(out), "values");
    LookupOne("values", Arr(out), "essential");
    SameAsFlagged(Essential(Obj(ms)), [Member("values", Arr(out))], ms);
    ListConverse(v.items, out);
    forall k | Has(ms, k) ensures k in {"essential", "values"} { LookupOne("values", Arr(out), k); }
    OnlyFrom(ms, {"essential", "values"});
  }

  lemma {:induction false} LookupBounds(low: NumberField, high: NumberField, k: string)
    ensures var ms := Bound("min", low) + Bound("max", high);
            Lookup(ms, k) == if k == "min" && low != "" then Some(Num(FieldNumber(low)))
                             else if k == "max" && high != "" then Some(Num(FieldNumber(high))) else None
  {
    LookupConcat(Bound("min", low), Bound("max", high), k);
    if low != "" { LookupOne("min", Num(FieldNumber(low)), k); }
    if high != "" { LookupOne("max", Num(FieldNumber(high)), k); }
  }

  function RangeField(ms: seq<Member>, name: string): NumberField {
    if Has(ms, "min") || Has(ms, "max") then NumberFieldText(Lookup(ms, name)) else ""
  }

  lemma {:induction false} RangeVisit(name: string, ms: seq<Member>, title: string)
    requires !Has(ms, "value") && !Has(ms, "values") && RowVisit(name, Obj(ms), title).Ok?
    ensures RowVisit(name, Obj(ms), title).value
         == Obj(Flag(Essential(Obj(ms))) + (Bound("min", RangeField(ms, "min")) + Bound("max", RangeField(ms, "max"))))
  {
    hide ScanNumber, DomText, NumberFieldText, Essential;
    var flag := Flag(Essential(Obj(ms)));
    var low, high := Bound("min", RangeField(ms, "min")), Bound("max", RangeField(ms, "max"));
    assert flag + (low + high) == flag + low + high;
    assert flag + ([] + []) == flag;
  }

  lemma {:induction false} RangeConverse(name: string, ms: seq<Member>, title: string)
    requires WellFormed(Obj(ms)) && !Has(ms, "value") && !Has(ms, "values")
    requires RowVisit(name, Obj(ms), title).Ok? && Same(RowVisit(name, Obj(ms), title).value, Obj(ms))
    ensures CanonicalConstraint(Obj(ms))
  {
    hide ScanNumber, NumberFieldText, Essential, RowVisit, RangeField, Bound, Stable, StableList, WellFormed, Lookup,
         FloatText, FieldNumber;
    var low, high := RangeField(ms, "min"), RangeField(ms, "max");
    RangeVisit(name, ms, title);
    LookupBounds(low, high, "essential");
    SameAsFlagged(Essential(Obj(ms)), Bound("min", low) + Bound("max", high), ms);
    LookupBounds(low, high, "min");
    LookupBounds(low, high, "max");
    forall k | Has(ms, k) ensures k in {"essential", "min", "max"} { LookupBounds(low, high, k); }
    OnlyFrom(ms, {"essential", "min", "max"});
  }

  // A constraint that comes back the same was canonical.
  lemma {:induction false} ConstraintConverse(name: string, c: Json, title: string)
    requires WellFormed(c) && RowVisit(name, c, title).Ok? && Same(RowVisit(name, c, title).value, c)
    ensures CanonicalConstraint(c)
  {
    hide ScanNumber, DomText, ParseScalar, ParseList, ListText, ValueText, Stable, StableList, NumberFieldText;
    if c.Obj? {
      if Has(c.members, "value") { ExactConverse(name, c.members, title); }
      else if Has(c.members, "values") { ListConstraintConverse(name, c.members, title); }
      else { RangeConverse(name, c.members, title); }
    }
  }
}
