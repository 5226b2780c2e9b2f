// The builder's member order changes nothing that JSON gives a meaning to, and whole claims
// objects come back from the form in that order.
module Arrangement {
  import opened Wrappers
  import opened Json
  import opened JsonText
  import opened TextFields
  import opened Scalars
  import opened ClaimsForm
  import opened Canonical

  // ---------------------------------------------------------------- lookups in pieces

  lemma {:induction false} LookupConcat(a: seq<Member>, b: seq<Member>, k: string)
    ensures Lookup(a + b, k) == if Has(a, k) then Lookup(a, k) else Lookup(b, k)
  {
    if a == [] {
      assert a + b == b;
    } else {
      assert (a + b)[1..] == a[1..] + b;
      LookupConcat(a[1..], b, k);
    }
  }

  lemma LookupOne(name: string, v: Json, k: string)
    ensures Lookup([Member(name, v)], k) == if k == name then Some(v) else None
  {
    assert [Member(name, v)][1..] == [];
  }

  lemma LookupPick(ms: seq<Member>, name: string, k: string)
    ensures Lookup(Pick(ms, name), k) == if k == name then Lookup(ms, name) else None
  {
    if Has(ms, name) { LookupOne(name, Lookup(ms, name).value, k); }
  }

  lemma LookupSection(name: string, ms: seq<Member>, k: string)
    ensures Lookup(Section(name, ms), k) == if k == name && ms != [] then Some(Obj(ms)) else None
  {
    if ms != [] { LookupOne(name, Obj(ms), k); }
  }

  lemma {:induction false} LookupRows(ms: seq<Member>, k: string)
    ensures Lookup(ArrangeRows(ms), k)
         == if Has(ms, k) then Some(ArrangeConstraint(Lookup(ms, k).value)) else None
  {
    if ms != [] {
      assert ArrangeRows(ms)[1..] == ArrangeRows(ms[1..]);
      LookupRows(ms[1..], k);
    }
  }

  lemma LookupIn(ms: seq<Member>, k: string)
    requires Has(ms, k)
    ensures Member(k, Lookup(ms, k).value) in ms
  {
  }

  // Objects with the same lookups are the same JSON.
  lemma {:induction false} SameLookups(a: seq<Member>, b: seq<Member>)
    requires forall k :: Lookup(a, k) == Lookup(b, k)
    ensures Same(Obj(a), Obj(b))
  {
    forall k ensures Has(a, k) <==> Has(b, k) { assert Lookup(a, k) == Lookup(b, k); }
    SameMembers(a, b);
  }

  // ---------------------------------------------------------------- order carries no meaning

  lemma {:induction false} SameConstraint(c: Json)
    requires CanonicalConstraint(c)
    ensures Same(ArrangeConstraint(c), c)
  {
    hide Stable, StableList;
    if c.Obj? {
      var ms := c.members;
      var a, b, d := Pick(ms, "essential"), Pick(ms, "value"), Pick(ms, "values");
      var e, f := Pick(ms, "min"), Pick(ms, "max");
      forall k ensures Lookup(a + b + d + e + f, k) == Lookup(ms, k) {
        if k !in {"essential", "value", "values", "min", "max"} { ConstraintNames(ms, k); }
        LookupConcat(a + b + d + e, f, k);
        LookupConcat(a + b + d, e, k);
        LookupConcat(a + b, d, k);
        LookupConcat(a, b, k);
        LookupPick(ms, "essential", k);
        LookupPick(ms, "value", k);
        LookupPick(ms, "values", k);
        LookupPick(ms, "min", k);
        LookupPick(ms, "max", k);
      }
      SameLookups(a + b + d + e + f, ms);
    }
  }

  lemma ConstraintNames(ms: seq<Member>, k: string)
    requires CanonicalConstraint(Obj(ms)) && k !in {"essential", "value", "values", "min", "max"}
    ensures !Has(ms, k)
  {
    hide Stable, StableList;
  }

  lemma {:induction false} SameTime(t: Json)
    requires CanonicalTime(t)
    ensures Same(ArrangeTime(t), t)
  {
    if t.Obj? {
      var ms := t.members;
      var a, b := Pick(ms, "essential"), Pick(ms, "max_age");
      forall k ensures Lookup(a + b, k) == Lookup(ms, k) {
        LookupConcat(a, b, k);
        LookupPick(ms, "essential", k);
        LookupPick(ms, "max_age", k);
      }
      SameLookups(a + b, ms);
    }
  }

  lemma {:induction false} SameRows(ms: seq<Member>)
    requires forall m :: m in ms ==> CanonicalProperty(m)
    ensures Same(Obj(ArrangeRows(ms)), Obj(ms))
  {
    hide CanonicalConstraint, ArrangeConstraint;
    forall k ensures Has(ArrangeRows(ms), k) <==> Has(ms, k) { LookupRows(ms, k); }
    forall k | Has(ArrangeRows(ms), k) ensures Same(Lookup(ArrangeRows(ms), k).value, Lookup(ms, k).value) {
      LookupRows(ms, k);
      LookupIn(ms, k);
      SameConstraint(Lookup(ms, k).value);
    }
    SameMembers(ArrangeRows(ms), ms);
  }

  lemma {:induction false} LookupMetadata(ms: seq<Member>, k: string)
    ensures Lookup(ArrangeMetadata(ms), k)
         == if !Has(ms, k) then None
            else Some(if k == "time" then ArrangeTime(Lookup(ms, k).value) else ArrangeConstraint(Lookup(ms, k).value))
  {
    hide ArrangeTime, ArrangeConstraint;
    LookupConcat(TimePart(ms), ArrangeRows(Remove(ms, "time")), k);
    if Has(ms, "time") { LookupOne("time", ArrangeTime(Lookup(ms, "time").value), k); }
    LookupRows(Remove(ms, "time"), k);
    LookupRemove(ms, "time", k);
  }

  lemma {:induction false} SameMetadata(ms: seq<Member>)
    requires forall m :: m in ms ==> CanonicalMetadatum(m)
    ensures Same(Obj(ArrangeMetadata(ms)), Obj(ms))
  {
    hide CanonicalConstraint, ArrangeConstraint, ArrangeTime, ArrangeMetadata;
    forall k ensures Has(ArrangeMetadata(ms), k) <==> Has(ms, k) { LookupMetadata(ms, k); }
    forall k | Has(ArrangeMetadata(ms), k) ensures Same(Lookup(ArrangeMetadata(ms), k).value, Lookup(ms, k).value) {
      LookupMetadata(ms, k);
      LookupIn(ms, k);
      var v := Lookup(ms, k).value;
      if k == "time" { SameTime(v); } else { SameConstraint(v); }
    }
    SameMembers(ArrangeMetadata(ms), ms);
  }

  lemma {:induction false} LookupFactor(ms: seq<Member>, k: string)
    ensures Lookup(ArrangeFactor(ms), k)
         == if k == "amr_identifier" then Some(Obj([Member("value", Str(IdentifierOf(ms)))]))
            else if k == "amr_metadata" && ArrangeMetadata(SectionOf(ms, "amr_metadata")) != [] then
              Some(Obj(ArrangeMetadata(SectionOf(ms, "amr_metadata"))))
            else if k == "amr_properties" && ArrangeRows(SectionOf(ms, "amr_properties")) != [] then
              Some(Obj(ArrangeRows(SectionOf(ms, "amr_properties"))))
            else None
  {
    hide ArrangeMetadata, ArrangeRows, SectionOf, IdentifierOf;
    var id := Identifier(IdentifierOf(ms));
    var mm, pm := ArrangeMetadata(SectionOf(ms, "amr_metadata")), ArrangeRows(SectionOf(ms, "amr_properties"));
    LookupConcat(id + Section("amr_metadata", mm), Section("amr_properties", pm), k);
    LookupConcat(id, Section("amr_metadata", mm), k);
    LookupOne("amr_identifier", Obj([Member("value", Str(IdentifierOf(ms)))]), k);
    LookupSection("amr_metadata", mm, k);
    LookupSection("amr_properties", pm, k);
  }

  lemma {:induction false} ArrangedNotEmpty(ms: seq<Member>)
    requires ms != []
    ensures ArrangeMetadata(ms) != [] && ArrangeRows(ms) != []
  {
    RemoveKeeps(ms, "time");
    assert ms[0] in ms;
    if ms[0].name == "time" { assert Has(ms, "time"); } else { assert ms[0] in Remove(ms, "time"); }
  }

  lemma {:induction false} SameIdentifier(v: Json)
    requires CanonicalIdentifier(v)
    ensures Same(Obj([Member("value", Lookup(v.members, "value").value)]), v)
  {
    var ms := v.members;
    forall k ensures Lookup(Pick(ms, "value"), k) == Lookup(ms, k) { LookupPick(ms, "value", k); }
    SameLookups(Pick(ms, "value"), ms);
  }

  lemma {:induction false} SameFactor(ms: seq<Member>)
    requires WellFormed(Obj(ms)) && CanonicalFactor(ms)
    ensures Same(Obj(ArrangeFactor(ms)), Obj(ms))
  {
    hide CanonicalMetadatum, CanonicalProperty, ArrangeMetadata, ArrangeRows, ArrangeFactor, CanonicalIdentifier;
    var mm, pm := SectionOf(ms, "amr_metadata"), SectionOf(ms, "amr_properties");
    FactorSections(ms);
    FactorParts(ms);
    forall k
      ensures Has(ArrangeFactor(ms), k) <==> Has(ms, k)
      ensures Has(ms, k) ==> Same(Lookup(ArrangeFactor(ms), k).value, Lookup(ms, k).value)
    {
      LookupFactor(ms, k);
    }
    SameMembers(ArrangeFactor(ms), ms);
  }

  lemma {:induction false} FactorParts(ms: seq<Member>)
    requires WellFormed(Obj(ms)) && CanonicalFactor(ms)
    ensures Same(Obj([Member("value", Str(IdentifierOf(ms)))]), Lookup(ms, "amr_identifier").value)
    ensures var mm := ArrangeMetadata(SectionOf(ms, "amr_metadata"));
            && (mm != [] <==> Has(ms, "amr_metadata"))
            && (Has(ms, "amr_metadata") ==> Same(Obj(mm), Lookup(ms, "amr_metadata").value))
    ensures var pm := ArrangeRows(SectionOf(ms, "amr_properties"));
            && (pm != [] <==> Has(ms, "amr_properties"))
            && (Has(ms, "amr_properties") ==> Same(Obj(pm), Lookup(ms, "amr_properties").value))
  {
    hide CanonicalMetadatum, CanonicalProperty;
    SameIdentifier(Lookup(ms, "amr_identifier").value);
    var mm, pm := SectionOf(ms, "amr_metadata"), SectionOf(ms, "amr_properties");
    if mm != [] {
      ArrangedNotEmpty(mm);
      SameMetadata(mm);
    }
    if pm != [] {
      ArrangedNotEmpty(pm);
      SameRows(pm);
    }
  }

  lemma {:induction false} SameGroup(ms: seq<Member>, name: string, items: seq<Json>)
    requires Only(ms, {name}) && HasArray(ms, name)
    requires Same(Arr(items), Lookup(ms, name).value)
    ensures Same(Obj([Member(name, Arr(items))]), Obj(ms))
  {
    var out := [Member(name, Arr(items))];
    forall k ensures Has(out, k) <==> Has(ms, k) { LookupOne(name, Arr(items), k); }
    forall k | Has(out, k) ensures Same(Lookup(out, k).value, Lookup(ms, k).value) { LookupOne(name, Arr(items), k); }
    SameMembers(out, ms);
  }

  // Writing a canonical expression in the builder's order does not change what it says.
  lemma {:induction false} SameExpression(e: Json)
    requires WellFormed(e) && CanonicalExpression(e)
    ensures Same(Obj(ArrangeExpression(e)), e)
    decreases e
  {
    hide CanonicalFactor, ArrangeFactor;
    if HasArray(e.members, "all_of") {
      LookupSmaller(e.members, "all_of");
      var items := Lookup(e.members, "all_of").value.items;
      SameList(items);
      SameGroup(e.members, "all_of", ArrangeList(items));
    } else if HasArray(e.members, "one_of") {
      LookupSmaller(e.members, "one_of");
      var items := Lookup(e.members, "one_of").value.items;
      SameList(items);
      SameGroup(e.members, "one_of", ArrangeList(items));
    } else {
      SameFactor(e.members);
    }
  }

  lemma {:induction false} SameList(items: seq<Json>)
    requires forall i :: 0 <= i < |items| ==> WellFormed(items[i]) && CanonicalExpression(items[i])
    ensures Same(Arr(ArrangeList(items)), Arr(items))
    decreases items
  {
    var out := ArrangeList(items);
    if items != [] {
      SameExpression(items[0]);
      SameList(items[1..]);
      SameArray(ArrangeList(items[1..]), items[1..]);
      forall i | 0 <= i < |items| ensures Same(out[i], items[i]) {
        if i > 0 { assert out[i] == ArrangeList(items[1..])[i - 1] && items[i] == items[1..][i - 1]; }
      }
    }
    SameArray(out, items);
  }
}
