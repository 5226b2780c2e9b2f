// The exact domain of the builder: a claims object is returned unchanged by a visit to the form
// if and only if it is canonical and its rows can be shown.
module ExactDomain {
  import opened Wrappers
  import opened Decimals
  import opened Json
  import opened JsonText
  import opened TextFields
  import opened Scalars
  import opened ClaimsForm
  import opened Canonical
  import opened Suggestions
  import opened Arrangement
  import opened LoadThenBuild
  import opened Converse

  // ---------------------------------------------------------------- rows

  // A name that a row can add to its section.
  predicate RowName(k: string, metadata: bool) { PlainName(k) && (metadata ==> k != "time") }

  lemma {:induction false} AddedNames(t: Target, rows: seq<Row>, metadata: bool, k: string)
    requires AddRows(t, rows, metadata).Ok?
    ensures Has(AddRows(t, rows, metadata).value.members, k) ==> Has(t.members, k) || RowName(k, metadata)
    ensures !RowName(k, metadata) ==> Lookup(AddRows(t, rows, metadata).value.members, k) == Lookup(t.members, k)
    decreases |rows|
  {
    hide ConstraintValue, Trim;
    if rows != [] {
      var name := Trim(rows[0].name);
      AddedNames(AddRow(t, rows[0], metadata).value, rows[1..], metadata, k);
      TrimIdempotent(rows[0].name);
      TrimOneLine(rows[0].name);
      LookupPut(t.members, name, ConstraintValue(rows[0], name).value, k);
    }
  }

  lemma SectionAdded(start: seq<Member>, rows: seq<Row>, metadata: bool, k: string)
    requires SectionRows(start, rows, metadata).Ok?
    ensures Has(SectionRows(start, rows, metadata).value, k) ==> Has(start, k) || RowName(k, metadata)
    ensures !RowName(k, metadata) ==> Lookup(SectionRows(start, rows, metadata).value, k) == Lookup(start, k)
  {
    AddedNames(Target(start, false), rows, metadata, k);
  }

  // With plain and distinct names and a prototype, at most one row is called "__proto__", and it
  // leaves no member.
  lemma {:induction false} PrototypeAdded(t: Target, ms: seq<Member>, metadata: bool)
    requires Unique(ms) && forall m :: m in ms ==> PlainName(m.name)
    requires PropertyRows(ms).Ok? && AddRows(t, PropertyRows(ms).value, metadata).Ok?
    requires !Has(t.members, "__proto__") && (t.bare ==> !Has(ms, "__proto__"))
    ensures !Has(AddRows(t, PropertyRows(ms).value, metadata).value.members, "__proto__")
    decreases |ms|
  {
    hide ConstraintValue, Trim, PropertyRow;
    if ms != [] {
      var m, later := ms[0], ms[1..];
      var row := PropertyRow(m.name, m.value).value;
      assert m in ms;
      PropertyRowName(m.name, m.value);
      assert PropertyRows(ms).value[1..] == PropertyRows(later).value;
      assert forall i :: 0 <= i < |later| ==> later[i] == ms[i + 1];
      assert !Has(later, m.name);
      LookupPut(t.members, m.name, ConstraintValue(row, m.name).value, "__proto__");
      PrototypeAdded(AddRow(t, row, metadata).value, later, metadata);
    }
  }

  // With canonical and distinct names, every row's constraint is found under its own name.
  lemma {:induction false} AddedValues(acc: seq<Member>, ms: seq<Member>, metadata: bool, k: string)
    requires Unique(ms) && forall m :: m in ms ==> CanonicalName(m.name)
    requires PropertyRows(ms).Ok? && AddRows(Target(acc, false), PropertyRows(ms).value, metadata).Ok?
    ensures Has(ms, k) ==> RowVisit(k, Lookup(ms, k).value, k).Ok?
    ensures Lookup(AddRows(Target(acc, false), PropertyRows(ms).value, metadata).value.members, k)
         == if Has(ms, k) then Some(RowVisit(k, Lookup(ms, k).value, k).value) else Lookup(acc, k)
    decreases |ms|
  {
    hide ConstraintValue, Trim, PropertyRow;
    if ms != [] {
      var m, later := ms[0], ms[1..];
      var row := PropertyRow(m.name, m.value).value;
      assert m in ms;
      PropertyRowName(m.name, m.value);
      var acc' := AddRow(Target(acc, false), row, metadata).value.members;
      assert PropertyRows(ms).value[1..] == PropertyRows(later).value;
      AddedValues(acc', later, metadata, k);
      LookupPut(acc, m.name, ConstraintValue(row, m.name).value, k);
      assert forall i :: 0 <= i < |later| ==> later[i] == ms[i + 1];
      assert !Has(later, m.name);
      assert Has(ms, k) <==> k == m.name || Has(later, k);
    }
  }

  // Rows that come back the same were canonical: acc holds what was there before the rows.
  lemma {:induction false} RowsConverse(acc: seq<Member>, ms: seq<Member>, metadata: bool, all: seq<Member>)
    requires WellFormed(Obj(ms)) && (forall m :: m in ms ==> Has(all, m.name) && Lookup(all, m.name) == Some(m.value))
    requires (forall m :: m in ms ==> !Has(acc, m.name)) && !Has(acc, "__proto__")
    requires PropertyRows(ms).Ok? && SectionRows(acc, PropertyRows(ms).value, metadata).Ok?
    requires Same(Obj(SectionRows(acc, PropertyRows(ms).value, metadata).value), Obj(all))
    ensures forall m :: m in ms ==> CanonicalProperty(m)
  {
    hide PropertyRows, AddRows, CanonicalConstraint, PlainName, RowVisit;
    var out := SectionRows(acc, PropertyRows(ms).value, metadata).value;
    forall m | m in ms ensures PlainName(m.name) {
      SameLookup(out, all, m.name);
      SectionAdded(acc, PropertyRows(ms).value, metadata, m.name);
    }
    PrototypeAdded(Target(acc, false), ms, metadata);
    forall m | m in ms ensures CanonicalName(m.name) {
      SameLookup(out, all, m.name);
    }
    hide CanonicalName;
    forall m | m in ms ensures CanonicalConstraint(m.value) {
      var i :| 0 <= i < |ms| && ms[i] == m;
      LookupAt(ms, i);
      SameLookup(out, all, m.name);
      AddedValues(acc, ms, metadata, m.name);
      ConstraintConverse(m.name, m.value, m.name);
    }
  }

  // ---------------------------------------------------------------- factors

  lemma {:induction false} TimeConverse(f: Factor, t: Json)
    requires WellFormed(t) && f.timeRequested
    requires TimeMembers(f).Ok? && Same(TimeMembers(f).value[0].value, t)
    ensures CanonicalTime(t)
  {
    hide FloatText, ScanNumber, Flagged, Only, NumberAt, WellFormed;
    if t.Obj? {
      TimeObjectConverse(f.timeEssential, f.maxAge, t.members);
    }
  }

  lemma {:induction false} TimeObjectConverse(essential: bool, age: NumberField, ms: seq<Member>)
    requires Flag(essential) + Bound("max_age", age) != []
    requires age != "" ==> FieldNumber(age).IsInteger() && !FieldNumber(age).neg
    requires Same(Obj(Flag(essential) + Bound("max_age", age)), Obj(ms))
    ensures CanonicalTime(Obj(ms))
  {
    hide FloatText, ScanNumber, FieldNumber, Lookup;
    var bound := Bound("max_age", age);
    LookupBound("max_age", age, "essential");
    SameEmpty(ms, Flag(essential) + bound);
    SameAsFlagged(essential, bound, ms);
    LookupBound("max_age", age, "max_age");
    forall k | Has(ms, k) ensures k in {"essential", "max_age"} { LookupBound("max_age", age, k); }
    OnlyFrom(ms, {"essential", "max_age"});
  }

  lemma LookupBound(name: string, t: NumberField, k: string)
    ensures Lookup(Bound(name, t), k) == if t != "" && k == name then Some(Num(FieldNumber(t))) else None
  {
    if t != "" { LookupOne(name, Num(FieldNumber(t)), k); }
  }

  // The parts of a factor that was built.
  lemma {:induction false} BuiltParts(f: Factor)
    requires FactorMembers(f).Ok?
    ensures Trim(f.identifier) != "" && TimeMembers(f).Ok?
    ensures SectionRows(TimeMembers(f).value, f.metadata, true).Ok? && SectionRows([], f.properties, false).Ok?
    ensures FactorMembers(f).value
         == Identifier(Trim(f.identifier))
            + Section("amr_metadata", SectionRows(TimeMembers(f).value, f.metadata, true).value)
            + Section("amr_properties", SectionRows([], f.properties, false).value)
  {
    hide Trim, TimeMembers, SectionRows;
  }

  lemma {:induction false} LookupBuilt(id: string, mm: seq<Member>, pm: seq<Member>, k: string)
    ensures Lookup(Identifier(id) + Section("amr_metadata", mm) + Section("amr_properties", pm), k)
         == if k == "amr_identifier" then Some(Obj([Member("value", Str(id))]))
            else if k == "amr_metadata" && mm != [] then Some(Obj(mm))
            else if k == "amr_properties" && pm != [] then Some(Obj(pm))
            else None
  {
    LookupConcat(Identifier(id) + Section("amr_metadata", mm), Section("amr_properties", pm), k);
    LookupConcat(Identifier(id), Section("amr_metadata", mm), k);
    LookupOne("amr_identifier", Obj([Member("value", Str(id))]), k);
    LookupSection("amr_metadata", mm, k);
    LookupSection("amr_properties", pm, k);
  }

  lemma {:induction false} IdentifierConverse(id: string, v: Json)
    requires PlainName(id) && Same(Obj([Member("value", Str(id))]), v)
    ensures CanonicalIdentifier(v)
  {
    hide PlainName, Lookup;
    var one, ms := [Member("value", Str(id))], v.members;
    SameLookup(one, ms, "value");
    LookupOne("value", Str(id), "value");
    forall k | Has(ms, k) ensures k in {"value"} {
      SameLookup(one, ms, k);
      LookupOne("value", Str(id), k);
    }
    OnlyFrom(ms, {"value"});
  }

  lemma {:induction false} MetadataConverse(f: Factor, mm: seq<Member>)
    requires WellFormed(Obj(mm)) && PropertyRows(Remove(mm, "time")).Ok?
    requires f.metadata == PropertyRows(Remove(mm, "time")).value && f.timeRequested == Has(mm, "time")
    requires f.maxAge != "" ==> f.timeRequested
    requires TimeMembers(f).Ok? && SectionRows(TimeMembers(f).value, f.metadata, true).Ok?
    requires Same(Obj(SectionRows(TimeMembers(f).value, f.metadata, true).value), Obj(mm))
    ensures forall m :: m in mm ==> CanonicalMetadatum(m)
  {
    hide PropertyRows, SectionRows, CanonicalProperty, CanonicalTime, WellFormed;
    var time, rows := TimeMembers(f).value, Remove(mm, "time");
    var out := SectionRows(time, f.metadata, true).value;
    RemoveKeeps(mm, "time");
    assert forall m :: m in time ==> m.name == "time" && f.timeRequested;
    forall m | m in rows ensures Has(mm, m.name) && Lookup(mm, m.name) == Some(m.value) {
      var i :| 0 <= i < |mm| && mm[i] == m;
      UniqueOf(mm);
      LookupAt(mm, i);
    }
    RowsConverse(time, rows, true, mm);
    if Has(mm, "time") {
      var t := Lookup(mm, "time").value;
      LookupSmaller(mm, "time");
      SameLookup(out, mm, "time");
      SectionAdded(time, f.metadata, true, "time");
      LookupOne("time", time[0].value, "time");
      TimeConverse(f, t);
    }
    forall m | m in mm ensures CanonicalMetadatum(m) {
      if m.name == "time" {
        var i :| 0 <= i < |mm| && mm[i] == m;
        UniqueOf(mm);
        LookupAt(mm, i);
      }
    }
  }

  lemma UniqueOf(ms: seq<Member>)
    requires WellFormed(Obj(ms))
    ensures Unique(ms)
  {
  }

  lemma {:induction false} PropertiesConverse(pm: seq<Member>)
    requires WellFormed(Obj(pm)) && PropertyRows(pm).Ok? && SectionRows([], PropertyRows(pm).value, false).Ok?
    requires Same(Obj(SectionRows([], PropertyRows(pm).value, false).value), Obj(pm))
    ensures forall m :: m in pm ==> CanonicalProperty(m)
  {
    hide PropertyRows, SectionRows, CanonicalProperty, WellFormed;
    forall m | m in pm ensures Has(pm, m.name) && Lookup(pm, m.name) == Some(m.value) {
      var i :| 0 <= i < |pm| && pm[i] == m;
      UniqueOf(pm);
      LookupAt(pm, i);
    }
    RowsConverse([], pm, false, pm);
  }

  // What is loaded from the metadata of an expression, when that is an object or missing.
  lemma {:induction false} LoadedSections(ms: seq<Member>, discovery: Discovery)
    requires LoadFactor(Obj(ms), discovery).Ok?
    ensures var f, mv := LoadFactor(Obj(ms), discovery).value, Lookup(ms, "amr_metadata");
            mv.Some? && mv.value.Obj? ==>
              && PropertyRows(Remove(mv.value.members, "time")).Ok?
              && f.metadata == PropertyRows(Remove(mv.value.members, "time")).value
              && f.timeRequested == Has(mv.value.members, "time")
              && (f.maxAge != "" ==> f.timeRequested)
    ensures var f, pv := LoadFactor(Obj(ms), discovery).value, Lookup(ms, "amr_properties");
            pv.Some? && pv.value.Obj? ==>
              PropertyRows(pv.value.members).Ok? && f.properties == PropertyRows(pv.value.members).value
  {
    hide PropertyRows, FloatText, DomText, Essential;
  }

  lemma {:induction false} FactorConverse(ms: seq<Member>, discovery: Discovery)
    requires WellFormed(Obj(ms)) && LoadFactor(Obj(ms), discovery).Ok?
    requires FactorMembers(LoadFactor(Obj(ms), discovery).value).Ok?
    requires Same(Obj(FactorMembers(LoadFactor(Obj(ms), discovery).value).value), Obj(ms))
    ensures CanonicalFactor(ms)
  {
    hide PropertyRows, SectionRows, TimeMembers, LoadFactor, FactorMembers, Trim, CanonicalIdentifier,
         CanonicalMetadatum, CanonicalProperty, Identifier, Section, WellFormed;
    var f := LoadFactor(Obj(ms), discovery).value;
    BuiltParts(f);
    LoadedSections(ms, discovery);
    var id := Trim(f.identifier);
    var mm, pm := SectionRows(TimeMembers(f).value, f.metadata, true).value, SectionRows([], f.properties, false).value;
    var out := FactorMembers(f).value;
    forall k | Has(ms, k) ensures k in {"amr_identifier", "amr_metadata", "amr_properties"} {
      SameLookup(out, ms, k);
      LookupBuilt(id, mm, pm, k);
    }
    OnlyFrom(ms, {"amr_identifier", "amr_metadata", "amr_properties"});
    LookupBuilt(id, mm, pm, "amr_identifier");
    SameLookup(out, ms, "amr_identifier");
    TrimIdempotent(f.identifier);
    TrimOneLine(f.identifier);
    IdentifierConverse(id, Lookup(ms, "amr_identifier").value);
    if Has(ms, "amr_metadata") {
      LookupBuilt(id, mm, pm, "amr_metadata");
      SameLookup(out, ms, "amr_metadata");
      LookupSmaller(ms, "amr_metadata");
      var v := Lookup(ms, "amr_metadata").value;
      SameEmpty(v.members, mm);
      MetadataConverse(f, v.members);
    }
    if Has(ms, "amr_properties") {
      LookupBuilt(id, mm, pm, "amr_properties");
      SameLookup(out, ms, "amr_properties");
      LookupSmaller(ms, "amr_properties");
      var v := Lookup(ms, "amr_properties").value;
      SameEmpty(v.members, pm);
      PropertiesConverse(v.members);
    }
  }

  // ---------------------------------------------------------------- expressions

  lemma {:induction false} ExpressionConverse(e: Json, discovery: Discovery)
    requires WellFormed(e) && LoadNode(e, discovery).Ok? && NodeMembers(LoadNode(e, discovery).value).Ok?
    requires Same(Obj(NodeMembers(LoadNode(e, discovery).value).value), e)
    ensures CanonicalExpression(e)
    decreases e
  {
    hide LoadFactor, FactorMembers, CanonicalFactor;
    var ms := e.members;
    if HasArray(ms, "all_of") {
      LookupSmaller(ms, "all_of");
      GroupConverse(AllOf, ms, Lookup(ms, "all_of").value.items, discovery);
    } else if HasArray(ms, "one_of") {
      LookupSmaller(ms, "one_of");
      GroupConverse(OneOf, ms, Lookup(ms, "one_of").value.items, discovery);
    } else {
      FactorConverse(ms, discovery);
    }
  }

  lemma {:induction false} GroupConverse(op: Operator, ms: seq<Member>, items: seq<Json>, discovery: Discovery)
    requires WellFormed(Arr(items)) && Lookup(ms, OperatorName(op)) == Some(Arr(items))
    requires LoadGroup(op, items, discovery).Ok? && NodeMembers(LoadGroup(op, items, discovery).value).Ok?
    requires Same(Obj(NodeMembers(LoadGroup(op, items, discovery).value).value), Obj(ms))
    ensures Only(ms, {OperatorName(op)}) && CanonicalList(items)
    decreases items, 1
  {
    hide LoadFactor, FactorMembers, CanonicalFactor, LoadNode, CanonicalExpression;
    var name := OperatorName(op);
    var n := LoadGroup(op, items, discovery).value;
    var out := NodeList(n.children).value;
    var one := [Member(name, Arr(out))];
    forall k | Has(ms, k) ensures k in {name} {
      SameLookup(one, ms, k);
      LookupOne(name, Arr(out), k);
    }
    OnlyFrom(ms, {name});
    SameLookup(one, ms, name);
    LookupOne(name, Arr(out), name);
    SameArray(out, items);
    ListConverse'(items, discovery);
  }

  lemma {:induction false} ListConverse'(items: seq<Json>, discovery: Discovery)
    requires forall i :: 0 <= i < |items| ==> WellFormed(items[i])
    requires LoadList(items, discovery).Ok? && NodeList(LoadList(items, discovery).value).Ok?
    requires var out := NodeList(LoadList(items, discovery).value).value;
             forall i :: 0 <= i < |items| ==> Same(out[i], items[i])
    ensures forall i :: 0 <= i < |items| ==> CanonicalExpression(items[i])
    decreases items, 0
  {
    hide CanonicalExpression, LoadNode, NodeMembers, Same, WellFormed;
    if items != [] {
      var ns := LoadList(items, discovery).value;
      var later := items[1..];
      assert ns[1..] == LoadList(later, discovery).value;
      var out := NodeList(ns).value;
      assert out[0] == Obj(NodeMembers(ns[0]).value);
      assert NodeList(ns[1..]).value == out[1..];
      assert forall i :: 0 <= i < |later| ==> later[i] == items[i + 1] && out[1..][i] == out[i + 1];
      ExpressionConverse(items[0], discovery);
      ListConverse'(later, discovery);
    }
  }

  // ---------------------------------------------------------------- details and claims

  lemma {:induction false} NodeNames(n: Node)
    requires NodeMembers(n).Ok?
    ensures ExpressionNames(NodeMembers(n).value)
  {
    hide TimeMembers, SectionRows, Trim;
    if n.Leaf? {
      BuiltParts(n.factor);
      FactorNames(Trim(n.factor.identifier), SectionRows(TimeMembers(n.factor).value, n.factor.metadata, true).value,
                  SectionRows([], n.factor.properties, false).value);
    }
  }

  // The members that a form without a root, or with one, adds to the flag.
  function RootMembers(form: Form): seq<Member>
    requires |form.roots| <= 1 && Details(form).Ok?
  {
    if form.roots == [] then [] else NodeMembers(form.roots[0]).value
  }

  lemma {:induction false} DetailsShape(form: Form)
    requires |form.roots| <= 1 && Details(form).Ok?
    ensures Details(form).value == Flag(form.claimEssential) + RootMembers(form)
    ensures !Has(RootMembers(form), "essential") && (form.roots != [] ==> RootMembers(form) != [])
  {
    hide NodeMembers;
    if form.roots != [] {
      NodeNames(form.roots[0]);
      MergedWithFlag(form.claimEssential, RootMembers(form));
      OnlyExcludes(RootMembers(form), {"all_of", "one_of", "amr_identifier", "amr_metadata", "amr_properties"},
                   "essential");
    } else {
      assert Flag(form.claimEssential) + [] == Flag(form.claimEssential);
    }
  }

  lemma {:induction false} SameRest(essential: bool, body: seq<Member>, ms: seq<Member>)
    requires Same(Obj(Flag(essential) + body), Obj(ms)) && !Has(body, "essential")
    ensures Flagged(ms) && Same(Obj(body), Obj(Remove(ms, "essential")))
  {
    var rest := Remove(ms, "essential");
    SameAsFlagged(essential, body, ms);
    forall k
      ensures Has(body, k) <==> Has(rest, k)
      ensures Has(body, k) ==> Same(Lookup(body, k).value, Lookup(rest, k).value)
    {
      LookupRemove(ms, "essential", k);
    }
    SameMembers(body, rest);
  }

  // Details that were loaded, built and came back the same.
  lemma {:induction false} DetailsConverse(d: Json, form: Form, discovery: Discovery)
    requires WellFormed(d) && d.Obj? && LoadRoots(d, discovery).Ok?
    requires form.roots == LoadRoots(d, discovery).value && form.claimEssential == Essential(d)
    requires Details(form).Ok? && Details(form).value != []
    requires Same(Obj(Details(form).value), d)
    ensures CanonicalDetails(d)
  {
    hide CanonicalExpression, LoadNode, NodeMembers, Essential, WellFormed, Details, HasExpression, Flagged;
    var ms := d.members;
    var rest := Remove(ms, "essential");
    RemoveKeeps(ms, "essential");
    LoadIgnoresFlag(ms, discovery);
    DetailsShape(form);
    SameRest(form.claimEssential, RootMembers(form), ms);
    SameEmpty(ms, Details(form).value);
    if rest != [] {
      SameEmpty(RootMembers(form), rest);
      RootOnly(form);
      ExpressionConverse(Obj(rest), discovery);
    }
  }

  lemma RootOnly(form: Form)
    requires |form.roots| == 1 && Details(form).Ok?
    ensures NodeMembers(form.roots[0]).Ok?
  {
  }

  lemma {:induction false} LocationConverse(v: Json, d: Json, out: Json)
    requires Same(Obj([Member("amr_details", out)]), v) && Same(out, d)
    ensures CanonicalLocation(v, d)
  {
    var one, ms := [Member("amr_details", out)], v.members;
    SameLookup(one, ms, "amr_details");
    LookupOne("amr_details", out, "amr_details");
    forall k | Has(ms, k) ensures k in {"amr_details"} {
      SameLookup(one, ms, k);
      LookupOne("amr_details", out, k);
    }
    OnlyFrom(ms, {"amr_details"});
  }

  // The claims come back from a visit to the form as the same JSON.
  predicate Returns(form: Form, c: Json, discovery: Discovery) {
    Visit(form, c, discovery).Ok? && Same(Visit(form, c, discovery).value, c)
  }

  // The details that the form of a successful load is built into.
  function BuiltDetails(form: Form): Json
    requires Details(form).Ok?
  {
    if Details(form).value == [] then Null else Obj(Details(form).value)
  }

  lemma {:induction false} ClaimsConverse(form: Form, c: Json, discovery: Discovery)
    requires WellFormed(c) && Returns(form, c, discovery)
    ensures CanonicalClaims(c)
  {
    hide CanonicalDetails, CanonicalLocation, Details, LoadRoots, Essential, WellFormed;
    var inToken, inUser := Requests(c.members, "id_token"), Requests(c.members, "userinfo");
    var loaded := LoadClaims(form, c, discovery).form;
    var out := BuiltDetails(loaded);
    var built := Claims(inToken, inUser, out).members;
    assert Visit(form, c, discovery).value == Obj(built);
    forall k | Has(c.members, k) ensures k in {"id_token", "userinfo"} {
      SameLookup(built, c.members, k);
      LookupClaims(inToken, inUser, out, k);
    }
    OnlyFrom(c.members, {"id_token", "userinfo"});
    LookupClaims(inToken, inUser, out, "id_token");
    LookupClaims(inToken, inUser, out, "userinfo");
    SameLookup(built, c.members, "id_token");
    SameLookup(built, c.members, "userinfo");
    var d := DetailsOf(c);
    SameDetailsAt(c, out, if inToken then "id_token" else "userinfo");
    if inToken { LocationConverse(Lookup(c.members, "id_token").value, d, out); }
    if inUser { LocationConverse(Lookup(c.members, "userinfo").value, d, out); }
    WellFormedDetails(c);
    LoadedDetailsConverse(form, c, discovery);
  }

  lemma SameDetailsAt(c: Json, out: Json, location: string)
    requires c.Obj? && Requests(c.members, location)
    requires Same(Obj([Member("amr_details", out)]), Lookup(c.members, location).value)
    ensures Same(out, DetailsAt(c.members, location))
  {
    SameLookup([Member("amr_details", out)], Lookup(c.members, location).value.members, "amr_details");
    LookupOne("amr_details", out, "amr_details");
  }

  lemma {:induction false} LoadedDetailsConverse(form: Form, c: Json, discovery: Discovery)
    requires c.Obj? && (Requests(c.members, "id_token") || Requests(c.members, "userinfo"))
    requires WellFormed(DetailsOf(c)) && LoadClaims(form, c, discovery).error.None?
    requires Details(LoadClaims(form, c, discovery).form).Ok?
    requires Same(BuiltDetails(LoadClaims(form, c, discovery).form), DetailsOf(c))
    ensures CanonicalDetails(DetailsOf(c))
  {
    hide LoadRoots, Essential, CanonicalExpression;
    var d := DetailsOf(c);
    if d.Obj? {
      DetailsConverse(d, LoadClaims(form, c, discovery).form, discovery);
    }
  }

  // A visit to the builder returns a claims object unchanged if and only if it is canonical and its
  // rows can be shown, whatever the form held before and whatever the issuer advertises.
  lemma {:induction false} ReturnsExactlyCanonical(form: Form, c: Json, discovery: Discovery)
    requires WellFormed(c)
    ensures Returns(form, c, discovery) <==> CanonicalClaims(c) && ClaimsShown(c, discovery)
  {
    hide Visit, CanonicalDetails, CanonicalLocation, Same, WellFormed, ClaimsShown;
    if CanonicalClaims(c) { CanonicalClaimsReturn(form, c, discovery); }
    if Returns(form, c, discovery) { ClaimsConverse(form, c, discovery); }
  }
}
