// Whatever the form builds is canonical but for its scalars and for members called "__proto__", so
// building, loading and building again gives the same claims exactly when the built scalars are
// stable, no section has such a member and every row can be shown.
module Fixpoint {
  import opened Wrappers
  import opened Decimals
  import opened Json
  import opened JsonText
  import opened TextFields
  import opened Scalars
  import opened ClaimsForm
  import opened Canonical
  import opened Suggestions
  import opened Arrangement
  import opened LoadThenBuild
  import opened Converse
  import opened ExactDomain

  // ---------------------------------------------------------------- stable scalars

  predicate StableConstraint(c: Json) {
    c.Obj? ==>
      if Has(c.members, "value") then Stable(Lookup(c.members, "value").value)
      else HasArray(c.members, "values") ==> StableList(Lookup(c.members, "values").value.items)
  }

  // No member is called "__proto__" and every scalar survives its text form.
  predicate StableSection(ms: seq<Member>) {
    forall m :: m in ms ==> m.name != "__proto__" && StableConstraint(m.value)
  }

  // The same for every section under the expression.
  predicate StableExpression(e: Json)
    decreases e
  {
    e.Obj? ==>
      if HasArray(e.members, "all_of") then
        LookupSmaller(e.members, "all_of");
        StableItems(Lookup(e.members, "all_of").value.items)
      else if HasArray(e.members, "one_of") then
        LookupSmaller(e.members, "one_of");
        StableItems(Lookup(e.members, "one_of").value.items)
      else StableSection(SectionOf(e.members, "amr_metadata")) && StableSection(SectionOf(e.members, "amr_properties"))
  }

  predicate StableItems(items: seq<Json>)
    decreases items
  {
    forall i :: 0 <= i < |items| ==> StableExpression(items[i])
  }

  predicate StableDetails(d: Json) { d.Obj? ==> StableExpression(Obj(Remove(d.members, "essential"))) }

  // ---------------------------------------------------------------- constraints

  // A built value: well formed, in the builder's order, and canonical once its scalars are stable.
  predicate BuiltConstraint(c: Json) {
    WellFormed(c) && ArrangeConstraint(c) == c && (CanonicalConstraint(c) <==> StableConstraint(c))
  }

  lemma {:induction false} FlaggedPicks(essential: bool, ms: seq<Member>, name: string)
    requires !Has(ms, "essential")
    ensures Pick(Flag(essential) + ms, name) == if name == "essential" then Flag(essential) else Pick(ms, name)
  {
    FlagLookup(essential, ms, name);
    FlagLookup(essential, ms, "essential");
  }

  lemma {:induction false} FlaggedOnly(essential: bool, ms: seq<Member>, names: set<string>)
    requires Only(ms, names) && "essential" in names && !Has(ms, "essential")
    ensures Only(Flag(essential) + ms, names) && Flagged(Flag(essential) + ms)
    ensures Unique(ms) ==> Unique(Flag(essential) + ms)
  {
    FlagLookup(essential, ms, "essential");
    assert forall i :: 0 <= i < |ms| ==> ms[i].name != "essential";
  }

  // One scalar member after the flag.
  lemma {:induction false} BuiltOne(essential: bool, name: string, v: Json)
    requires name == "value" || name == "values"
    requires WellFormed(v) && (name == "values" ==> v.Arr?)
    ensures BuiltConstraint(Obj(Flag(essential) + [Member(name, v)]))
  {
    hide Stable, StableList;
    var one := [Member(name, v)];
    var ms := Flag(essential) + one;
    LookupOne(name, v, "essential");
    FlaggedOnly(essential, one, {"essential", name});
    FlagLookup(essential, one, "value");
    FlagLookup(essential, one, "values");
    LookupOne(name, v, "value");
    LookupOne(name, v, "values");
    PickOne(essential, name, v, "value");
    PickOne(essential, name, v, "values");
    PickOne(essential, name, v, "min");
    PickOne(essential, name, v, "max");
    FlaggedPicks(essential, one, "essential");
    EmptyParts(Flag(essential), one, []);
    assert WellFormed(Obj(ms));
    assert ArrangeConstraint(Obj(ms)) == Obj(ms);
    assert CanonicalConstraint(Obj(ms)) <==> StableConstraint(Obj(ms));
  }

  lemma PickOne(essential: bool, name: string, v: Json, k: string)
    requires name != "essential" && k != "essential"
    ensures Pick(Flag(essential) + [Member(name, v)], k) == if k == name then [Member(name, v)] else []
  {
    LookupOne(name, v, "essential");
    LookupOne(name, v, k);
    FlaggedPicks(essential, [Member(name, v)], k);
  }

  lemma {:induction false} RangeMembers(essential: bool, low: NumberField, high: NumberField)
    ensures var ms := Flag(essential) + (Bound("min", low) + Bound("max", high));
            && WellFormed(Obj(ms)) && Only(ms, {"essential", "min", "max"}) && Flagged(ms)
  {
    hide ScanNumber, Lookup;
    var bounds := Bound("min", low) + Bound("max", high);
    LookupBounds(low, high, "essential");
    FlaggedOnly(essential, bounds, {"essential", "min", "max"});
  }

  lemma {:induction false} RangeLookups(essential: bool, low: NumberField, high: NumberField)
    ensures var ms := Flag(essential) + (Bound("min", low) + Bound("max", high));
            Lookup(ms, "value").None? && Lookup(ms, "values").None? && NumberAt(ms, "min") && NumberAt(ms, "max")
  {
    hide ScanNumber, Lookup, Flag, Bound;
    var bounds := Bound("min", low) + Bound("max", high);
    FlagLookup(essential, bounds, "min");
    FlagLookup(essential, bounds, "max");
    FlagLookup(essential, bounds, "value");
    FlagLookup(essential, bounds, "values");
    LookupBounds(low, high, "min");
    LookupBounds(low, high, "max");
    LookupBounds(low, high, "value");
    LookupBounds(low, high, "values");
  }

  lemma {:induction false} RangePicks(essential: bool, low: NumberField, high: NumberField, name: string)
    ensures Pick(Flag(essential) + (Bound("min", low) + Bound("max", high)), name)
         == if name == "essential" then Flag(essential) else if name == "min" then Bound("min", low)
            else if name == "max" then Bound("max", high) else []
  {
    hide ScanNumber;
    LookupBounds(low, high, "essential");
    LookupBounds(low, high, name);
    FlaggedPicks(essential, Bound("min", low) + Bound("max", high), name);
  }

  lemma {:induction false} BuiltRange(essential: bool, low: NumberField, high: NumberField)
    ensures BuiltConstraint(Obj(Flag(essential) + (Bound("min", low) + Bound("max", high))))
  {
    hide Stable, StableList, ScanNumber, Bound, Flag, Pick, WellFormed, NumberAt, Only, Flagged, Lookup;
    RangeMembers(essential, low, high);
    RangeLookups(essential, low, high);
    RangePicks(essential, low, high, "essential");
    RangePicks(essential, low, high, "value");
    RangePicks(essential, low, high, "values");
    RangePicks(essential, low, high, "min");
    RangePicks(essential, low, high, "max");
    EmptyParts(Flag(essential), Bound("min", low), Bound("max", high));
    assert Flag(essential) + Bound("min", low) + Bound("max", high)
        == Flag(essential) + (Bound("min", low) + Bound("max", high));
  }

  lemma {:induction false} ConstraintBuilt(row: Row, name: string)
    requires ConstraintValue(row, name).Ok?
    ensures BuiltConstraint(ConstraintValue(row, name).value)
  {
    hide ScanNumber, BuiltConstraint, Stable, StableList, Parse, Tokens, Trim, WellFormed;
    match row.mode {
      case Requested => NullBuilt();
      case Exact =>
        ParsedWellFormed(row.value);
        BuiltOne(row.essential, "value", ParseScalar(row.value).value);
      case OneOfThese =>
        ParsedListWellFormed(row.value);
        BuiltOne(row.essential, "values", Arr(ParseList(row.value).value));
      case Range =>
        BuiltRange(row.essential, row.min, row.max);
        assert Flag(row.essential) + (Bound("min", row.min) + Bound("max", row.max))
            == Flag(row.essential) + Bound("min", row.min) + Bound("max", row.max);
      case Presence =>
        BuiltRange(row.essential, "", "");
        assert Flag(row.essential) + ([] + []) == Flag(row.essential);
    }
  }

  lemma NullBuilt()
    ensures BuiltConstraint(Null)
  {
  }

  lemma ParsedWellFormed(text: string)
    ensures WellFormed(ParseText(text))
  {
    hide ParseValue;
  }

  lemma ParsedListWellFormed(text: string)
    requires ParseList(text).Some?
    ensures WellFormed(Arr(ParseList(text).value))
  {
    hide ParseText, Tokens;
    var ts := Tokens(text);
    forall i | 0 <= i < |ts| ensures WellFormed(ParseText(ts[i])) { ParsedWellFormed(ts[i]); }
  }

  // ---------------------------------------------------------------- sections

  predicate BuiltMember(m: Member, metadata: bool) {
    if metadata && m.name == "time" then
      WellFormed(m.value) && CanonicalTime(m.value) && ArrangeTime(m.value) == m.value && StableConstraint(m.value)
    else PlainName(m.name) && BuiltConstraint(m.value)
  }

  // A section as the rows leave it: built members, distinct, the time first.
  predicate BuiltSection(ms: seq<Member>, metadata: bool) {
    && Unique(ms) && (forall m :: m in ms ==> BuiltMember(m, metadata))
    && (metadata && Has(ms, "time") ==> ms[0].name == "time")
  }

  lemma {:induction false} PutMembers(ms: seq<Member>, name: string, v: Json)
    ensures forall m :: m in Put(ms, name, v) ==> m in ms || m == Member(name, v)
    ensures ms != [] ==> Put(ms, name, v) != [] && Put(ms, name, v)[0].name == ms[0].name
  {
    if ms != [] && ms[0].name != name { PutMembers(ms[1..], name, v); }
  }

  lemma {:induction false} RowsBuilt(t: Target, rows: seq<Row>, metadata: bool)
    requires BuiltSection(t.members, metadata) && AddRows(t, rows, metadata).Ok?
    ensures BuiltSection(AddRows(t, rows, metadata).value.members, metadata)
    decreases |rows|
  {
    hide BuiltMember, ConstraintValue, Trim;
    if rows != [] {
      RowBuilt(t, rows[0], metadata);
      RowsBuilt(AddRow(t, rows[0], metadata).value, rows[1..], metadata);
    }
  }

  lemma {:induction false} RowBuilt(t: Target, row: Row, metadata: bool)
    requires BuiltSection(t.members, metadata) && AddRow(t, row, metadata).Ok?
    ensures BuiltSection(AddRow(t, row, metadata).value.members, metadata)
  {
    hide BuiltConstraint, ConstraintValue, Trim;
    var name := Trim(row.name);
    var v := ConstraintValue(row, name).value;
    ConstraintBuilt(row, name);
    TrimIdempotent(row.name);
    TrimOneLine(row.name);
    PutUnique(t.members, name, v);
    PutMembers(t.members, name, v);
    LookupPut(t.members, name, v, "time");
  }

  lemma SectionBuilt(start: seq<Member>, rows: seq<Row>, metadata: bool)
    requires BuiltSection(start, metadata) && SectionRows(start, rows, metadata).Ok?
    ensures BuiltSection(SectionRows(start, rows, metadata).value, metadata)
  {
    hide BuiltSection;
    RowsBuilt(Target(start, false), rows, metadata);
  }

  lemma {:induction false} TimeBuilt(f: Factor)
    requires TimeMembers(f).Ok?
    ensures BuiltSection(TimeMembers(f).value, true)
  {
    hide ScanNumber, StableList, Stable;
    var ms := TimeMembers(f).value;
    if ms != [] {
      TimeValueBuilt(f.timeEssential, f.maxAge);
    }
  }

  lemma {:induction false} TimeValueBuilt(essential: bool, age: NumberField)
    requires age != "" ==> FieldNumber(age).IsInteger() && !FieldNumber(age).neg
    ensures var time := Flag(essential) + Bound("max_age", age);
            BuiltMember(Member("time", if time == [] then Null else Obj(time)), true)
  {
    hide ScanNumber, StableList, Stable;
    var bound := Bound("max_age", age);
    var ms := Flag(essential) + bound;
    assert !Has(bound, "essential");
    FlaggedOnly(essential, bound, {"essential", "max_age"});
    FlagLookup(essential, bound, "max_age");
    FlagLookup(essential, bound, "value");
    FlagLookup(essential, bound, "values");
    if age != "" { LookupOne("max_age", Num(FieldNumber(age)), "max_age"); }
    FlaggedPicks(essential, bound, "essential");
    FlaggedPicks(essential, bound, "max_age");
    if ms != [] {
      assert WellFormed(Obj(ms));
      assert ArrangeTime(Obj(ms)) == Obj(ms);
      assert CanonicalTime(Obj(ms));
      assert StableConstraint(Obj(ms));
    }
  }

  lemma {:induction false} SectionWellFormed(ms: seq<Member>, metadata: bool)
    requires BuiltSection(ms, metadata)
    ensures WellFormed(Obj(ms))
  {
    forall i | 0 <= i < |ms| ensures WellFormed(ms[i].value) { assert ms[i] in ms; }
  }

  lemma {:induction false} RowsArranged(ms: seq<Member>)
    requires forall m :: m in ms ==> ArrangeConstraint(m.value) == m.value
    ensures ArrangeRows(ms) == ms
  {
    forall i | 0 <= i < |ms| ensures ArrangeRows(ms)[i] == ms[i] { assert ms[i] in ms; }
  }

  lemma {:induction false} MetadataBuilt(ms: seq<Member>)
    requires BuiltSection(ms, true)
    ensures ArrangeMetadata(ms) == ms
    ensures (forall m :: m in ms ==> CanonicalMetadatum(m)) <==> StableSection(ms)
  {
    MetadataArranged(ms);
    hide CanonicalConstraint, StableConstraint, ArrangeConstraint, ArrangeTime, ArrangeMetadata, WellFormed;
    forall m | m in ms
      ensures CanonicalMetadatum(m) <==> m.name != "__proto__" && StableConstraint(m.value)
    {
      assert BuiltMember(m, true);
    }
  }

  lemma {:induction false} MetadataArranged(ms: seq<Member>)
    requires BuiltSection(ms, true)
    ensures ArrangeMetadata(ms) == ms
  {
    hide CanonicalConstraint, StableConstraint, ArrangeConstraint, ArrangeTime, WellFormed;
    RemoveKeeps(ms, "time");
    RowsArranged(Remove(ms, "time"));
    if Has(ms, "time") {
      var later := ms[1..];
      assert ms[0] in ms && ms == [ms[0]] + later;
      assert forall i :: 0 <= i < |later| ==> later[i] == ms[i + 1];
      RemoveAbsent(later, "time");
      assert Lookup(ms, "time") == Some(ms[0].value);
    } else {
      RemoveAbsent(ms, "time");
    }
  }

  lemma {:induction false} PropertiesBuilt(ms: seq<Member>)
    requires BuiltSection(ms, false)
    ensures ArrangeRows(ms) == ms
    ensures (forall m :: m in ms ==> CanonicalProperty(m)) <==> StableSection(ms)
  {
    hide CanonicalConstraint, StableConstraint, ArrangeConstraint, WellFormed;
    forall m | m in ms
      ensures ArrangeConstraint(m.value) == m.value
      ensures CanonicalProperty(m) <==> m.name != "__proto__" && StableConstraint(m.value)
    {
      assert BuiltMember(m, false);
    }
    RowsArranged(ms);
  }

  // ---------------------------------------------------------------- expressions

  // A built object: well formed, in the builder's order, canonical exactly when it is stable.
  predicate BuiltExpression(ms: seq<Member>) {
    && WellFormed(Obj(ms)) && ArrangeExpression(Obj(ms)) == ms
    && (CanonicalExpression(Obj(ms)) <==> StableExpression(Obj(ms)))
  }

  lemma {:induction false} SectionsFound(id: string, mm: seq<Member>, pm: seq<Member>)
    ensures var ms := Identifier(id) + Section("amr_metadata", mm) + Section("amr_properties", pm);
            && Lookup(ms, "amr_identifier") == Some(Obj([Member("value", Str(id))]))
            && Lookup(ms, "amr_metadata") == (if mm == [] then None else Some(Obj(mm)))
            && Lookup(ms, "amr_properties") == (if pm == [] then None else Some(Obj(pm)))
            && !Has(ms, "all_of") && !Has(ms, "one_of")
  {
    hide Lookup, Identifier, Section;
    LookupBuilt(id, mm, pm, "amr_identifier");
    LookupBuilt(id, mm, pm, "amr_metadata");
    LookupBuilt(id, mm, pm, "amr_properties");
    LookupBuilt(id, mm, pm, "all_of");
    LookupBuilt(id, mm, pm, "one_of");
  }

  lemma {:induction false} FoundAre(ms: seq<Member>, id: string, mm: seq<Member>, pm: seq<Member>)
    requires Lookup(ms, "amr_identifier") == Some(Obj([Member("value", Str(id))]))
    requires Lookup(ms, "amr_metadata") == if mm == [] then None else Some(Obj(mm))
    requires Lookup(ms, "amr_properties") == if pm == [] then None else Some(Obj(pm))
    ensures IdentifierOf(ms) == id && SectionOf(ms, "amr_metadata") == mm && SectionOf(ms, "amr_properties") == pm
    ensures PlainName(id) ==> CanonicalIdentifier(Lookup(ms, "amr_identifier").value)
  {
    hide PlainName;
    LookupOne("value", Str(id), "value");
  }

  lemma {:induction false} SectionNames(id: string, mm: seq<Member>, pm: seq<Member>)
    ensures var ms := Identifier(id) + Section("amr_metadata", mm) + Section("amr_properties", pm);
            Only(ms, {"amr_identifier", "amr_metadata", "amr_properties"})
  {
  }

  lemma {:induction false} SectionsBuilt(id: string, mm: seq<Member>, pm: seq<Member>)
    requires PlainName(id) && BuiltSection(mm, true) && BuiltSection(pm, false)
    ensures BuiltExpression(Identifier(id) + Section("amr_metadata", mm) + Section("amr_properties", pm))
  {
    hide ArrangeMetadata, ArrangeRows, BuiltSection, CanonicalMetadatum, CanonicalProperty, StableSection, PlainName,
         Lookup, SectionOf, IdentifierOf, WellFormed, Identifier, Section, CanonicalIdentifier, CanonicalFactor;
    var ms := Identifier(id) + Section("amr_metadata", mm) + Section("amr_properties", pm);
    SectionsFound(id, mm, pm);
    FoundAre(ms, id, mm, pm);
    SectionNames(id, mm, pm);
    FactorWellFormed(id, mm, pm);
    MetadataBuilt(mm);
    PropertiesBuilt(pm);
    BuiltCanonicalFactor(ms, mm, pm);
  }

  lemma {:induction false} FactorWellFormed(id: string, mm: seq<Member>, pm: seq<Member>)
    requires BuiltSection(mm, true) && BuiltSection(pm, false)
    ensures WellFormed(Obj(Identifier(id) + Section("amr_metadata", mm) + Section("amr_properties", pm)))
  {
    hide BuiltSection;
    SectionWellFormed(mm, true);
    SectionWellFormed(pm, false);
    FactorNames(id, mm, pm);
    var ms := Identifier(id) + Section("amr_metadata", mm) + Section("amr_properties", pm);
    assert WellFormed(Obj([Member("value", Str(id))]));
    forall i | 0 <= i < |ms| ensures WellFormed(ms[i].value) {
      assert ms[i] in ms;
      assert ms[i].value in {Obj([Member("value", Str(id))]), Obj(mm), Obj(pm)};
    }
  }

  lemma {:induction false} BuiltCanonicalFactor(ms: seq<Member>, mm: seq<Member>, pm: seq<Member>)
    requires Only(ms, {"amr_identifier", "amr_metadata", "amr_properties"})
    requires Has(ms, "amr_identifier") && CanonicalIdentifier(Lookup(ms, "amr_identifier").value)
    requires Lookup(ms, "amr_metadata") == if mm == [] then None else Some(Obj(mm))
    requires Lookup(ms, "amr_properties") == if pm == [] then None else Some(Obj(pm))
    ensures CanonicalFactor(ms)
       <==> (forall m :: m in mm ==> CanonicalMetadatum(m)) && (forall m :: m in pm ==> CanonicalProperty(m))
  {
    hide CanonicalMetadatum, CanonicalProperty, CanonicalIdentifier;
  }

  lemma {:induction false} FactorBuilt(f: Factor)
    requires FactorMembers(f).Ok?
    ensures BuiltExpression(FactorMembers(f).value)
  {
    hide BuiltExpression, BuiltSection, SectionRows, TimeMembers, Trim, FactorMembers;
    BuiltParts(f);
    TrimIdempotent(f.identifier);
    TrimOneLine(f.identifier);
    TimeBuilt(f);
    SectionBuilt(TimeMembers(f).value, f.metadata, true);
    EmptyBuilt();
    SectionBuilt([], f.properties, false);
    SectionsBuilt(Trim(f.identifier), SectionRows(TimeMembers(f).value, f.metadata, true).value,
                  SectionRows([], f.properties, false).value);
  }

  lemma EmptyBuilt()
    ensures BuiltSection([], false)
  {
  }

  predicate BuiltItems(items: seq<Json>) {
    forall i :: 0 <= i < |items| ==> items[i].Obj? && BuiltExpression(items[i].members)
  }

  lemma {:induction false} ItemsArranged(items: seq<Json>)
    requires BuiltItems(items)
    ensures ArrangeList(items) == items
  {
    hide ArrangeExpression, CanonicalExpression, StableExpression, WellFormed;
    if items != [] { ItemsArranged(items[1..]); }
  }

  lemma {:induction false} GroupBuilt(op: Operator, items: seq<Json>)
    requires items != [] && BuiltItems(items)
    ensures BuiltExpression([Member(OperatorName(op), Arr(items))])
  {
    var name := OperatorName(op);
    var ms := [Member(name, Arr(items))];
    ItemsArranged(items);
    LookupOne(name, Arr(items), "all_of");
    LookupOne(name, Arr(items), "one_of");
    assert forall i :: 0 <= i < |items| ==> BuiltExpression(items[i].members);
  }

  // Every node of a form is built into an expression that is canonical exactly when it is stable.
  lemma {:induction false} NodeBuilt(n: Node)
    requires NodeMembers(n).Ok?
    ensures BuiltExpression(NodeMembers(n).value)
    decreases n
  {
    hide BuiltExpression, FactorMembers;
    match n {
      case Leaf(f) => FactorBuilt(f);
      case Group(op, children) =>
        NodesBuilt(children);
        GroupBuilt(op, NodeList(children).value);
    }
  }

  lemma {:induction false} NodesBuilt(ns: seq<Node>)
    requires NodeList(ns).Ok?
    ensures BuiltItems(NodeList(ns).value)
    decreases ns
  {
    hide BuiltExpression;
    if ns != [] {
      NodeBuilt(ns[0]);
      NodesBuilt(ns[1..]);
    }
  }

  // ---------------------------------------------------------------- claims

  // The expression part of the details of a form, without the flag.
  function ExpressionPart(form: Form): seq<Member>
    requires Details(form).Ok?
  {
    if form.roots == [] then []
    else if |form.roots| == 1 then NodeMembers(form.roots[0]).value
    else [Member(OperatorName(form.rootOperator), Arr(NodeList(form.roots).value))]
  }

  lemma {:induction false} DetailsBuilt(form: Form)
    requires Details(form).Ok?
    ensures Details(form).value == Flag(form.claimEssential) + ExpressionPart(form)
    ensures !Has(ExpressionPart(form), "essential") && Unique(Details(form).value)
    ensures ExpressionPart(form) == [] || BuiltExpression(ExpressionPart(form))
  {
    hide NodeMembers, BuiltExpression;
    if |form.roots| == 0 {
      assert Flag(form.claimEssential) + [] == Flag(form.claimEssential);
    } else if |form.roots| == 1 {
      DetailsShape(form);
      NodeNames(form.roots[0]);
      MergedWithFlag(form.claimEssential, ExpressionPart(form));
      NodeBuilt(form.roots[0]);
    } else {
      NodesBuilt(form.roots);
      GroupBuilt(form.rootOperator, NodeList(form.roots).value);
      PutNew(Flag(form.claimEssential), OperatorName(form.rootOperator), Arr(NodeList(form.roots).value));
    }
  }

  lemma {:induction false} RemoveFlag(essential: bool, ms: seq<Member>)
    requires !Has(ms, "essential")
    ensures Remove(Flag(essential) + ms, "essential") == ms
  {
    RemoveAbsent(ms, "essential");
    if essential { assert (Flag(essential) + ms)[1..] == ms; } else { assert Flag(essential) + ms == ms; }
  }

  lemma {:induction false} FlaggedBuilt(essential: bool, ms: seq<Member>)
    requires !Has(ms, "essential") && Flag(essential) + ms != [] && Unique(Flag(essential) + ms)
    requires ms == [] || BuiltExpression(ms)
    ensures var d := Obj(Flag(essential) + ms);
            && WellFormed(d) && ArrangeDetails(d) == d && (CanonicalDetails(d) <==> StableDetails(d))
  {
    hide ArrangeExpression, CanonicalExpression;
    RemoveFlag(essential, ms);
    FlagLookup(essential, ms, "essential");
    FlaggedPicks(essential, ms, "essential");
    assert ms == [] ==> WellFormed(Obj(ms));
  }

  lemma {:induction false} ClaimsBuilt(form: Form, d: Json)
    requires form.idToken || form.userinfo
    requires WellFormed(d) && ArrangeDetails(d) == d && (CanonicalDetails(d) <==> StableDetails(d))
    ensures var c := Claims(form.idToken, form.userinfo, d);
            && WellFormed(c) && (Requests(c.members, "id_token") || Requests(c.members, "userinfo"))
            && DetailsOf(c) == d && ArrangeClaims(c) == c
            && (CanonicalClaims(c) <==> StableDetails(d))
  {
    hide CanonicalDetails, StableDetails, ArrangeDetails;
    var c := Claims(form.idToken, form.userinfo, d);
    LookupClaims(form.idToken, form.userinfo, d, "id_token");
    LookupClaims(form.idToken, form.userinfo, d, "userinfo");
    LookupOne("amr_details", d, "amr_details");
  }

  // The claims of a form with a delivery: well formed, in order, canonical exactly when stable.
  lemma {:induction false} BuiltClaims(form: Form)
    requires (form.idToken || form.userinfo) && BuildClaims(form).Ok?
    ensures var c := BuildClaims(form).value;
            && WellFormed(c) && c.Obj? && (Requests(c.members, "id_token") || Requests(c.members, "userinfo"))
            && ArrangeClaims(c) == c && (CanonicalClaims(c) <==> StableDetails(DetailsOf(c)))
  {
    hide WellFormed, ArrangeDetails, CanonicalDetails, StableDetails, BuiltExpression, Details, CanonicalClaims,
         ArrangeClaims;
    DetailsBuilt(form);
    if Details(form).value != [] {
      FlaggedBuilt(form.claimEssential, ExpressionPart(form));
    } else {
      NullDetails();
    }
    ClaimsBuilt(form, BuiltDetails(form));
  }

  lemma NullDetails()
    ensures WellFormed(Null) && ArrangeDetails(Null) == Null && CanonicalDetails(Null) && StableDetails(Null)
  {
  }

  // Claims in which every scalar survives its text form and no section has a member "__proto__".
  predicate StableClaims(c: Json) {
    && c.Obj? && (Requests(c.members, "id_token") || Requests(c.members, "userinfo"))
    && StableDetails(DetailsOf(c))
  }

  // Build, load, build: for any form that builds, whatever form it is loaded into, the second
  // build gives exactly the first one's JSON if and only if that JSON is stable and its rows can be
  // shown.
  lemma {:induction false} BuildLoadBuild(form: Form, other: Form, discovery: Discovery)
    requires (form.idToken || form.userinfo) && BuildClaims(form).Ok?
    ensures var c := BuildClaims(form).value;
            Visit(other, c, discovery) == Ok(c) <==> StableClaims(c) && ClaimsShown(c, discovery)
  {
    hide BuildClaims, StableDetails, CanonicalClaims, ArrangeClaims, Visit, WellFormed, ClaimsShown;
    var c := BuildClaims(form).value;
    BuiltClaims(form);
    if StableClaims(c) { CanonicalClaimsReturn(other, c, discovery); }
    if Visit(other, c, discovery) == Ok(c) {
      ClaimsConverse(other, c, discovery);
      CanonicalClaimsReturn(other, c, discovery);
    }
  }

  // The same on the text area: applying the builder, loading its text and applying it again
  // leaves the text as it was, if and only if the claims in it are stable and can be shown.
  lemma {:induction false} TextFixpoint(form: Form, other: Form, discovery: Discovery)
    requires BuiltText(form).Ok?
    ensures var again := LoadText(other, BuiltText(form).value, discovery);
            again.error.None? && BuiltText(again.form) == BuiltText(form) <==>
              StableClaims(BuildClaims(form).value) && ClaimsShown(BuildClaims(form).value, discovery)
  {
    hide BuildClaims, StableClaims, ClaimsShown, Print, Parse, LoadClaims;
    var c := BuildClaims(form).value;
    BuiltClaims(form);
    BuildLoadBuild(form, other, discovery);
    TextRoundTrip(c, "  ");
    var again := LoadClaims(other, c, discovery);
    if again.error.None? { DeliveriesKept(other, c, discovery); }
    if again.error.None? && BuiltText(again.form) == BuiltText(form) {
      BuiltClaims(again.form);
      TextRoundTrip(BuildClaims(again.form).value, "  ");
    }
  }

  lemma {:induction false} DeliveriesKept(other: Form, c: Json, discovery: Discovery)
    requires LoadClaims(other, c, discovery).error.None?
    ensures var f := LoadClaims(other, c, discovery).form; f.idToken || f.userinfo
  {
    hide LoadRoots, Essential;
  }
}
