// Claim Request Objects that survive a visit to the builder: what a canonical claims object is, and
// that the nodes it describes are built into the same object.
module Canonical {
  import opened Wrappers
  import opened Decimals
  import opened Json
  import opened JsonText
  import opened TextFields
  import opened Scalars
  import opened ClaimsForm

  // ---------------------------------------------------------------- canonical objects

  predicate Only(ms: seq<Member>, names: set<string>) { forall m :: m in ms ==> m.name in names }

  predicate Flagged(ms: seq<Member>) { Has(ms, "essential") ==> Lookup(ms, "essential") == Some(Bool(true)) }

  predicate NumberAt(ms: seq<Member>, name: string) { Has(ms, name) ==> Lookup(ms, name).value.Num? }

  // A requested value, an exact value, one of a list, a range, or bare presence.
  predicate CanonicalConstraint(c: Json) {
    match c
    case Null => true
    case Obj(ms) =>
      Flagged(ms) &&
      if Has(ms, "value") then Only(ms, {"essential", "value"}) && Stable(Lookup(ms, "value").value)
      else if Has(ms, "values") then
        && Only(ms, {"essential", "values"})
        && Lookup(ms, "values").value.Arr? && StableList(Lookup(ms, "values").value.items)
      else Only(ms, {"essential", "min", "max"}) && NumberAt(ms, "min") && NumberAt(ms, "max")
    case _ => false
  }

  predicate CanonicalTime(t: Json) {
    match t
    case Null => true
    case Obj(ms) =>
      && ms != [] && Only(ms, {"essential", "max_age"}) && Flagged(ms) && NumberAt(ms, "max_age")
      && (Has(ms, "max_age") ==> var n := Lookup(ms, "max_age").value.n; n.IsInteger() && !n.neg)
    case _ => false
  }

  // The names that a row can write: trimmed, not empty, without line breaks.
  predicate PlainName(s: string) { s != "" && Trim(s) == s && OneLine(s) }

  predicate CanonicalName(s: string) { PlainName(s) && s != "__proto__" }

  predicate CanonicalProperty(m: Member) { CanonicalName(m.name) && CanonicalConstraint(m.value) }

  predicate CanonicalMetadatum(m: Member) {
    if m.name == "time" then CanonicalTime(m.value) else CanonicalProperty(m)
  }

  predicate CanonicalIdentifier(v: Json) {
    && v.Obj? && Only(v.members, {"value"}) && Has(v.members, "value")
    && var id := Lookup(v.members, "value").value;
       id.Str? && PlainName(id.s)
  }

  predicate CanonicalMetadata(v: Json) {
    v.Obj? && v.members != [] && forall m :: m in v.members ==> CanonicalMetadatum(m)
  }

  predicate CanonicalProperties(v: Json) {
    v.Obj? && v.members != [] && forall m :: m in v.members ==> CanonicalProperty(m)
  }

  predicate CanonicalFactor(ms: seq<Member>) {
    && Only(ms, {"amr_identifier", "amr_metadata", "amr_properties"})
    && Has(ms, "amr_identifier") && CanonicalIdentifier(Lookup(ms, "amr_identifier").value)
    && (Has(ms, "amr_metadata") ==> CanonicalMetadata(Lookup(ms, "amr_metadata").value))
    && (Has(ms, "amr_properties") ==> CanonicalProperties(Lookup(ms, "amr_properties").value))
  }

  // A group of one operator with canonical children, or a factor.
  predicate CanonicalExpression(e: Json)
    decreases e
  {
    e.Obj? &&
    if HasArray(e.members, "all_of") then
      LookupSmaller(e.members, "all_of");
      Only(e.members, {"all_of"}) && CanonicalList(Lookup(e.members, "all_of").value.items)
    else if HasArray(e.members, "one_of") then
      LookupSmaller(e.members, "one_of");
      Only(e.members, {"one_of"}) && CanonicalList(Lookup(e.members, "one_of").value.items)
    else CanonicalFactor(e.members)
  }

  predicate CanonicalList(items: seq<Json>)
    decreases items
  {
    items != [] && forall i :: 0 <= i < |items| ==> CanonicalExpression(items[i])
  }

  // amr_details: null, a bare essential flag, or an expression with an optional essential flag.
  predicate CanonicalDetails(d: Json) {
    match d
    case Null => true
    case Obj(ms) =>
      && Flagged(ms)
      && if Remove(ms, "essential") == [] then ms != [] else CanonicalExpression(Obj(Remove(ms, "essential")))
    case _ => false
  }

  predicate CanonicalLocation(v: Json, details: Json) {
    v.Obj? && Only(v.members, {"amr_details"}) && Has(v.members, "amr_details")
    && Same(Lookup(v.members, "amr_details").value, details)
  }

  // The same canonical details in each requested location, and nothing else.
  predicate CanonicalClaims(c: Json) {
    && c.Obj? && Only(c.members, {"id_token", "userinfo"})
    && (Requests(c.members, "id_token") || Requests(c.members, "userinfo"))
    && var d := DetailsAt(c.members, if Requests(c.members, "id_token") then "id_token" else "userinfo");
       && CanonicalDetails(d)
       && (Has(c.members, "id_token") ==> CanonicalLocation(Lookup(c.members, "id_token").value, d))
       && (Has(c.members, "userinfo") ==> CanonicalLocation(Lookup(c.members, "userinfo").value, d))
  }

  // ---------------------------------------------------------------- the builder's member order

  function Pick(ms: seq<Member>, name: string): seq<Member> {
    if Has(ms, name) then [Member(name, Lookup(ms, name).value)] else []
  }

  function ArrangeConstraint(c: Json): Json {
    if c.Obj? then
      Obj(Pick(c.members, "essential") + Pick(c.members, "value") + Pick(c.members, "values")
          + Pick(c.members, "min") + Pick(c.members, "max"))
    else c
  }

  function ArrangeTime(t: Json): Json {
    if t.Obj? then Obj(Pick(t.members, "essential") + Pick(t.members, "max_age")) else t
  }

  function ArrangeRows(ms: seq<Member>): (out: seq<Member>)
    ensures |out| == |ms| && forall i :: 0 <= i < |ms| ==> out[i] == Member(ms[i].name, ArrangeConstraint(ms[i].value))
  {
    seq(|ms|, i requires 0 <= i < |ms| => Member(ms[i].name, ArrangeConstraint(ms[i].value)))
  }

  function TimePart(ms: seq<Member>): seq<Member> {
    if Has(ms, "time") then [Member("time", ArrangeTime(Lookup(ms, "time").value))] else []
  }

  function ArrangeMetadata(ms: seq<Member>): seq<Member> {
    TimePart(ms) + ArrangeRows(Remove(ms, "time"))
  }

  // The members of a section of a factor, none when the section is missing.
  function SectionOf(ms: seq<Member>, name: string): seq<Member> {
    match Lookup(ms, name)
    case Some(Obj(section)) => section
    case _ => []
  }

  function IdentifierOf(ms: seq<Member>): string {
    match Lookup(ms, "amr_identifier")
    case Some(Obj(vs)) => if Has(vs, "value") && Lookup(vs, "value").value.Str? then Lookup(vs, "value").value.s else ""
    case _ => ""
  }

  // The members of an expression in the order the builder writes them.
  function ArrangeExpression(e: Json): seq<Member>
    decreases e
  {
    if !e.Obj? then []
    else if HasArray(e.members, "all_of") then
      LookupSmaller(e.members, "all_of");
      [Member("all_of", Arr(ArrangeList(Lookup(e.members, "all_of").value.items)))]
    else if HasArray(e.members, "one_of") then
      LookupSmaller(e.members, "one_of");
      [Member("one_of", Arr(ArrangeList(Lookup(e.members, "one_of").value.items)))]
    else
      ArrangeFactor(e.members)
  }

  function ArrangeFactor(ms: seq<Member>): seq<Member> {
    Identifier(IdentifierOf(ms))
    + Section("amr_metadata", ArrangeMetadata(SectionOf(ms, "amr_metadata")))
    + Section("amr_properties", ArrangeRows(SectionOf(ms, "amr_properties")))
  }

  function ArrangeList(items: seq<Json>): (out: seq<Json>)
    ensures |out| == |items|
    decreases items, 0
  {
    if items == [] then [] else [Obj(ArrangeExpression(items[0]))] + ArrangeList(items[1..])
  }

  // ---------------------------------------------------------------- constraints

  lemma NumberTextField(n: Number)
    ensures FloatText(NumberText(n)) && NumberText(n) != "" && FieldNumber(NumberText(n)) == n
  {
    NumberRoundTrip(n, "");
    NumberTextChars(n);
    assert NumberText(n) + "" == NumberText(n);
  }

  lemma OnlyExcludes(ms: seq<Member>, names: set<string>, name: string)
    requires Only(ms, names) && name !in names
    ensures !Has(ms, name)
  {
  }

  lemma FlagPicked(ms: seq<Member>)
    requires Flagged(ms)
    ensures Flag(Essential(Obj(ms))) == Pick(ms, "essential")
  {
  }

  lemma EmptyParts(f: seq<Member>, v: seq<Member>, w: seq<Member>)
    ensures f + v + [] + [] + [] == f + v && f + [] + v + [] + [] == f + v && f + [] + [] + v + w == f + v + w
  {
  }

  // What one visit to the form makes of a constraint.
  function RowVisit(name: string, c: Json, title: string): Result<Json, Thrown> {
    match PropertyRow(name, c)
    case Err(e) => Err(e)
    case Ok(row) => ConstraintValue(row, title)
  }

  // A row loaded from a canonical constraint is built into the same constraint.
  lemma {:induction false} CanonicalRowReturns(name: string, c: Json, title: string)
    requires WellFormed(c) && CanonicalConstraint(c)
    ensures RowVisit(name, c, title) == Ok(ArrangeConstraint(c))
  {
    if c.Obj? {
      var ms := c.members;
      if Has(ms, "value") {
        ExactReturns(name, ms, title);
      } else if Has(ms, "values") {
        ListReturns(name, ms, title);
      } else {
        RangeReturns(name, ms, title);
      }
    }
  }

  lemma {:induction false} ExactReturns(name: string, ms: seq<Member>, title: string)
    requires WellFormed(Obj(ms)) && CanonicalConstraint(Obj(ms)) && Has(ms, "value")
    ensures RowVisit(name, Obj(ms), title) == Ok(ArrangeConstraint(Obj(ms)))
  {
    hide ScanNumber, DomText, ParseScalar, ParseList, ListText, ValueText, Print, Stable, StableList;
    FlagPicked(ms);
    OnlyExcludes(ms, {"essential", "value"}, "values");
    OnlyExcludes(ms, {"essential", "value"}, "min");
    OnlyExcludes(ms, {"essential", "value"}, "max");
    EmptyParts(Pick(ms, "essential"), Pick(ms, "value"), []);
    LookupSmaller(ms, "value");
    ScalarRoundTrip(Lookup(ms, "value").value);
  }

  lemma {:induction false} ListReturns(name: string, ms: seq<Member>, title: string)
    requires WellFormed(Obj(ms)) && CanonicalConstraint(Obj(ms)) && !Has(ms, "value") && Has(ms, "values")
    ensures RowVisit(name, Obj(ms), title) == Ok(ArrangeConstraint(Obj(ms)))
  {
    hide ScanNumber, DomText, ParseScalar, ParseList, ListText, ValueText, Print, Stable, StableList;
    FlagPicked(ms);
    OnlyExcludes(ms, {"essential", "values"}, "min");
    OnlyExcludes(ms, {"essential", "values"}, "max");
    EmptyParts(Pick(ms, "essential"), Pick(ms, "values"), []);
    LookupSmaller(ms, "values");
    ListRoundTrip(Lookup(ms, "values").value.items);
  }

  lemma {:induction false} BoundReturns(ms: seq<Member>, name: string)
    requires NumberAt(ms, name)
    ensures Bound(name, NumberFieldText(Lookup(ms, name))) == Pick(ms, name)
    ensures NumberFieldText(Lookup(ms, name)) == "" <==> !Has(ms, name)
  {
    hide ScanNumber;
    if Has(ms, name) { NumberTextField(Lookup(ms, name).value.n); }
  }

  lemma {:induction false} RangeReturns(name: string, ms: seq<Member>, title: string)
    requires WellFormed(Obj(ms)) && CanonicalConstraint(Obj(ms)) && !Has(ms, "value") && !Has(ms, "values")
    ensures RowVisit(name, Obj(ms), title) == Ok(ArrangeConstraint(Obj(ms)))
  {
    hide ScanNumber, DomText, ParseScalar, ParseList, ListText, ValueText, Print, Stable, StableList, Lookup,
         WellFormed, Bound, NumberText, NumberFieldText;
    FlagPicked(ms);
    BoundReturns(ms, "min");
    BoundReturns(ms, "max");
    EmptyParts(Pick(ms, "essential"), Pick(ms, "min"), Pick(ms, "max"));
    assert Pick(ms, "essential") + [] + [] == Pick(ms, "essential");
  }

  // ---------------------------------------------------------------- rows

  lemma {:induction false} RowReturns(acc: seq<Member>, m: Member, metadata: bool)
    requires WellFormed(m.value) && CanonicalProperty(m) && (metadata ==> m.name != "time") && !Has(acc, m.name)
    ensures PropertyRow(m.name, m.value).Ok?
    ensures AddRow(Target(acc, false), PropertyRow(m.name, m.value).value, metadata)
         == Ok(Target(acc + [Member(m.name, ArrangeConstraint(m.value))], false))
  {
    hide CanonicalConstraint, ArrangeConstraint, ConstraintValue;
    CanonicalRowReturns(m.name, m.value, m.name);
    PropertyRowName(m.name, m.value);
    PutNew(acc, m.name, ArrangeConstraint(m.value));
  }

  lemma {:induction false} RowsReturn(acc: seq<Member>, ms: seq<Member>, metadata: bool)
    requires WellFormed(Obj(ms)) && Unique(acc + ms)
    requires forall m :: m in ms ==> CanonicalProperty(m) && (metadata ==> m.name != "time")
    ensures PropertyRows(ms).Ok?
    ensures AddRows(Target(acc, false), PropertyRows(ms).value, metadata) == Ok(Target(acc + ArrangeRows(ms), false))
    decreases |ms|
  {
    hide PropertyRow, AddRow, CanonicalProperty, ArrangeConstraint;
    if ms == [] {
      assert acc + ArrangeRows(ms) == acc;
    } else {
      var m, later := ms[0], ms[1..];
      var acc' := acc + [Member(m.name, ArrangeConstraint(m.value))];
      assert m in ms;
      UniqueApart(acc, ms);
      RowReturns(acc, m, metadata);
      UniqueShift(acc, ms, acc' + later);
      WellFormedTail(ms);
      RowsReturn(acc', later, metadata);
      assert acc' + ArrangeRows(later) == acc + ArrangeRows(ms);
      assert PropertyRows(ms).value[1..] == PropertyRows(later).value;
    }
  }

  lemma PropertyRowName(name: string, c: Json)
    requires PropertyRow(name, c).Ok?
    ensures PropertyRow(name, c).value.name == Strip(name)
  {
    hide ScanNumber, DomText, ListText, ValueText;
  }

  lemma UniqueApart(a: seq<Member>, b: seq<Member>)
    requires Unique(a + b) && b != []
    ensures !Has(a, b[0].name)
  {
    assert (a + b)[|a|] == b[0];
    assert forall i :: 0 <= i < |a| ==> (a + b)[i] == a[i];
  }

  lemma UniqueShift(a: seq<Member>, b: seq<Member>, c: seq<Member>)
    requires Unique(a + b) && |c| == |a + b| && forall i :: 0 <= i < |c| ==> c[i].name == (a + b)[i].name
    ensures Unique(c)
  {
  }

  lemma WellFormedTail(ms: seq<Member>)
    requires ms != [] && WellFormed(Obj(ms))
    ensures WellFormed(Obj(ms[1..]))
  {
    var t := ms[1..];
    assert forall i :: 0 <= i < |t| ==> t[i] == ms[i + 1];
  }

  lemma {:induction false} RemoveKeeps(ms: seq<Member>, name: string)
    ensures forall m :: m in Remove(ms, name) <==> m in ms && m.name != name
    ensures WellFormed(Obj(ms)) ==> WellFormed(Obj(Remove(ms, name)))
  {
    if ms != [] {
      RemoveKeeps(ms[1..], name);
      assert ms == [ms[0]] + ms[1..];
      if WellFormed(Obj(ms)) {
        WellFormedTail(ms);
        var out := Remove(ms[1..], name);
        assert forall j :: 0 <= j < |out| ==> out[j] in ms[1..];
        assert forall j :: 0 <= j < |out| ==> out[j].name != ms[0].name;
      }
    }
  }

  // ---------------------------------------------------------------- factors

  lemma {:induction false} TimeReturns(f: Factor, metadata: seq<Member>)
    requires Has(metadata, "time") ==> CanonicalTime(Lookup(metadata, "time").value)
    requires var t := Lookup(metadata, "time");
             && f.timeRequested == t.Some?
             && f.timeEssential == (t.Some? && Essential(t.value))
             && f.maxAge == NumberFieldText(MaxAgeOf(t))
    ensures TimeMembers(f) == Ok(TimePart(metadata))
  {
    var t := Lookup(metadata, "time");
    if t.Some? && t.value.Obj? {
      var ms := t.value.members;
      FlagPicked(ms);
      BoundReturns(ms, "max_age");
      if Has(ms, "max_age") { NumberTextField(Lookup(ms, "max_age").value.n); }
      assert ms[0] in ms && Has(ms, ms[0].name);
    }
  }

  lemma {:induction false} MetadataReturns(ms: seq<Member>)
    requires WellFormed(Obj(ms)) && forall m :: m in ms ==> CanonicalMetadatum(m)
    ensures PropertyRows(Remove(ms, "time")).Ok?
    ensures SectionRows(TimePart(ms), PropertyRows(Remove(ms, "time")).value, true) == Ok(ArrangeMetadata(ms))
  {
    var rows := Remove(ms, "time");
    RemoveKeeps(ms, "time");
    assert Unique(TimePart(ms) + rows);
    RowsReturn(TimePart(ms), rows, true);
  }

  // The factor that loading makes of a method expression.
  function FactorOf(id: TextField, mm: seq<Member>, pm: seq<Member>): Factor
    requires PropertyRows(Remove(mm, "time")).Ok? && PropertyRows(pm).Ok?
  {
    var t := Lookup(mm, "time");
    Factor(id, t.Some?, t.Some? && Essential(t.value), NumberFieldText(MaxAgeOf(t)),
           PropertyRows(Remove(mm, "time")).value, PropertyRows(pm).value)
  }

  predicate IsSection(v: Option<Json>, ms: seq<Member>) { if v.Some? then v.value == Obj(ms) else ms == [] }

  lemma {:induction false} LoadedFactor(ms: seq<Member>, mm: seq<Member>, pm: seq<Member>, discovery: Discovery)
    requires Has(ms, "amr_identifier") && CanonicalIdentifier(Lookup(ms, "amr_identifier").value)
    requires IsSection(Lookup(ms, "amr_metadata"), mm) && IsSection(Lookup(ms, "amr_properties"), pm)
    requires PropertyRows(Remove(mm, "time")).Ok? && PropertyRows(pm).Ok?
    ensures OneLine(IdentifierOf(ms)) && LoadFactor(Obj(ms), discovery) == Ok(FactorOf(IdentifierOf(ms), mm, pm))
  {
    hide ScanNumber, PropertyRows, NumberFieldText, MaxAgeOf, Trim, Lookup, Remove, Essential, Only;
    assert Entries(Lookup(ms, "amr_metadata")) == mm;
    assert Entries(Lookup(ms, "amr_properties")) == pm;
  }

  lemma {:induction false} BuiltFactor(f: Factor, time: seq<Member>, metadata: seq<Member>, properties: seq<Member>)
    requires f.identifier != "" && Trim(f.identifier) == f.identifier
    requires TimeMembers(f) == Ok(time)
    requires SectionRows(time, f.metadata, true) == Ok(metadata)
    requires SectionRows([], f.properties, false) == Ok(properties)
    ensures FactorMembers(f)
         == Ok(Identifier(f.identifier) + Section("amr_metadata", metadata) + Section("amr_properties", properties))
  {
  }

  lemma {:induction false} FactorSections(ms: seq<Member>)
    requires WellFormed(Obj(ms)) && CanonicalFactor(ms)
    ensures var mm, pm := SectionOf(ms, "amr_metadata"), SectionOf(ms, "amr_properties");
            && IsSection(Lookup(ms, "amr_metadata"), mm) && IsSection(Lookup(ms, "amr_properties"), pm)
            && WellFormed(Obj(mm)) && WellFormed(Obj(pm))
            && (forall m :: m in mm ==> CanonicalMetadatum(m)) && (forall m :: m in pm ==> CanonicalProperty(m))
  {
    hide CanonicalMetadatum, CanonicalProperty, CanonicalIdentifier;
    if Has(ms, "amr_metadata") { LookupSmaller(ms, "amr_metadata"); }
    if Has(ms, "amr_properties") { LookupSmaller(ms, "amr_properties"); }
  }

  // A factor loaded from canonical JSON is built into the same JSON.
  lemma {:induction false} FactorReturns(ms: seq<Member>, discovery: Discovery)
    requires WellFormed(Obj(ms)) && CanonicalFactor(ms)
    ensures LoadFactor(Obj(ms), discovery).Ok?
    ensures FactorMembers(LoadFactor(Obj(ms), discovery).value) == Ok(ArrangeFactor(ms))
  {
    hide ScanNumber, PropertyRows, SectionRows, ArrangeMetadata, ArrangeRows, CanonicalMetadatum, CanonicalProperty,
         LoadFactor, FactorMembers, TimeMembers, Trim, MaxAgeOf, NumberFieldText, Essential, WellFormed;
    var mm, pm := SectionOf(ms, "amr_metadata"), SectionOf(ms, "amr_properties");
    FactorSections(ms);
    MetadataReturns(mm);
    if Has(mm, "time") { TimeCanonical(mm); }
    PropertiesReturn(pm);
    LoadedFactor(ms, mm, pm, discovery);
    var f := FactorOf(IdentifierOf(ms), mm, pm);
    TimeReturns(f, mm);
    BuiltFactor(f, TimePart(mm), ArrangeMetadata(mm), ArrangeRows(pm));
  }

  lemma {:induction false} PropertiesReturn(ms: seq<Member>)
    requires WellFormed(Obj(ms)) && forall m :: m in ms ==> CanonicalProperty(m)
    ensures PropertyRows(ms).Ok? && SectionRows([], PropertyRows(ms).value, false) == Ok(ArrangeRows(ms))
  {
    assert [] + ms == ms && [] + ArrangeRows(ms) == ArrangeRows(ms);
    RowsReturn([], ms, false);
  }

  lemma TimeCanonical(ms: seq<Member>)
    requires Has(ms, "time") && forall m :: m in ms ==> CanonicalMetadatum(m)
    ensures CanonicalTime(Lookup(ms, "time").value)
  {
    var v := Lookup(ms, "time").value;
    var i :| 0 <= i < |ms| && ms[i] == Member("time", v);
    assert ms[i] in ms;
  }

  // ---------------------------------------------------------------- expressions

  // Any canonical expression, however nested, comes back from the form in the builder's order.
  lemma {:induction false} ExpressionReturns(e: Json, discovery: Discovery)
    requires WellFormed(e) && CanonicalExpression(e)
    ensures LoadNode(e, discovery).Ok?
    ensures NodeMembers(LoadNode(e, discovery).value) == Ok(ArrangeExpression(e))
    decreases e
  {
    if HasArray(e.members, "all_of") {
      LookupSmaller(e.members, "all_of");
      ListReturns'(Lookup(e.members, "all_of").value.items, discovery);
    } else if HasArray(e.members, "one_of") {
      LookupSmaller(e.members, "one_of");
      ListReturns'(Lookup(e.members, "one_of").value.items, discovery);
    } else {
      FactorReturns(e.members, discovery);
    }
  }

  lemma {:induction false} ListReturns'(items: seq<Json>, discovery: Discovery)
    requires forall i :: 0 <= i < |items| ==> WellFormed(items[i]) && CanonicalExpression(items[i])
    ensures LoadList(items, discovery).Ok?
    ensures NodeList(LoadList(items, discovery).value) == Ok(ArrangeList(items))
    decreases items
  {
    if items != [] {
      ExpressionReturns(items[0], discovery);
      ListReturns'(items[1..], discovery);
      var ns := LoadList(items, discovery).value;
      assert ns[1..] == LoadList(items[1..], discovery).value;
    }
  }
}
