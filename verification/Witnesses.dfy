// Concrete inputs at the edges of the builder's domain.
module Witnesses {
  import opened Wrappers
  import opened Decimals
  import opened Json
  import opened JsonText
  import opened TextFields
  import opened Scalars
  import opened ClaimsForm
  import opened Canonical
  import opened Suggestions
  import opened LoadThenBuild
  import opened ExactDomain
  import Converse

  const PROTOTYPE: TextField := "__proto__"
  const CONSTRUCTOR: TextField := "constructor"
  const PWD: TextField := "pwd"

  // A factor "pwd" whose properties have one member.
  function OneProperty(name: string, c: Json): Json {
    Obj(Identifier(PWD) + [Member("amr_properties", Obj([Member(name, c)]))])
  }

  function RequestedRow(name: TextField): Row { Row(name, Requested, "", "", "", false) }

  function PresenceRow(name: TextField): Row { Row(name, Presence, "", "", "", false) }

  function PwdFactor(rows: seq<Row>): Factor { Factor(PWD, false, false, "", [], rows) }

  lemma OnePropertyParts(name: string, c: Json)
    ensures var ms := OneProperty(name, c).members;
            && Unique(ms) && (WellFormed(c) ==> WellFormed(OneProperty(name, c)))
            && Lookup(ms, "amr_identifier") == Some(Obj([Member("value", Str(PWD))]))
            && Lookup(ms, "amr_properties") == Some(Obj([Member(name, c)]))
            && Lookup(ms, "amr_metadata") == None && !Has(ms, "all_of") && !Has(ms, "one_of")
  {
    var ms := OneProperty(name, c).members;
    assert ms[0] == Member("amr_identifier", Obj([Member("value", Str(PWD))]));
    assert ms[1] == Member("amr_properties", Obj([Member(name, c)]));
    LookupAt(ms, 0);
    LookupAt(ms, 1);
  }

  lemma OnePropertyLoads(name: string, c: Json, row: Row, discovery: Discovery)
    requires PropertyRow(name, c) == Ok(row)
    ensures LoadFactor(OneProperty(name, c), discovery) == Ok(PwdFactor([row]))
  {
    OnePropertyParts(name, c);
    var id, properties := Obj([Member("value", Str(PWD))]), [Member(name, c)];
    LookupAt(id.members, 0);
    hide Lookup, PropertyRow, OneProperty;
    assert properties[1..] == [] && [row] + [] == [row];
    assert PropertyRows(properties[1..]) == Ok([]);
    assert PropertyRows(properties) == Ok([row]);
  }

  lemma PwdBuilt(rows: seq<Row>)
    requires SectionRows([], rows, false).Ok?
    ensures FactorMembers(PwdFactor(rows))
         == Ok(Identifier(PWD) + Section("amr_properties", SectionRows([], rows, false).value))
  {
    TrimTrimmed(PWD);
    hide Trim;
    assert SectionRows([], [], true) == Ok([]);
    assert Identifier(PWD) + [] == Identifier(PWD);
  }

  // A single row "__proto__" leaves no member: null sets the prototype, and so does a constraint.
  lemma PrototypeAlone(row: Row)
    requires row == RequestedRow(PROTOTYPE) || row == PresenceRow(PROTOTYPE)
    ensures SectionRows([], [row], false) == Ok([])
  {
    TrimTrimmed(PROTOTYPE);
    hide Trim;
    assert AddRow(Target([], false), row, false) == Ok(Target([], row.mode == Requested));
    var t := Target([], row.mode == Requested);
    assert [row][1..] == [] && AddRows(t, [], false) == Ok(t);
  }

  lemma PrototypeFactorBuilt(row: Row)
    requires row == RequestedRow(PROTOTYPE) || row == PresenceRow(PROTOTYPE)
    ensures FactorMembers(PwdFactor([row])) == Ok(Identifier(PWD))
  {
    PrototypeAlone(row);
    PwdBuilt([row]);
    hide SectionRows, FactorMembers, PwdFactor;
    assert Identifier(PWD) + [] == Identifier(PWD);
  }

  // A property called "__proto__" loads as a row, but assigning that row's null to an object sets
  // its prototype and leaves no member, so the request loses it.
  lemma PrototypeNameLost(discovery: Discovery)
    ensures LoadFactor(OneProperty(PROTOTYPE, Null), discovery) == Ok(PwdFactor([RequestedRow(PROTOTYPE)]))
    ensures FactorMembers(PwdFactor([RequestedRow(PROTOTYPE)])) == Ok(Identifier(PWD))
  {
    OnePropertyLoads(PROTOTYPE, Null, RequestedRow(PROTOTYPE), discovery);
    PrototypeFactorBuilt(RequestedRow(PROTOTYPE));
  }

  // Once a first row "__proto__" took the prototype away, a second one is an ordinary member.
  lemma PrototypeTwice()
    ensures SectionRows([], [RequestedRow(PROTOTYPE), PresenceRow(PROTOTYPE)], false)
         == Ok([Member(PROTOTYPE, Obj([]))])
  {
    var first, second := RequestedRow(PROTOTYPE), PresenceRow(PROTOTYPE);
    TrimTrimmed(PROTOTYPE);
    hide Trim;
    assert AddRow(Target([], false), first, false) == Ok(Target([], true));
    assert AddRow(Target([], true), second, false) == Ok(Target([Member(PROTOTYPE, Obj([]))], true));
    assert [first, second][1..] == [second] && [second][1..] == [];
    assert AddRows(Target([], true), [second], false) == Ok(Target([Member(PROTOTYPE, Obj([]))], true));
  }

  // What those two rows build does not come back: loaded again it is a single row, which is lost.
  lemma RepeatedPrototypeLost(discovery: Discovery)
    ensures FactorMembers(PwdFactor([RequestedRow(PROTOTYPE), PresenceRow(PROTOTYPE)]))
         == Ok(OneProperty(PROTOTYPE, Obj([])).members)
    ensures LoadFactor(OneProperty(PROTOTYPE, Obj([])), discovery) == Ok(PwdFactor([PresenceRow(PROTOTYPE)]))
    ensures FactorMembers(PwdFactor([PresenceRow(PROTOTYPE)])) == Ok(Identifier(PWD))
  {
    hide SectionRows, FactorMembers, LoadFactor, PwdFactor;
    PrototypeTwice();
    PwdBuilt([RequestedRow(PROTOTYPE), PresenceRow(PROTOTYPE)]);
    OnePropertyLoads(PROTOTYPE, Obj([]), PresenceRow(PROTOTYPE), discovery);
    PrototypeFactorBuilt(PresenceRow(PROTOTYPE));
  }

  lemma PwdCanonical()
    ensures CanonicalIdentifier(Obj([Member("value", Str(PWD))]))
  {
    TrimTrimmed(PWD);
    LookupAt([Member("value", Str(PWD))], 0);
    hide Trim, Lookup;
  }

  lemma ConstructorPlain()
    ensures CanonicalProperties(Obj([Member(CONSTRUCTOR, Null)]))
  {
    TrimTrimmed(CONSTRUCTOR);
    hide Trim;
    assert CONSTRUCTOR != "__proto__";
  }

  lemma ConstructorFactor()
    ensures CanonicalFactor(OneProperty(CONSTRUCTOR, Null).members)
  {
    OnePropertyParts(CONSTRUCTOR, Null);
    PwdCanonical();
    ConstructorPlain();
    hide Lookup, CanonicalIdentifier, CanonicalProperties;
  }

  lemma ConstructorDetails()
    ensures WellFormed(OneProperty(CONSTRUCTOR, Null)) && CanonicalDetails(OneProperty(CONSTRUCTOR, Null))
  {
    var d := OneProperty(CONSTRUCTOR, Null);
    ConstructorFactor();
    OnePropertyParts(CONSTRUCTOR, Null);
    hide CanonicalFactor, Lookup;
    assert !Has(d.members, "essential");
    Converse.RemoveAbsent(d.members, "essential");
    assert CanonicalExpression(d);
  }

  lemma OneDelivery(d: Json)
    ensures var ms := Claims(true, false, d).members;
            Unique(ms) && Requests(ms, "id_token") && !Has(ms, "userinfo") && DetailsAt(ms, "id_token") == d
    ensures WellFormed(d) ==> WellFormed(Claims(true, false, d))
    ensures CanonicalDetails(d) ==> CanonicalClaims(Claims(true, false, d))
  {
    hide CanonicalDetails;
    LookupClaims(true, false, d, "id_token");
    LookupClaims(true, false, d, "userinfo");
    LookupAt([Member("amr_details", d)], 0);
    assert WellFormed(d) ==> WellFormed(Obj([Member("amr_details", d)]));
    hide Lookup;
  }

  // Canonical claims with a property called "constructor": the load throws unless the issuer
  // advertises that name for the method, and leaves an empty tree.
  lemma ConstructorNotLoaded(form: Form, discovery: Discovery)
    requires PWD !in discovery.ownProperties
    ensures var c := Claims(true, false, OneProperty(CONSTRUCTOR, Null));
            WellFormed(c) && CanonicalClaims(c) &&
            LoadClaims(form, c, discovery) == Loaded(form.(roots := []), Some(BadSuggestions))
  {
    var d := OneProperty(CONSTRUCTOR, Null);
    var f := PwdFactor([RequestedRow(CONSTRUCTOR)]);
    ConstructorDetails();
    OneDelivery(d);
    ConstructorUnshown(discovery);
    ConstructorRoots(discovery);
    hide LoadRoots, NodesShown, Placed, CanonicalClaims, WellFormed, OneProperty, PwdFactor;
  }

  lemma ConstructorRoots(discovery: Discovery)
    ensures LoadRoots(OneProperty(CONSTRUCTOR, Null), discovery) == Ok([Leaf(PwdFactor([RequestedRow(CONSTRUCTOR)]))])
  {
    OnePropertyParts(CONSTRUCTOR, Null);
    OnePropertyLoads(CONSTRUCTOR, Null, RequestedRow(CONSTRUCTOR), discovery);
    hide LoadFactor, Lookup, PwdFactor, RequestedRow, LoadGroup;
  }

  lemma ConstructorUnshown(discovery: Discovery)
    requires PWD !in discovery.ownProperties
    ensures var f := Leaf(PwdFactor([RequestedRow(CONSTRUCTOR)]));
            !NodesShown([f], discovery) && Placed([f], discovery) == []
  {
    TrimTrimmed(CONSTRUCTOR);
    TrimTrimmed(PWD);
    hide Trim;
    var f := PwdFactor([RequestedRow(CONSTRUCTOR)]);
    assert RequestedRow(CONSTRUCTOR) in f.properties && !RowShown(RequestedRow(CONSTRUCTOR), false);
    assert !FactorShown(f, discovery);
  }

  // Where the failing factor is in a group, the group and the children before it stay in the form.
  lemma PartialTree(good: Factor, bad: Factor, later: seq<Node>, op: Operator, discovery: Discovery)
    requires FactorShown(good, discovery) && !FactorShown(bad, discovery)
    ensures Placed([Group(op, [Leaf(good)] + ([Leaf(bad)] + later))], discovery) == [Group(op, [Leaf(good)])]
  {
    hide FactorShown;
    var rest := [Leaf(bad)] + later;
    var children := [Leaf(good)] + rest;
    var g := Group(op, children);
    assert children[1..] == rest;
    assert !NodeShown(Leaf(bad), discovery) && NodeShown(Leaf(good), discovery);
    assert !NodesShown(rest, discovery) && Placed(rest, discovery) == [];
    assert [Leaf(good)] + [] == [Leaf(good)];
    assert Placed(children, discovery) == [Leaf(good)];
    assert !NodesShown(children, discovery);
    assert !NodeShown(g, discovery);
  }

  lemma TwelveText()
    ensures NumberText(Decimal(false, 12, 0)) == "12"
  {
    assert Digits(12) == "12";
  }

  // The string "12" comes back as a number.
  lemma NumeralBecomesNumber()
    ensures ParseScalar(ValueText(Str("12"))) == Some(Num(Decimal(false, 12, 0)))
  {
    var v := Num(Decimal(false, 12, 0));
    TwelveText();
    ValueTextOf(Str("12"));
    TrimTrimmed("12");
    TextRoundTrip(v, "");
    assert Print(v, "", "") == "12";
    hide NumberText, Parse, Trim, Print;
  }
}
