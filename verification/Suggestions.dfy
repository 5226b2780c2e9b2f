// Claims whose rows can be listed with their suggestions: a section with a member that is called
// "constructor" loads only when the issuer advertises that name for the method.
module Suggestions {
  import opened Wrappers
  import opened Json
  import opened TextFields
  import opened Scalars
  import opened ClaimsForm
  import opened Canonical

  predicate NamesShown(ms: seq<Member>, advertised: bool) {
    forall m :: m in ms ==> (m.name == "constructor" ==> advertised)
  }

  predicate SectionsShown(ms: seq<Member>, discovery: Discovery) {
    && NamesShown(SectionOf(ms, "amr_metadata"), IdentifierOf(ms) in discovery.ownMetadata)
    && NamesShown(SectionOf(ms, "amr_properties"), IdentifierOf(ms) in discovery.ownProperties)
  }

  // Every factor under the expression can be shown.
  predicate ExpressionShown(e: Json, discovery: Discovery)
    decreases e
  {
    e.Obj? ==>
      if HasArray(e.members, "all_of") then
        LookupSmaller(e.members, "all_of");
        ItemsShown(Lookup(e.members, "all_of").value.items, discovery)
      else if HasArray(e.members, "one_of") then
        LookupSmaller(e.members, "one_of");
        ItemsShown(Lookup(e.members, "one_of").value.items, discovery)
      else SectionsShown(e.members, discovery)
  }

  predicate ItemsShown(items: seq<Json>, discovery: Discovery)
    decreases items
  {
    forall i :: 0 <= i < |items| ==> ExpressionShown(items[i], discovery)
  }

  predicate DetailsShown(d: Json, discovery: Discovery) {
    d.Obj? ==> ExpressionShown(Obj(Remove(d.members, "essential")), discovery)
  }

  predicate ClaimsShown(c: Json, discovery: Discovery) {
    && c.Obj? && (Requests(c.members, "id_token") || Requests(c.members, "userinfo"))
    && DetailsShown(DetailsAt(c.members, if Requests(c.members, "id_token") then "id_token" else "userinfo"), discovery)
  }

  // ---------------------------------------------------------------- shown exactly when placed

  lemma {:induction false} RowsAsNames(ms: seq<Member>, advertised: bool)
    requires PropertyRows(ms).Ok? && forall m :: m in ms ==> PlainName(m.name)
    ensures RowsShown(PropertyRows(ms).value, advertised) <==> NamesShown(ms, advertised)
    decreases |ms|
  {
    hide PropertyRow, Trim;
    if ms != [] {
      var rows := PropertyRows(ms).value;
      assert ms == [ms[0]] + ms[1..] && ms[0] in ms;
      PropertyRowName(ms[0].name, ms[0].value);
      RowsAsNames(ms[1..], advertised);
      assert rows[1..] == PropertyRows(ms[1..]).value;
      assert RowShown(rows[0], advertised) <==> (ms[0].name == "constructor" ==> advertised);
      hide RowShown;
      FirstRow(rows, advertised);
      FirstName(ms, advertised);
    }
  }

  lemma FirstRow(rows: seq<Row>, advertised: bool)
    requires rows != []
    ensures RowsShown(rows, advertised) <==> RowShown(rows[0], advertised) && RowsShown(rows[1..], advertised)
  {
    assert rows == [rows[0]] + rows[1..];
  }

  lemma FirstName(ms: seq<Member>, advertised: bool)
    requires ms != []
    ensures NamesShown(ms, advertised) <==>
            (ms[0].name == "constructor" ==> advertised) && NamesShown(ms[1..], advertised)
  {
    assert ms == [ms[0]] + ms[1..];
  }

  lemma {:induction false} FactorAsSections(ms: seq<Member>, discovery: Discovery)
    requires WellFormed(Obj(ms)) && CanonicalFactor(ms) && LoadFactor(Obj(ms), discovery).Ok?
    ensures FactorShown(LoadFactor(Obj(ms), discovery).value, discovery) <==> SectionsShown(ms, discovery)
  {
    hide LoadFactor, PropertyRows, Trim, WellFormed, CanonicalConstraint, CanonicalTime, RowsShown, NamesShown,
         ArrangeMetadata, ArrangeRows, SectionRows;
    var mm, pm := SectionOf(ms, "amr_metadata"), SectionOf(ms, "amr_properties");
    FactorSections(ms);
    MetadataReturns(mm);
    PropertiesReturn(pm);
    LoadedFactor(ms, mm, pm, discovery);
    RemoveKeeps(mm, "time");
    RowsAsNames(Remove(mm, "time"), IdentifierOf(ms) in discovery.ownMetadata);
    RowsAsNames(pm, IdentifierOf(ms) in discovery.ownProperties);
    WithoutTime(mm, IdentifierOf(ms) in discovery.ownMetadata);
    PlainIdentifier(ms);
  }

  lemma WithoutTime(ms: seq<Member>, advertised: bool)
    ensures NamesShown(Remove(ms, "time"), advertised) <==> NamesShown(ms, advertised)
  {
    RemoveKeeps(ms, "time");
  }

  lemma PlainIdentifier(ms: seq<Member>)
    requires CanonicalFactor(ms)
    ensures Trim(IdentifierOf(ms)) == IdentifierOf(ms)
  {
    hide Trim;
  }

  // A canonical expression can be placed in the form exactly when no section in it holds an
  // unadvertised "constructor".
  lemma {:induction false} ShownIffPlaced(e: Json, discovery: Discovery)
    requires WellFormed(e) && CanonicalExpression(e) && LoadNode(e, discovery).Ok?
    ensures NodeShown(LoadNode(e, discovery).value, discovery) <==> ExpressionShown(e, discovery)
    decreases e
  {
    hide LoadFactor, FactorShown, SectionsShown, CanonicalFactor;
    if HasArray(e.members, "all_of") {
      LookupSmaller(e.members, "all_of");
      ItemsIffPlaced(Lookup(e.members, "all_of").value.items, discovery);
    } else if HasArray(e.members, "one_of") {
      LookupSmaller(e.members, "one_of");
      ItemsIffPlaced(Lookup(e.members, "one_of").value.items, discovery);
    } else {
      FactorAsSections(e.members, discovery);
    }
  }

  lemma {:induction false} ItemsIffPlaced(items: seq<Json>, discovery: Discovery)
    requires forall i :: 0 <= i < |items| ==> WellFormed(items[i]) && CanonicalExpression(items[i])
    requires LoadList(items, discovery).Ok?
    ensures NodesShown(LoadList(items, discovery).value, discovery) <==> ItemsShown(items, discovery)
    decreases items
  {
    hide LoadNode, NodeShown, ExpressionShown, CanonicalExpression, WellFormed;
    if items != [] {
      var ns := LoadList(items, discovery).value;
      ShownIffPlaced(items[0], discovery);
      ItemsIffPlaced(items[1..], discovery);
      assert ns[1..] == LoadList(items[1..], discovery).value;
      assert forall i :: 0 <= i < |items[1..]| ==> items[1..][i] == items[i + 1];
      assert ItemsShown(items, discovery) <==>
             ExpressionShown(items[0], discovery) && ItemsShown(items[1..], discovery) by {
        if ItemsShown(items[1..], discovery) {
          assert forall i :: 1 <= i < |items| ==> items[i] == items[1..][i - 1];
        }
      }
    }
  }
}
