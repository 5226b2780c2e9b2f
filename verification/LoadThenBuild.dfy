// Loading canonical claims and building them again: the whole object comes back.
module LoadThenBuild {
  import opened Wrappers
  import opened Json
  import opened JsonText
  import opened TextFields
  import opened Scalars
  import opened ClaimsForm
  import opened Canonical
  import opened Suggestions
  import opened Arrangement

  // One visit to the builder: load the claims into the form, then build the form.
  function Visit(form: Form, c: Json, discovery: Discovery): Result<Json, Thrown> {
    var l := LoadClaims(form, c, discovery);
    if l.error.Some? then Err(l.error.value) else BuildClaims(l.form)
  }

  // The details in the builder's order: the flag, then the expression.
  function ArrangeDetails(d: Json): Json {
    if !d.Obj? then d
    else
      var rest := Remove(d.members, "essential");
      Obj(Pick(d.members, "essential") + (if rest == [] then [] else ArrangeExpression(Obj(rest))))
  }

  function DetailsOf(c: Json): Json
    requires c.Obj? && (Requests(c.members, "id_token") || Requests(c.members, "userinfo"))
  {
    DetailsAt(c.members, if Requests(c.members, "id_token") then "id_token" else "userinfo")
  }

  function ArrangeClaims(c: Json): Json
    requires c.Obj? && (Requests(c.members, "id_token") || Requests(c.members, "userinfo"))
  {
    Claims(Requests(c.members, "id_token"), Requests(c.members, "userinfo"), ArrangeDetails(DetailsOf(c)))
  }

  // ---------------------------------------------------------------- the essential flag

  lemma {:induction false} LoadFactorIgnoresFlag(ms: seq<Member>, discovery: Discovery)
    ensures LoadFactor(Obj(ms), discovery) == LoadFactor(Obj(Remove(ms, "essential")), discovery)
  {
    hide PropertyRows, FieldText, NumberFieldText, TimeOf, MaxAgeOf, Essential, Entries, Lookup, Remove;
    LookupRemove(ms, "essential", "amr_identifier");
    LookupRemove(ms, "essential", "amr_metadata");
    LookupRemove(ms, "essential", "amr_properties");
  }

  // The flag of the claim is invisible to the part of the load that reads the expression.
  lemma {:induction false} LoadIgnoresFlag(ms: seq<Member>, discovery: Discovery)
    ensures LoadNode(Obj(ms), discovery) == LoadNode(Obj(Remove(ms, "essential")), discovery)
    ensures HasExpression(ms) <==> HasExpression(Remove(ms, "essential"))
  {
    hide LoadFactor, LoadGroup, Lookup, Remove;
    LoadFactorIgnoresFlag(ms, discovery);
    LookupRemove(ms, "essential", "all_of");
    LookupRemove(ms, "essential", "one_of");
    LookupRemove(ms, "essential", "amr_identifier");
  }

  // The names the builder can write for an expression.
  predicate ExpressionNames(ms: seq<Member>) {
    && ms != [] && Unique(ms)
    && Only(ms, {"all_of", "one_of", "amr_identifier", "amr_metadata", "amr_properties"})
  }

  lemma {:induction false} FactorNames(id: string, mm: seq<Member>, pm: seq<Member>)
    ensures ExpressionNames(Identifier(id) + Section("amr_metadata", mm) + Section("amr_properties", pm))
  {
  }

  lemma {:induction false} ArrangedNames(e: Json)
    requires CanonicalExpression(e)
    ensures ExpressionNames(ArrangeExpression(e)) && HasExpression(e.members)
  {
    hide CanonicalMetadata, CanonicalProperties, CanonicalIdentifier, ArrangeMetadata, ArrangeRows;
    if HasArray(e.members, "all_of") || HasArray(e.members, "one_of") {
    } else {
      FactorNames(IdentifierOf(e.members), ArrangeMetadata(SectionOf(e.members, "amr_metadata")),
                  ArrangeRows(SectionOf(e.members, "amr_properties")));
    }
  }

  lemma {:induction false} MergedWithFlag(flag: bool, ms: seq<Member>)
    requires ExpressionNames(ms)
    ensures Collect(Flag(flag), ms) == Flag(flag) + ms && Unique(Flag(flag) + ms) && Flag(flag) + ms != []
  {
    assert forall i :: 0 <= i < |ms| ==> ms[i] in ms;
    assert "essential" !in {"all_of", "one_of", "amr_identifier", "amr_metadata", "amr_properties"};
    assert Unique(Flag(flag) + ms);
    CollectUnique(Flag(flag), ms);
  }

  // ---------------------------------------------------------------- details and claims

  lemma {:induction false} DetailsReturn(d: Json, form: Form, discovery: Discovery)
    requires WellFormed(d) && CanonicalDetails(d) && d.Obj?
    ensures LoadRoots(d, discovery).Ok?
    ensures Details(form.(roots := LoadRoots(d, discovery).value, claimEssential := Essential(d)))
         == Ok(ArrangeDetails(d).members)
    ensures ArrangeDetails(d).members != []
  {
    hide CanonicalExpression, ArrangeExpression, NodeMembers, LoadNode;
    var ms := d.members;
    var rest := Remove(ms, "essential");
    RemoveKeeps(ms, "essential");
    LoadIgnoresFlag(ms, discovery);
    FlagPicked(ms);
    if rest == [] {
      assert ms[0] in ms;
      assert Has(ms, "essential");
      assert Pick(ms, "essential") + [] == Pick(ms, "essential");
    } else {
      ArrangedNames(Obj(rest));
      ExpressionReturns(Obj(rest), discovery);
      MergedWithFlag(Essential(d), ArrangeExpression(Obj(rest)));
    }
  }

  // Canonical details can be placed in the form exactly when every row in them can be shown.
  lemma {:induction false} DetailsIffPlaced(d: Json, discovery: Discovery)
    requires WellFormed(d) && CanonicalDetails(d) && d.Obj? && LoadRoots(d, discovery).Ok?
    ensures NodesShown(LoadRoots(d, discovery).value, discovery) <==> DetailsShown(d, discovery)
  {
    hide CanonicalExpression, ArrangeExpression, ExpressionShown, NodeMembers, LoadNode, NodeShown;
    var ms := d.members;
    var rest := Remove(ms, "essential");
    RemoveKeeps(ms, "essential");
    LoadIgnoresFlag(ms, discovery);
    if rest == [] {
      NothingShown(discovery);
    } else {
      ArrangedNames(Obj(rest));
      ExpressionReturns(Obj(rest), discovery);
      ShownIffPlaced(Obj(rest), discovery);
    }
  }

  lemma NothingShown(discovery: Discovery)
    ensures ExpressionShown(Obj([]), discovery)
  {
  }

  lemma {:induction false} SameDetails(d: Json)
    requires WellFormed(d) && CanonicalDetails(d)
    ensures Same(ArrangeDetails(d), d)
  {
    hide CanonicalExpression, ArrangeExpression;
    if d.Obj? {
      var ms := d.members;
      var rest := Remove(ms, "essential");
      var body := if rest == [] then [] else ArrangeExpression(Obj(rest));
      RemoveKeeps(ms, "essential");
      if rest != [] {
        SameExpression(Obj(rest));
      }
      assert Same(Obj(body), Obj(rest));
      var out := Pick(ms, "essential") + body;
      forall k
        ensures Has(out, k) <==> Has(ms, k)
        ensures Has(ms, k) ==> Same(Lookup(out, k).value, Lookup(ms, k).value)
      {
        LookupConcat(Pick(ms, "essential"), body, k);
        LookupPick(ms, "essential", k);
        LookupRemove(ms, "essential", k);
        SameLookup(body, rest, k);
      }
      SameMembers(out, ms);
    }
  }

  lemma {:induction false} LookupClaims(inToken: bool, inUser: bool, d: Json, k: string)
    ensures Lookup(Claims(inToken, inUser, d).members, k)
         == if (k == "id_token" && inToken) || (k == "userinfo" && inUser)
            then Some(Obj([Member("amr_details", d)])) else None
  {
    var a, b := Delivery(inToken, "id_token", d), Delivery(inUser, "userinfo", d);
    LookupConcat(a, b, k);
    if inToken { LookupOne("id_token", Obj([Member("amr_details", d)]), k); }
    if inUser { LookupOne("userinfo", Obj([Member("amr_details", d)]), k); }
  }

  lemma {:induction false} SameLocation(v: Json, d: Json, out: Json)
    requires CanonicalLocation(v, d) && Same(out, d)
    ensures Same(Obj([Member("amr_details", out)]), v)
  {
    var ms, one := v.members, [Member("amr_details", out)];
    forall k
      ensures Has(one, k) <==> Has(ms, k)
      ensures Has(ms, k) ==> Same(Lookup(one, k).value, Lookup(ms, k).value)
    {
      LookupOne("amr_details", out, k);
    }
    SameMembers(one, ms);
  }

  lemma WellFormedDetails(c: Json)
    requires WellFormed(c) && c.Obj? && (Requests(c.members, "id_token") || Requests(c.members, "userinfo"))
    ensures WellFormed(DetailsOf(c))
  {
    var location := if Requests(c.members, "id_token") then "id_token" else "userinfo";
    LookupSmaller(c.members, location);
    LookupSmaller(Lookup(c.members, location).value.members, "amr_details");
  }

  // Canonical claims come back from the form, the same JSON in the builder's member order, or the
  // load fails at a row whose suggestions cannot be listed.
  lemma {:induction false} CanonicalClaimsReturn(form: Form, c: Json, discovery: Discovery)
    requires WellFormed(c) && CanonicalClaims(c)
    ensures Visit(form, c, discovery) == if ClaimsShown(c, discovery) then Ok(ArrangeClaims(c)) else Err(BadSuggestions)
    ensures Same(ArrangeClaims(c), c)
  {
    hide CanonicalDetails, ArrangeDetails, Visit;
    var d := DetailsOf(c);
    WellFormedDetails(c);
    VisitDetails(form, c, discovery);
    SameDetails(d);
    var out := ArrangeClaims(c).members;
    forall k
      ensures Has(out, k) <==> Has(c.members, k)
      ensures Has(c.members, k) ==> Same(Lookup(out, k).value, Lookup(c.members, k).value)
    {
      LookupClaims(Requests(c.members, "id_token"), Requests(c.members, "userinfo"), ArrangeDetails(d), k);
      if k == "id_token" && Has(c.members, k) { SameLocation(Lookup(c.members, k).value, d, ArrangeDetails(d)); }
      if k == "userinfo" && Has(c.members, k) { SameLocation(Lookup(c.members, k).value, d, ArrangeDetails(d)); }
    }
    SameMembers(out, c.members);
  }

  lemma ShownUnlessObject(d: Json, discovery: Discovery)
    requires !d.Obj?
    ensures DetailsShown(d, discovery)
  {
  }

  lemma {:induction false} VisitDetails(form: Form, c: Json, discovery: Discovery)
    requires c.Obj? && (Requests(c.members, "id_token") || Requests(c.members, "userinfo"))
    requires WellFormed(DetailsOf(c)) && CanonicalDetails(DetailsOf(c))
    ensures Visit(form, c, discovery) == if ClaimsShown(c, discovery) then Ok(ArrangeClaims(c)) else Err(BadSuggestions)
  {
    hide LoadRoots, Essential, NodesShown, DetailsShown;
    var d := DetailsOf(c);
    if !d.Obj? {
      ShownUnlessObject(d, discovery);
    } else {
      var inToken, inUser := Requests(c.members, "id_token"), Requests(c.members, "userinfo");
      DetailsReturn(d, form.(idToken := inToken, userinfo := inUser), discovery);
      DetailsIffPlaced(d, discovery);
    }
  }
}
