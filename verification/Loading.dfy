// What the form shows after a load, said of the values in the JSON text: which switch is ticked,
// which field holds what, and which error leaves what behind.
module Loading {
  import opened Wrappers
  import opened Decimals
  import opened Json
  import opened TextFields
  import opened Scalars
  import opened ClaimsForm

  // ---------------------------------------------------------------- values in conditions and fields

  // The JSON values that a condition takes for false.
  const FALSY: set<Json> := {Null, Bool(false), Num(Decimal(false, 0, 0)), Str("")}

  // A member whose value a condition takes for true.
  ghost predicate Ticked(ms: seq<Member>, name: string) {
    exists v :: Lookup(ms, name) == Some(v) && v !in FALSY
  }

  // r is what `v && v.name` gives; None is undefined.
  predicate Selects(v: Option<Json>, name: string, r: Option<Json>) {
    match v
    case None => r == None
    case Some(Obj(ms)) => r == Lookup(ms, name)
    case Some(other) => r == if other in FALSY then Some(other) else None
  }

  // Texts with commas between them.
  ghost predicate CommaJoined(texts: seq<string>, t: string) {
    if texts == [] then t == ""
    else if |texts| == 1 then t == texts[0]
    else exists rest :: t == texts[0] + "," + rest && CommaJoined(texts[1..], rest)
  }

  // t is the text of v: elements of an array are separated by commas, and null among them is empty.
  ghost predicate Written(v: Json, t: string)
    decreases v
  {
    match v
    case Null => t == "null"
    case Bool(b) => t == if b then "true" else "false"
    case Num(n) => t == NumberText(n)
    case Str(s) => t == s
    case Obj(_) => t == "[object Object]"
    case Arr(items) =>
      exists texts: seq<string> ::
        && |texts| == |items| && CommaJoined(texts, t)
        && forall i :: 0 <= i < |items| ==> if items[i].Null? then texts[i] == "" else Written(items[i], texts[i])
  }

  // What a number input shows for `v ?? ''`: nothing for a text that is not a number.
  ghost predicate InNumberField(v: Option<Json>, t: NumberField) {
    if v == None || v == Some(Null) then t == ""
    else exists u :: Written(v.value, u) && t == if FloatText(u) then u else ""
  }

  lemma TruthyExact(v: Json)
    ensures Truthy(v) <==> v !in FALSY
  {
  }

  lemma EssentialTicked(ms: seq<Member>)
    ensures Essential(Obj(ms)) <==> Ticked(ms, "essential")
  {
    if Has(ms, "essential") { TruthyExact(Lookup(ms, "essential").value); }
  }

  lemma {:induction false} DomTextWritten(v: Json)
    ensures Written(v, DomText(v))
    decreases v
  {
    if v.Arr? {
      var texts := ItemTexts(v.items);
      assert |texts| == |v.items| && CommaJoined(texts, DomText(v));
    }
  }

  lemma {:induction false} ItemTexts(items: seq<Json>) returns (texts: seq<string>)
    ensures |texts| == |items| && CommaJoined(texts, DomTexts(items))
    ensures forall i :: 0 <= i < |items| ==> if items[i].Null? then texts[i] == "" else Written(items[i], texts[i])
    decreases items
  {
    if items == [] {
      texts := [];
    } else {
      DomTextWritten(items[0]);
      var later := ItemTexts(items[1..]);
      texts := [if items[0].Null? then "" else DomText(items[0])] + later;
      assert texts[1..] == later;
    }
  }

  lemma NumberFieldShows(v: Option<Json>)
    ensures InNumberField(v, NumberFieldText(v))
  {
    hide DomText, FloatText, Written;
    if v.Some? { DomTextWritten(v.value); }
  }

  // ---------------------------------------------------------------- rows

  predicate HasValue(ms: seq<Member>) { Has(ms, "value") || Has(ms, "values") }

  predicate HasBound(ms: seq<Member>) { Has(ms, "min") || Has(ms, "max") }

  // The constraints that a row can show.
  ghost predicate Showable(c: Json) {
    match c
    case Null => true
    case Arr(_) => true
    case Obj(ms) =>
      Has(ms, "values") && !Has(ms, "value") ==> Lookup(ms, "values").value.Arr?
    case _ => false
  }

  // The row shows the constraint that a member carries.
  ghost predicate RowShows(m: Member, row: Row) {
    && row.name == Strip(m.name)
    && (row.essential <==> m.value.Obj? && Ticked(m.value.members, "essential"))
    && (row.mode != Range ==> row.min == "" && row.max == "")
    && match row.mode
       case Requested => m.value == Null && row.value == ""
       case Exact =>
         && m.value.Obj? && Has(m.value.members, "value")
         && row.value == ValueText(Lookup(m.value.members, "value").value)
       case OneOfThese =>
         && m.value.Obj? && !Has(m.value.members, "value") && HasArray(m.value.members, "values")
         && row.value == ListText(Lookup(m.value.members, "values").value.items)
       case Range =>
         && m.value.Obj? && !HasValue(m.value.members) && HasBound(m.value.members) && row.value == ""
         && InNumberField(Lookup(m.value.members, "min"), row.min)
         && InNumberField(Lookup(m.value.members, "max"), row.max)
       case Presence =>
         && row.value == ""
         && (m.value.Arr? || (m.value.Obj? && !HasValue(m.value.members) && !HasBound(m.value.members)))
  }

  lemma RowLoads(m: Member)
    ensures PropertyRow(m.name, m.value).Ok? <==> Showable(m.value)
    ensures PropertyRow(m.name, m.value).Err? ==> PropertyRow(m.name, m.value).error == BadConstraint(m.name)
  {
    hide NumberFieldText, ValueText, ListText, Strip, Essential, Lookup, Has;
  }

  lemma PropertyRowShows(m: Member)
    requires PropertyRow(m.name, m.value).Ok?
    ensures RowShows(m, PropertyRow(m.name, m.value).value)
  {
    hide NumberFieldText, ValueText, ListText, InNumberField, Strip, Essential, Ticked, Lookup, Has, OneLine,
         FloatText;
    if m.value.Obj? {
      EssentialTicked(m.value.members);
      NumberFieldShows(Lookup(m.value.members, "min"));
      NumberFieldShows(Lookup(m.value.members, "max"));
    }
  }

  // The entries of a section: the members of an object, the elements of an array or a text by index.
  predicate EntriesAre(v: Option<Json>, ms: seq<Member>) {
    match v
    case Some(Obj(es)) => ms == es
    case Some(Arr(items)) => |ms| == |items| && forall i :: 0 <= i < |ms| ==> ms[i] == Member(Digits(i), items[i])
    case Some(Str(s)) => |ms| == |s| && forall i :: 0 <= i < |ms| ==> ms[i] == Member(Digits(i), Str([s[i]]))
    case _ => ms == []
  }

  lemma EntriesExact(v: Option<Json>)
    ensures EntriesAre(v, Entries(v))
  {
  }

  // The places of the entries that are not called by a name, in order.
  ghost predicate PlacesWithout(ms: seq<Member>, name: string, places: seq<nat>) {
    && (forall i, j :: 0 <= i < j < |places| ==> places[i] < places[j])
    && (forall p :: p in places <==> 0 <= p < |ms| && ms[p].name != name)
  }

  lemma {:induction false} RemoveSnoc(ms: seq<Member>, m: Member, name: string)
    ensures Remove(ms + [m], name) == Remove(ms, name) + if m.name == name then [] else [m]
  {
    if ms == [] {
      assert [] + [m] == [m] && [m][1..] == [];
    } else {
      assert (ms + [m])[0] == ms[0] && (ms + [m])[1..] == ms[1..] + [m];
      RemoveSnoc(ms[1..], m, name);
    }
  }

  lemma PlacesSnoc(ms: seq<Member>, m: Member, name: string, places: seq<nat>)
    requires PlacesWithout(ms, name, places)
    ensures PlacesWithout(ms + [m], name, if m.name == name then places else places + [|ms|])
  {
    var all, out := ms + [m], if m.name == name then places else places + [|ms|];
    assert forall k :: 0 <= k < |places| ==> places[k] in places;
    forall p ensures p in out <==> 0 <= p < |all| && all[p].name != name {
      assert p in out <==> p in places || (m.name != name && p == |ms|);
    }
  }

  // The places that remain, and the members there.
  ghost predicate PlacesOver(ms: seq<Member>, name: string, places: seq<nat>, kept: seq<Member>) {
    && PlacesWithout(ms, name, places) && |places| == |kept|
    && forall k :: 0 <= k < |places| ==> places[k] < |ms| && kept[k] == ms[places[k]]
  }

  lemma OverSnoc(ms: seq<Member>, m: Member, name: string, places: seq<nat>, kept: seq<Member>)
    requires PlacesOver(ms, name, places, kept)
    ensures PlacesOver(ms + [m], name, if m.name == name then places else places + [|ms|],
                       kept + if m.name == name then [] else [m])
  {
    hide PlacesWithout;
    PlacesSnoc(ms, m, name, places);
  }

  lemma {:induction false} RemovePlaces(ms: seq<Member>, name: string) returns (places: seq<nat>)
    ensures PlacesOver(ms, name, places, Remove(ms, name))
  {
    if ms == [] {
      places := [];
    } else {
      var last := |ms| - 1;
      assert ms == ms[..last] + [ms[last]];
      RemoveSnoc(ms[..last], ms[last], name);
      hide Remove, PlacesOver;
      places := RemovePlaces(ms[..last], name);
      OverSnoc(ms[..last], ms[last], name, places, Remove(ms[..last], name));
      places := if ms[last].name == name then places else places + [last];
    }
  }

  lemma {:induction false} PropertyRowsAt(ms: seq<Member>)
    ensures PropertyRows(ms).Ok? <==> forall i :: 0 <= i < |ms| ==> Showable(ms[i].value)
    ensures PropertyRows(ms).Ok? ==> forall i :: 0 <= i < |ms| ==> RowShows(ms[i], PropertyRows(ms).value[i])
    ensures PropertyRows(ms).Err? ==>
              exists i ::
                && 0 <= i < |ms| && !Showable(ms[i].value) && PropertyRows(ms).error == BadConstraint(ms[i].name)
                && forall j :: 0 <= j < i ==> Showable(ms[j].value)
  {
    hide PropertyRow, RowShows, Showable;
    if ms != [] {
      RowLoads(ms[0]);
      if Showable(ms[0].value) { PropertyRowShows(ms[0]); }
      PropertyRowsAt(ms[1..]);
      assert forall i :: 0 < i < |ms| ==> ms[i] == ms[1..][i - 1];
      if PropertyRow(ms[0].name, ms[0].value).Ok? && PropertyRows(ms).Err? {
        var i :| 0 <= i < |ms[1..]| && !Showable(ms[1..][i].value) &&
                 PropertyRows(ms).error == BadConstraint(ms[1..][i].name) &&
                 forall j :: 0 <= j < i ==> Showable(ms[1..][j].value);
        assert forall j :: 0 <= j < i + 1 ==> Showable(ms[j].value);
        assert !Showable(ms[i + 1].value);
      }
    }
  }

  // The rows show the entries of a section, in order, without those called "time" in the metadata.
  ghost predicate RowsShow(v: Option<Json>, metadata: bool, rows: seq<Row>) {
    exists ms: seq<Member>, places: seq<nat> ::
      EntriesAre(v, ms) && PlacesShown(ms, metadata, places) && RowsAt(ms, places, rows)
  }

  ghost predicate PlacesShown(ms: seq<Member>, metadata: bool, places: seq<nat>) {
    if metadata then PlacesWithout(ms, "time", places) else places == seq(|ms|, i => i)
  }

  ghost predicate RowsAt(ms: seq<Member>, places: seq<nat>, rows: seq<Row>) {
    |rows| == |places| && forall k :: 0 <= k < |rows| ==> places[k] < |ms| && RowShows(ms[places[k]], rows[k])
  }

  // A constraint of the section, by its name.
  ghost predicate Entry(v: Option<Json>, metadata: bool, m: Member) {
    !(metadata && m.name == "time") && exists ms: seq<Member> :: EntriesAre(v, ms) && m in ms
  }

  ghost predicate SectionShowable(v: Option<Json>, metadata: bool) {
    forall m :: Entry(v, metadata, m) ==> Showable(m.value)
  }

  function SectionEntries(v: Option<Json>, metadata: bool): seq<Member> {
    if metadata then Remove(Entries(v), "time") else Entries(v)
  }

  lemma EntriesUnique(v: Option<Json>, ms: seq<Member>)
    requires EntriesAre(v, ms)
    ensures ms == Entries(v)
  {
  }

  lemma {:induction false} RemainsIn(ms: seq<Member>, name: string, m: Member)
    ensures m in Remove(ms, name) <==> m in ms && m.name != name
  {
    if ms != [] {
      assert m in ms <==> m == ms[0] || m in ms[1..];
      RemainsIn(ms[1..], name, m);
    }
  }

  lemma EntryIn(v: Option<Json>, metadata: bool, m: Member)
    ensures Entry(v, metadata, m) <==> m in SectionEntries(v, metadata)
  {
    hide Entries, EntriesAre;
    RemainsIn(Entries(v), "time", m);
    EntriesExact(v);
    if ms: seq<Member> :| EntriesAre(v, ms) && m in ms { EntriesUnique(v, ms); }
  }

  lemma RowsInOrder(v: Option<Json>, metadata: bool, rows: seq<Row>)
    requires |rows| == |SectionEntries(v, metadata)|
    requires forall i :: 0 <= i < |rows| ==> RowShows(SectionEntries(v, metadata)[i], rows[i])
    ensures RowsShow(v, metadata, rows)
  {
    hide EntriesAre, RowShows, Entries, PlacesWithout, Remove, PlacesShown;
    EntriesExact(v);
    var places := PlacesOf(Entries(v), metadata);
    assert RowsAt(Entries(v), places, rows);
  }

  lemma PlacesOf(ms: seq<Member>, metadata: bool) returns (places: seq<nat>)
    ensures PlacesShown(ms, metadata, places)
    ensures var shown := if metadata then Remove(ms, "time") else ms;
            |places| == |shown| && forall k :: 0 <= k < |places| ==> places[k] < |ms| && shown[k] == ms[places[k]]
  {
    hide Remove, PlacesWithout;
    if metadata { places := RemovePlaces(ms, "time"); } else { places := seq(|ms|, i => i); }
  }

  lemma SectionLoads(v: Option<Json>, metadata: bool)
    ensures var r := PropertyRows(SectionEntries(v, metadata));
            && (r.Ok? <==> SectionShowable(v, metadata))
            && (r.Ok? ==> RowsShow(v, metadata, r.value))
            && (r.Err? ==> SectionThrows(v, metadata, r.error))
  {
    hide PropertyRows, RowShows, RowsShow, Showable, Entry, SectionEntries, SectionThrows;
    var entries := SectionEntries(v, metadata);
    PropertyRowsAt(entries);
    forall m ensures Entry(v, metadata, m) <==> m in entries { EntryIn(v, metadata, m); }
    assert forall i :: 0 <= i < |entries| ==> entries[i] in entries;
    if PropertyRows(entries).Ok? { RowsInOrder(v, metadata, PropertyRows(entries).value); }
    else { FirstThrows(v, metadata, PropertyRows(entries).error); }
  }

  predicate Counts(m: Member, metadata: bool) { !(metadata && m.name == "time") }

  // The first entry, among those that count, that no row can show.
  ghost predicate FirstBad(ms: seq<Member>, metadata: bool, p: nat) {
    && p < |ms| && Counts(ms[p], metadata) && !Showable(ms[p].value)
    && forall q :: 0 <= q < p && Counts(ms[q], metadata) ==> Showable(ms[q].value)
  }

  // The error of a section: that of its first entry that no row can show.
  ghost predicate SectionThrows(v: Option<Json>, metadata: bool, x: Thrown) {
    exists ms: seq<Member>, p: nat ::
      EntriesAre(v, ms) && FirstBad(ms, metadata, p) && x == BadConstraint(ms[p].name)
  }

  lemma FirstThrows(v: Option<Json>, metadata: bool, x: Thrown)
    requires var shown := SectionEntries(v, metadata);
             exists i ::
               && 0 <= i < |shown| && !Showable(shown[i].value) && x == BadConstraint(shown[i].name)
               && forall j :: 0 <= j < i ==> Showable(shown[j].value)
    ensures SectionThrows(v, metadata, x)
  {
    hide EntriesAre, Entries, PlacesShown, Remove, Showable, FirstBad;
    var ms, shown := Entries(v), SectionEntries(v, metadata);
    EntriesExact(v);
    var i :| 0 <= i < |shown| && !Showable(shown[i].value) && x == BadConstraint(shown[i].name) &&
             forall j :: 0 <= j < i ==> Showable(shown[j].value);
    var places := PlacesOf(ms, metadata);
    BadPlace(ms, metadata, shown, places, i);
  }

  lemma BadPlace(ms: seq<Member>, metadata: bool, shown: seq<Member>, places: seq<nat>, i: nat)
    requires PlacesShown(ms, metadata, places) && |places| == |shown| && i < |shown|
    requires forall k :: 0 <= k < |places| ==> places[k] < |ms| && shown[k] == ms[places[k]]
    requires !Showable(shown[i].value) && forall j :: 0 <= j < i ==> Showable(shown[j].value)
    ensures FirstBad(ms, metadata, places[i])
  {
    hide PlacesShown, Showable, Counts;
    PlacesCount(ms, metadata, places);
    forall q | 0 <= q < places[i] && Counts(ms[q], metadata) ensures Showable(ms[q].value) {
      var k :| 0 <= k < |places| && places[k] == q;
      assert k < i;
      assert shown[k] == ms[q];
    }
  }

  lemma PlacesCount(ms: seq<Member>, metadata: bool, places: seq<nat>)
    requires PlacesShown(ms, metadata, places)
    ensures forall p :: p in places <==> 0 <= p < |ms| && Counts(ms[p], metadata)
    ensures forall i, j :: 0 <= i < j < |places| ==> places[i] < places[j]
    ensures forall i :: 0 <= i < |places| ==> places[i] in places
  {
    if !metadata {
      forall p | 0 <= p < |ms| ensures p in places { assert places[p] == p; }
    }
  }

  // ---------------------------------------------------------------- factors and groups

  // The method that a factor names.
  ghost predicate Names(e: Json, id: Json) {
    && e.Obj?
    && exists ms :: Lookup(e.members, "amr_identifier") == Some(Obj(ms)) && Lookup(ms, "value") == Some(id)
  }

  ghost predicate FactorLoadable(e: Json) {
    && (exists id :: Names(e, id))
    && SectionShowable(Lookup(e.members, "amr_metadata"), true)
    && SectionShowable(Lookup(e.members, "amr_properties"), false)
  }

  // The error of a factor: its method first, then its metadata, then its properties.
  ghost predicate FactorThrows(e: Json, x: Thrown) {
    if !exists id :: Names(e, id) then x == BadMethod
    else
      var metadata, properties := Lookup(e.members, "amr_metadata"), Lookup(e.members, "amr_properties");
      || SectionThrows(metadata, true, x)
      || (SectionShowable(metadata, true) && SectionThrows(properties, false, x))
  }

  ghost predicate IdentifierShows(id: Json, t: string, discovery: Discovery) {
    if id == Null then t == Strip(discovery.defaultId) else exists u :: Written(id, u) && t == Strip(u)
  }

  ghost predicate TimeShows(metadata: Option<Json>, f: Factor) {
    exists time, age ::
      && Selects(metadata, "time", time) && Selects(time, "max_age", age)
      && (f.timeRequested <==> time != None)
      && (f.timeEssential <==> time != None && time.value.Obj? && Ticked(time.value.members, "essential"))
      && InNumberField(age, f.maxAge)
  }

  ghost predicate FactorShows(e: Json, f: Factor, discovery: Discovery) {
    && (exists id :: Names(e, id) && IdentifierShows(id, f.identifier, discovery))
    && TimeShows(Lookup(e.members, "amr_metadata"), f)
    && RowsShow(Lookup(e.members, "amr_metadata"), true, f.metadata)
    && RowsShow(Lookup(e.members, "amr_properties"), false, f.properties)
  }

  lemma SelectsTime(metadata: Option<Json>)
    ensures Selects(metadata, "time", TimeOf(metadata))
    ensures Selects(TimeOf(metadata), "max_age", MaxAgeOf(TimeOf(metadata)))
  {
  }

  lemma TimeLoads(metadata: Option<Json>, f: Factor)
    requires f.timeRequested == TimeOf(metadata).Some?
    requires f.timeEssential == (TimeOf(metadata).Some? && Essential(TimeOf(metadata).value))
    requires f.maxAge == NumberFieldText(MaxAgeOf(TimeOf(metadata)))
    ensures TimeShows(metadata, f)
  {
    hide TimeOf, MaxAgeOf, NumberFieldText, Ticked, Selects, InNumberField, Essential;
    var time := TimeOf(metadata);
    SelectsTime(metadata);
    NumberFieldShows(MaxAgeOf(time));
    if time.Some? {
      if time.value.Obj? { EssentialTicked(time.value.members); }
      else { NotEssential(time.value); }
    }
  }

  lemma NotEssential(v: Json)
    requires !v.Obj?
    ensures !Essential(v)
  {
  }

  lemma FactorLoads(e: Json, discovery: Discovery)
    ensures LoadFactor(e, discovery).Ok? <==> FactorLoadable(e)
    ensures LoadFactor(e, discovery).Ok? ==> FactorShows(e, LoadFactor(e, discovery).value, discovery)
    ensures LoadFactor(e, discovery).Err? ==> FactorThrows(e, LoadFactor(e, discovery).error)
  {
    hide PropertyRows, RowsShow, SectionShowable, SectionThrows, TimeOf, MaxAgeOf, NumberFieldText, DomText, Written,
         Remove, Entries, Essential, Strip, TimeShows, OneLine, FloatText;
    if e.Obj? {
      var id := Lookup(e.members, "amr_identifier");
      if id.Some? && id.value.Obj? && Has(id.value.members, "value") {
        var metadata, properties := Lookup(e.members, "amr_metadata"), Lookup(e.members, "amr_properties");
        SectionLoads(metadata, true);
        SectionLoads(properties, false);
        var v := Lookup(id.value.members, "value").value;
        DomTextWritten(v);
        assert Names(e, v);
        var r := LoadFactor(e, discovery);
        if r.Ok? {
          TimeLoads(metadata, r.value);
          assert IdentifierShows(v, r.value.identifier, discovery);
        }
      }
    }
  }

  // The members of a group, if the expression is one.
  ghost predicate IsGroup(e: Json, op: Operator, items: seq<Json>) {
    && e.Obj?
    && match op
       case AllOf => Lookup(e.members, "all_of") == Some(Arr(items))
       case OneOf =>
         && !(exists all :: Lookup(e.members, "all_of") == Some(Arr(all)))
         && Lookup(e.members, "one_of") == Some(Arr(items))
  }

  // The node shows the expression: a group its children in order, or one new factor when there are none.
  ghost predicate NodeShows(e: Json, n: Node, discovery: Discovery)
    decreases n
  {
    match n
    case Leaf(f) => (forall op, items :: !IsGroup(e, op, items)) && FactorShows(e, f, discovery)
    case Group(op, children) =>
      exists items: seq<Json> ::
        && IsGroup(e, op, items)
        && if items == [] then children == [Leaf(Factor(Strip(discovery.defaultId), true, false, "", [], []))]
           else |children| == |items| && forall i :: 0 <= i < |items| ==> NodeShows(items[i], children[i], discovery)
  }

  lemma GroupSmaller(e: Json, op: Operator, items: seq<Json>)
    requires IsGroup(e, op, items)
    ensures forall i :: 0 <= i < |items| ==> items[i] < e
  {
    LookupSmaller(e.members, OperatorName(op));
    assert Lookup(e.members, OperatorName(op)).value == Arr(items);
  }

  ghost function ItemsIn(e: Json): (r: Option<seq<Json>>)
    ensures r.Some? ==> forall i :: 0 <= i < |r.value| ==> r.value[i] < e
  {
    if op, items :| IsGroup(e, op, items) then
      GroupSmaller(e, op, items);
      Some(items)
    else None
  }

  // Every factor of the expression can be loaded.
  ghost predicate Loadable(e: Json)
    decreases e
  {
    match ItemsIn(e)
    case Some(items) => forall i :: 0 <= i < |items| ==> Loadable(items[i])
    case None => FactorLoadable(e)
  }

  // The error of the first factor, in document order, that cannot be loaded.
  ghost predicate ExpressionThrows(e: Json, x: Thrown)
    decreases e
  {
    match ItemsIn(e)
    case Some(items) =>
      exists i ::
        && 0 <= i < |items| && ExpressionThrows(items[i], x)
        && forall j :: 0 <= j < i ==> Loadable(items[j])
    case None => FactorThrows(e, x)
  }

  lemma OneGroup(e: Json, op: Operator, items: seq<Json>, op': Operator, items': seq<Json>)
    requires IsGroup(e, op, items) && IsGroup(e, op', items')
    ensures op == op' && items == items'
  {
  }

  lemma GroupOf(e: Json)
    ensures e.Obj? && HasArray(e.members, "all_of") ==> IsGroup(e, AllOf, Lookup(e.members, "all_of").value.items)
    ensures e.Obj? && !HasArray(e.members, "all_of") && HasArray(e.members, "one_of") ==>
              IsGroup(e, OneOf, Lookup(e.members, "one_of").value.items)
  {
    hide Lookup, Has;
  }

  lemma AsGroup(e: Json, op: Operator, items: seq<Json>, discovery: Discovery)
    requires IsGroup(e, op, items)
    ensures LoadNode(e, discovery) == LoadGroup(op, items, discovery)
  {
    hide LoadGroup, LoadFactor, Lookup, Has;
    assert e.Obj? && HasArray(e.members, "all_of") ==>
      Lookup(e.members, "all_of") == Some(Arr(Lookup(e.members, "all_of").value.items));
  }

  lemma ItemsOf(e: Json, op: Operator, items: seq<Json>)
    requires IsGroup(e, op, items)
    ensures ItemsIn(e) == Some(items)
  {
    hide Lookup, Has, IsGroup;
    forall op', items' | IsGroup(e, op', items') ensures op == op' && items == items' {
      OneGroup(e, op, items, op', items');
    }
  }

  lemma AsFactor(e: Json, discovery: Discovery)
    requires forall op, items :: !IsGroup(e, op, items)
    ensures LoadNode(e, discovery) == match LoadFactor(e, discovery) case Err(x) => Err(x) case Ok(f) => Ok(Leaf(f))
    ensures ItemsIn(e) == None && (Loadable(e) <==> FactorLoadable(e))
  {
    hide LoadFactor, Lookup, Has, FactorLoadable;
    GroupOf(e);
  }

  // Loading an expression succeeds exactly when every factor in it can be shown, and the node shows it.
  lemma {:induction false} NodeLoads(e: Json, discovery: Discovery)
    ensures LoadNode(e, discovery).Ok? <==> Loadable(e)
    ensures LoadNode(e, discovery).Ok? ==> NodeShows(e, LoadNode(e, discovery).value, discovery)
    ensures LoadNode(e, discovery).Err? ==> ExpressionThrows(e, LoadNode(e, discovery).error)
    decreases e, 1
  {
    hide LoadNode, LoadFactor, LoadList, FactorShows, FactorLoadable, FactorThrows, Strip, IsGroup, ItemsIn;
    if op, items :| IsGroup(e, op, items) {
      AsGroup(e, op, items, discovery);
      ItemsOf(e, op, items);
      GroupSmaller(e, op, items);
      ItemsLoad(items, e, discovery);
    } else {
      AsFactor(e, discovery);
      FactorLoads(e, discovery);
    }
  }

  lemma {:induction false} ItemsLoad(items: seq<Json>, e: Json, discovery: Discovery)
    requires forall i :: 0 <= i < |items| ==> items[i] < e
    ensures LoadList(items, discovery).Ok? <==> forall i :: 0 <= i < |items| ==> Loadable(items[i])
    ensures LoadList(items, discovery).Ok? ==>
              forall i :: 0 <= i < |items| ==> NodeShows(items[i], LoadList(items, discovery).value[i], discovery)
    ensures LoadList(items, discovery).Err? ==>
              exists i ::
                && 0 <= i < |items| && ExpressionThrows(items[i], LoadList(items, discovery).error)
                && forall j :: 0 <= j < i ==> Loadable(items[j])
    decreases e, 0, |items|
  {
    hide LoadNode, Loadable, NodeShows, ExpressionThrows;
    if items != [] {
      NodeLoads(items[0], discovery);
      ItemsLoad(items[1..], e, discovery);
      assert forall i :: 0 < i < |items| ==> items[i] == items[1..][i - 1];
      if LoadNode(items[0], discovery).Ok? && LoadList(items[1..], discovery).Err? {
        var x := LoadList(items[1..], discovery).error;
        var i :| 0 <= i < |items[1..]| && ExpressionThrows(items[1..][i], x) &&
                 forall j :: 0 <= j < i ==> Loadable(items[1..][j]);
        assert ExpressionThrows(items[i + 1], x);
      }
    }
  }

  // ---------------------------------------------------------------- the claims

  // A location of the claims asks for these details.
  ghost predicate Asks(claims: Json, location: string, details: Json) {
    && claims.Obj?
    && exists ms :: Lookup(claims.members, location) == Some(Obj(ms)) && Lookup(ms, "amr_details") == Some(details)
  }

  ghost predicate AsksAt(claims: Json, location: string) { exists d :: Asks(claims, location, d) }

  // The details that a load shows: those of the ID Token, or else those of UserInfo.
  ghost predicate AskedFirst(claims: Json, details: Json) {
    if AsksAt(claims, "id_token") then Asks(claims, "id_token", details) else Asks(claims, "userinfo", details)
  }

  ghost predicate RootsShow(details: Json, roots: seq<Node>, discovery: Discovery) {
    if details.Obj? && exists k :: k in {"all_of", "one_of", "amr_identifier"} && Has(details.members, k) then
      |roots| == 1 && NodeShows(details, roots[0], discovery)
    else roots == []
  }

  // Details that can be shown: null, an array, or an object whose expression, if any, can be loaded.
  ghost predicate DetailsLoadable(details: Json) {
    match details
    case Null => true
    case Arr(_) => true
    case Obj(ms) => (exists k :: k in {"all_of", "one_of", "amr_identifier"} && Has(ms, k)) ==> Loadable(details)
    case _ => false
  }

  // What a load makes of a form. The tree is emptied before the details are looked at, and filled
  // before any switch is set.
  ghost predicate LoadShows(before: Form, claims: Json, discovery: Discovery, after: Form, error: Option<Thrown>) {
    if claims.Null? then error == Some(NotAnObject) && after == before
    else if !(AsksAt(claims, "id_token") || AsksAt(claims, "userinfo")) then error == Some(NoDetails) && after == before
    else
      exists details :: AskedFirst(claims, details) &&
        if !DetailsLoadable(details) then
          && after == before.(roots := []) && error.Some?
          && if details.Obj? then ExpressionThrows(details, error.value) else error.value == BadDetails
        else
          exists roots :: RootsShow(details, roots, discovery) &&
            if NodesShown(roots, discovery) then
              && error == None && after.roots == roots && after.rootOperator == before.rootOperator
              && (after.claimEssential <==> details.Obj? && Ticked(details.members, "essential"))
              && (after.idToken <==> AsksAt(claims, "id_token")) && (after.userinfo <==> AsksAt(claims, "userinfo"))
            else error == Some(BadSuggestions) && after == before.(roots := Placed(roots, discovery))
  }

  lemma AsksExact(claims: Json, location: string)
    ensures AsksAt(claims, location) <==> claims.Obj? && Requests(claims.members, location)
    ensures AsksAt(claims, location) ==> Asks(claims, location, DetailsAt(claims.members, location))
  {
    hide Lookup, Has;
    if claims.Obj? && Requests(claims.members, location) {
      var ms, d := Lookup(claims.members, location).value.members, DetailsAt(claims.members, location);
      assert Lookup(claims.members, location) == Some(Obj(ms)) && Lookup(ms, "amr_details") == Some(d);
      assert Asks(claims, location, d);
    }
    forall d | Asks(claims, location, d) ensures Requests(claims.members, location) {
      var ms :| Lookup(claims.members, location) == Some(Obj(ms)) && Lookup(ms, "amr_details") == Some(d);
    }
  }

  lemma RootsLoad(details: Json, discovery: Discovery)
    requires details.Obj?
    ensures LoadRoots(details, discovery).Ok? <==> DetailsLoadable(details)
    ensures LoadRoots(details, discovery).Ok? ==> RootsShow(details, LoadRoots(details, discovery).value, discovery)
    ensures LoadRoots(details, discovery).Err? ==> ExpressionThrows(details, LoadRoots(details, discovery).error)
  {
    hide LoadNode, Loadable, NodeShows, Has, ExpressionThrows;
    NodeLoads(details, discovery);
    HasOne(details.members);
  }

  lemma HasOne(ms: seq<Member>)
    ensures HasExpression(ms) <==> exists k :: k in {"all_of", "one_of", "amr_identifier"} && Has(ms, k)
  {
    hide Has;
    if HasExpression(ms) {
      assert "all_of" in {"all_of", "one_of", "amr_identifier"} && "one_of" in {"all_of", "one_of", "amr_identifier"}
        && "amr_identifier" in {"all_of", "one_of", "amr_identifier"};
    }
  }

  lemma LoadExact(form: Form, claims: Json, discovery: Discovery)
    ensures var l := LoadClaims(form, claims, discovery);
            LoadShows(form, claims, discovery, l.form, l.error)
  {
    hide Lookup, Has, LoadRoots, NodesShown, Placed, Essential, Ticked, Requests, Asks, RootsShow, DetailsAt,
         ExpressionThrows;
    AsksExact(claims, "id_token");
    AsksExact(claims, "userinfo");
    if claims.Obj? && (Requests(claims.members, "id_token") || Requests(claims.members, "userinfo")) {
      var inToken := Requests(claims.members, "id_token");
      var details := DetailsAt(claims.members, if inToken then "id_token" else "userinfo");
      assert AskedFirst(claims, details);
      if details.Obj? {
        RootsLoad(details, discovery);
        EssentialTicked(details.members);
      } else {
        NoRoots(details, discovery);
      }
    }
  }

  lemma NoRoots(details: Json, discovery: Discovery)
    requires !details.Obj?
    ensures RootsShow(details, [], discovery) && NodesShown([], discovery)
  {
  }
}
