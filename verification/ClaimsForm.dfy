// The request builder of the workbench page: a form of factors and nested groups, the Claim
// Request Object it is built into, and the form a Claim Request Object is loaded into.
module ClaimsForm {
  import opened Wrappers
  import opened Decimals
  import opened Json
  import opened JsonText
  import opened TextFields
  import opened Scalars

  // ---------------------------------------------------------------- the form

  // A number input holds a valid floating-point text or nothing: the browser blanks the rest.
  predicate FloatText(t: string) { ScanNumber(t).Scanned? && ScanNumber(t).rest == "" }

  type NumberField = t: string | t == "" || FloatText(t) witness ""

  function FieldNumber(t: NumberField): Number
    requires t != ""
  {
    ScanNumber(t).number
  }

  datatype Mode = Requested | Exact | OneOfThese | Range | Presence

  datatype Row = Row(name: TextField, mode: Mode, value: TextField, min: NumberField, max: NumberField, essential: bool)

  datatype Factor = Factor(
    identifier: TextField,
    timeRequested: bool,
    timeEssential: bool,
    maxAge: NumberField,
    metadata: seq<Row>,
    properties: seq<Row>)

  datatype Operator = AllOf | OneOf

  datatype Node = Leaf(factor: Factor) | Group(op: Operator, children: seq<Node>)

  datatype Form = Form(roots: seq<Node>, rootOperator: Operator, claimEssential: bool, idToken: bool, userinfo: bool)

  // The errors the page throws, one per message.
  datatype Thrown =
    | NeedsValue(name: string)
    | NeedsList(name: string)
    | NeedsBound(name: string)
    | NeedsIdentifier
    | BadMaximumAge
    | NeedsRowName
    | TimeIsNotARow
    | EmptyGroup
    | NoDelivery
    | NotJson
    | NotAnObject
    | NoDetails
    | BadDetails
    | BadConstraint(name: string)
    | BadMethod
    | BadSuggestions

  function OperatorName(op: Operator): string { if op == AllOf then "all_of" else "one_of" }

  // ---------------------------------------------------------------- building

  function Flag(essential: bool): seq<Member> {
    if essential then [Member("essential", Bool(true))] else []
  }

  // constraintValue
  function ConstraintValue(row: Row, name: string): Result<Json, Thrown> {
    match row.mode
    case Requested => Ok(Null)
    case Exact =>
      (match ParseScalar(row.value)
       case None => Err(NeedsValue(name))
       case Some(v) => Ok(Obj(Flag(row.essential) + [Member("value", v)])))
    case OneOfThese =>
      (match ParseList(row.value)
       case None => Err(NeedsList(name))
       case Some(vs) => Ok(Obj(Flag(row.essential) + [Member("values", Arr(vs))])))
    case Range =>
      if row.min == "" && row.max == "" then Err(NeedsBound(name))
      else Ok(Obj(Flag(row.essential) + Bound("min", row.min) + Bound("max", row.max)))
    case Presence => Ok(Obj(Flag(row.essential)))
  }

  function Bound(name: string, t: NumberField): seq<Member> {
    if t == "" then [] else [Member(name, Num(FieldNumber(t)))]
  }

  // The object that rows are assigned to: its own members, and whether its prototype is null.
  datatype Target = Target(members: seq<Member>, bare: bool)

  // Assignment of null or an object to a member. "__proto__" names the prototype, so no member
  // appears; an object without a prototype has no such setter, and there the name is ordinary.
  function Assign(t: Target, name: string, value: Json): Target {
    if name == "__proto__" && !t.bare then t.(bare := value.Null?) else t.(members := Put(t.members, name, value))
  }

  function AddRow(t: Target, row: Row, metadata: bool): Result<Target, Thrown> {
    var name := Trim(row.name);
    if name == "" then Err(NeedsRowName)
    else if metadata && name == "time" then Err(TimeIsNotARow)
    else
      match ConstraintValue(row, name)
      case Err(e) => Err(e)
      case Ok(v) => Ok(Assign(t, name, v))
  }

  // The rows in order; the first bad row throws, and a repeated name keeps its last value.
  function AddRows(t: Target, rows: seq<Row>, metadata: bool): Result<Target, Thrown>
    decreases |rows|
  {
    if rows == [] then Ok(t)
    else
      match AddRow(t, rows[0], metadata)
      case Err(e) => Err(e)
      case Ok(t') => AddRows(t', rows[1..], metadata)
  }

  // The members of a section: an object with a prototype, the start members, then the rows.
  function SectionRows(start: seq<Member>, rows: seq<Row>, metadata: bool): Result<seq<Member>, Thrown> {
    match AddRows(Target(start, false), rows, metadata)
    case Err(e) => Err(e)
    case Ok(t) => Ok(t.members)
  }

  // The "time" member of the metadata, if the factor asks for one.
  function TimeMembers(f: Factor): Result<seq<Member>, Thrown> {
    if !f.timeRequested && f.maxAge == "" then Ok([])
    else if f.maxAge != "" && (!FieldNumber(f.maxAge).IsInteger() || FieldNumber(f.maxAge).neg) then Err(BadMaximumAge)
    else
      var time := Flag(f.timeEssential) + Bound("max_age", f.maxAge);
      Ok([Member("time", if time == [] then Null else Obj(time))])
  }

  // A member that is left out when its object is empty.
  function Section(name: string, ms: seq<Member>): seq<Member> {
    if ms == [] then [] else [Member(name, Obj(ms))]
  }

  // factorExpression
  function FactorMembers(f: Factor): Result<seq<Member>, Thrown> {
    var id := Trim(f.identifier);
    if id == "" then Err(NeedsIdentifier)
    else
      match TimeMembers(f)
      case Err(e) => Err(e)
      case Ok(time) =>
        match SectionRows(time, f.metadata, true)
        case Err(e) => Err(e)
        case Ok(metadata) =>
          match SectionRows([], f.properties, false)
          case Err(e) => Err(e)
          case Ok(properties) =>
            Ok(Identifier(id) + Section("amr_metadata", metadata) + Section("amr_properties", properties))
  }

  function Identifier(id: string): seq<Member> {
    [Member("amr_identifier", Obj([Member("value", Str(id))]))]
  }

  // nodeExpression, as the members of the object it returns
  function NodeMembers(n: Node): Result<seq<Member>, Thrown> {
    match n
    case Leaf(f) => FactorMembers(f)
    case Group(op, children) =>
      if children == [] then Err(EmptyGroup)
      else
        match NodeList(children)
        case Err(e) => Err(e)
        case Ok(items) => Ok([Member(OperatorName(op), Arr(items))])
  }

  function NodeList(ns: seq<Node>): (r: Result<seq<Json>, Thrown>)
    ensures r.Ok? ==> |r.value| == |ns|
  {
    if ns == [] then Ok([])
    else
      match NodeMembers(ns[0])
      case Err(e) => Err(e)
      case Ok(ms) =>
        match NodeList(ns[1..])
        case Err(e) => Err(e)
        case Ok(items) => Ok([Obj(ms)] + items)
  }

  // The members of amr_details. A single root is merged in; several are put under the operator.
  function Details(form: Form): Result<seq<Member>, Thrown> {
    var flag := Flag(form.claimEssential);
    if form.roots == [] then Ok(flag)
    else if |form.roots| == 1 then
      match NodeMembers(form.roots[0])
      case Err(e) => Err(e)
      case Ok(ms) => Ok(Collect(flag, ms))
    else
      match NodeList(form.roots)
      case Err(e) => Err(e)
      case Ok(items) => Ok(Put(flag, OperatorName(form.rootOperator), Arr(items)))
  }

  function Delivery(selected: bool, location: string, details: Json): seq<Member> {
    if selected then [Member(location, Obj([Member("amr_details", details)]))] else []
  }

  // buildClaims
  function BuildClaims(form: Form): Result<Json, Thrown> {
    match Details(form)
    case Err(e) => Err(e)
    case Ok(ms) => Ok(Claims(form.idToken, form.userinfo, if ms == [] then Null else Obj(ms)))
  }

  function Claims(idToken: bool, userinfo: bool, details: Json): Json {
    Obj(Delivery(idToken, "id_token", details) + Delivery(userinfo, "userinfo", details))
  }

  // applyBuilder: the JSON written to the text area, indented by two spaces
  function BuiltText(form: Form): Result<string, Thrown> {
    if !form.idToken && !form.userinfo then Err(NoDelivery)
    else
      match BuildClaims(form)
      case Err(e) => Err(e)
      case Ok(c) => Ok(Print(c, "  ", ""))
  }

  // ---------------------------------------------------------------- loading

  predicate Truthy(v: Json) {
    match v
    case Null => false
    case Bool(b) => b
    case Num(n) => n.mantissa != 0
    case Str(s) => s != ""
    case Arr(_) => true
    case Obj(_) => true
  }

  // What the page knows of the issuer: the method it suggests, and the methods for which the issuer
  // advertises a property, or a metadata member, that is called "constructor".
  datatype Discovery = Discovery(defaultId: string, ownProperties: set<string>, ownMetadata: set<string>)

  // The text an input is given for a JSON value: String(v).
  function DomText(v: Json): string {
    match v
    case Null => "null"
    case Bool(b) => if b then "true" else "false"
    case Num(n) => NumberText(n)
    case Str(s) => s
    case Arr(items) => DomTexts(items)
    case Obj(_) => "[object Object]"
  }

  function DomTexts(items: seq<Json>): string {
    if items == [] then ""
    else
      var first := if items[0].Null? then "" else DomText(items[0]);
      if |items| == 1 then first else first + "," + DomTexts(items[1..])
  }

  // v ?? fallback, as a text
  function FieldText(v: Option<Json>, fallback: string): string {
    if v.None? || v.value.Null? then fallback else DomText(v.value)
  }

  function NumberFieldText(v: Option<Json>): NumberField {
    var t := FieldText(v, "");
    if FloatText(t) then t else ""
  }

  function Essential(v: Json): bool {
    v.Obj? && Has(v.members, "essential") && Truthy(Lookup(v.members, "essential").value)
  }

  // propertyModel, followed by the row that addConstraint makes of it
  function PropertyRow(name: string, c: Json): Result<Row, Thrown> {
    match c
    case Null => Ok(Row(Strip(name), Requested, "", "", "", false))
    case Arr(_) => Ok(Row(Strip(name), Presence, "", "", "", false))
    case Obj(ms) =>
      if Has(ms, "value") then
        Ok(Row(Strip(name), Exact, ValueText(Lookup(ms, "value").value), "", "", Essential(c)))
      else if Has(ms, "values") then
        var vs := Lookup(ms, "values").value;
        if vs.Arr? then Ok(Row(Strip(name), OneOfThese, ListText(vs.items), "", "", Essential(c)))
        else Err(BadConstraint(name))
      else if Has(ms, "min") || Has(ms, "max") then
        var low, high := NumberFieldText(Lookup(ms, "min")), NumberFieldText(Lookup(ms, "max"));
        Ok(Row(Strip(name), Range, "", low, high, Essential(c)))
      else Ok(Row(Strip(name), Presence, "", "", "", Essential(c)))
    case _ => Err(BadConstraint(name))
  }

  function PropertyRows(ms: seq<Member>): (r: Result<seq<Row>, Thrown>)
    ensures r.Ok? ==> |r.value| == |ms|
  {
    if ms == [] then Ok([])
    else
      match PropertyRow(ms[0].name, ms[0].value)
      case Err(e) => Err(e)
      case Ok(row) =>
        match PropertyRows(ms[1..])
        case Err(e) => Err(e)
        case Ok(rows) => Ok([row] + rows)
  }

  // Object.entries(v || {})
  function Entries(v: Option<Json>): seq<Member> {
    if v.None? || !Truthy(v.value) then []
    else
      match v.value
      case Obj(ms) => ms
      case Arr(items) => seq(|items|, i requires 0 <= i < |items| => Member(Digits(i), items[i]))
      case Str(s) => seq(|s|, i requires 0 <= i < |s| => Member(Digits(i), Str([s[i]])))
      case _ => []
  }

  // metadata && metadata.time; None is undefined
  function TimeOf(metadata: Option<Json>): Option<Json> {
    if metadata.None? || !Truthy(metadata.value) then metadata
    else if metadata.value.Obj? then Lookup(metadata.value.members, "time")
    else None
  }

  // time && time.max_age
  function MaxAgeOf(time: Option<Json>): Option<Json> {
    if time.None? || !Truthy(time.value) then time
    else if time.value.Obj? then Lookup(time.value.members, "max_age")
    else None
  }

  // factorModel, followed by the factor that addFactor makes of it
  function LoadFactor(e: Json, discovery: Discovery): Result<Factor, Thrown> {
    if !e.Obj? then Err(BadMethod)
    else
      var id := Lookup(e.members, "amr_identifier");
      if id.None? || !id.value.Obj? || !Has(id.value.members, "value") then Err(BadMethod)
      else
        var metadata := Lookup(e.members, "amr_metadata");
        var time := TimeOf(metadata);
        match PropertyRows(Remove(Entries(metadata), "time"))
        case Err(x) => Err(x)
        case Ok(metadataRows) =>
          match PropertyRows(Entries(Lookup(e.members, "amr_properties")))
          case Err(x) => Err(x)
          case Ok(propertyRows) =>
            Ok(Factor(Strip(FieldText(Lookup(id.value.members, "value"), discovery.defaultId)),
                      time.Some?,
                      time.Some? && Essential(time.value),
                      NumberFieldText(MaxAgeOf(time)),
                      metadataRows,
                      propertyRows))
  }

  // addFactor({}): what a new factor and the child of an empty group look like
  function DefaultFactor(discovery: Discovery): Factor {
    Factor(Strip(discovery.defaultId), true, false, "", [], [])
  }

  predicate HasArray(ms: seq<Member>, name: string) { Has(ms, name) && Lookup(ms, name).value.Arr? }

  lemma LookupSmaller(ms: seq<Member>, name: string)
    requires Has(ms, name)
    ensures Lookup(ms, name).value < Obj(ms)
    ensures WellFormed(Obj(ms)) ==> WellFormed(Lookup(ms, name).value)
  {
    var v := Lookup(ms, name).value;
    var i :| 0 <= i < |ms| && ms[i] == Member(name, v);
  }

  // expressionModel, as the node that appendNode makes of it when no suggestion gets in the way
  function LoadNode(e: Json, discovery: Discovery): Result<Node, Thrown>
    decreases e
  {
    if e.Obj? && HasArray(e.members, "all_of") then
      LookupSmaller(e.members, "all_of");
      LoadGroup(AllOf, Lookup(e.members, "all_of").value.items, discovery)
    else if e.Obj? && HasArray(e.members, "one_of") then
      LookupSmaller(e.members, "one_of");
      LoadGroup(OneOf, Lookup(e.members, "one_of").value.items, discovery)
    else
      match LoadFactor(e, discovery)
      case Err(x) => Err(x)
      case Ok(f) => Ok(Leaf(f))
  }

  function LoadGroup(op: Operator, items: seq<Json>, discovery: Discovery): Result<Node, Thrown>
    decreases items, 1
  {
    if items == [] then Ok(Group(op, [Leaf(DefaultFactor(discovery))]))
    else
      match LoadList(items, discovery)
      case Err(x) => Err(x)
      case Ok(ns) => Ok(Group(op, ns))
  }

  function LoadList(items: seq<Json>, discovery: Discovery): (r: Result<seq<Node>, Thrown>)
    ensures r.Ok? ==> |r.value| == |items|
    decreases items, 0
  {
    if items == [] then Ok([])
    else
      match LoadNode(items[0], discovery)
      case Err(x) => Err(x)
      case Ok(n) =>
        match LoadList(items[1..], discovery)
        case Err(x) => Err(x)
        case Ok(ns) => Ok([n] + ns)
  }

  // A location that requests amr_details.
  predicate Requests(claims: seq<Member>, location: string) {
    && Has(claims, location)
    && Lookup(claims, location).value.Obj?
    && Has(Lookup(claims, location).value.members, "amr_details")
  }

  function DetailsAt(claims: seq<Member>, location: string): Json
    requires Requests(claims, location)
  {
    Lookup(Lookup(claims, location).value.members, "amr_details").value
  }

  // ---------------------------------------------------------------- suggestions

  // Adding a row looks its name up among the advertised ones to list the suggested values. The
  // lookup of "constructor" finds a function when the issuer does not advertise that name, and
  // listing the values of a function throws.
  predicate RowShown(row: Row, advertised: bool) { Trim(row.name) == "constructor" ==> advertised }

  predicate RowsShown(rows: seq<Row>, advertised: bool) { forall r :: r in rows ==> RowShown(r, advertised) }

  predicate FactorShown(f: Factor, discovery: Discovery) {
    var id := Trim(f.identifier);
    RowsShown(f.metadata, id in discovery.ownMetadata) && RowsShown(f.properties, id in discovery.ownProperties)
  }

  // appendNode succeeds for a node and all its descendants.
  predicate NodeShown(n: Node, discovery: Discovery)
    decreases n
  {
    match n
    case Leaf(f) => FactorShown(f, discovery)
    case Group(_, children) => NodesShown(children, discovery)
  }

  predicate NodesShown(ns: seq<Node>, discovery: Discovery)
    decreases ns
  {
    ns == [] || (NodeShown(ns[0], discovery) && NodesShown(ns[1..], discovery))
  }

  // What stands in the container after appending nodes one by one until one fails: a group is put
  // there before its children, a factor after its rows.
  function Placed(ns: seq<Node>, discovery: Discovery): seq<Node>
    decreases ns, 0
  {
    if ns == [] then []
    else if NodeShown(ns[0], discovery) then [ns[0]] + Placed(ns[1..], discovery)
    else Fragment(ns[0], discovery)
  }

  // What a failing node leaves.
  function Fragment(n: Node, discovery: Discovery): seq<Node>
    decreases n, 1
  {
    match n
    case Leaf(_) => []
    case Group(op, children) => [Group(op, Placed(children, discovery))]
  }

  lemma {:induction false} PlacedAll(ns: seq<Node>, discovery: Discovery)
    requires NodesShown(ns, discovery)
    ensures Placed(ns, discovery) == ns
    decreases ns
  {
    if ns != [] {
      PlacedAll(ns[1..], discovery);
      assert ns == [ns[0]] + ns[1..];
    }
  }

  // ---------------------------------------------------------------- loading the claims

  // The form after loading, and the error shown if the load was cut short.
  datatype Loaded = Loaded(form: Form, error: Option<Thrown>)

  // loadJson after JSON.parse. The root is emptied before the details are looked at, so an error
  // in them leaves an empty expression and untouched options; an error from a suggestion leaves
  // the nodes that were placed before it.
  function LoadClaims(form: Form, claims: Json, discovery: Discovery): Loaded {
    if claims.Null? then Loaded(form, Some(NotAnObject))
    else if !claims.Obj? || !(Requests(claims.members, "id_token") || Requests(claims.members, "userinfo")) then
      Loaded(form, Some(NoDetails))
    else
      var inToken, inUser := Requests(claims.members, "id_token"), Requests(claims.members, "userinfo");
      var details := DetailsAt(claims.members, if inToken then "id_token" else "userinfo");
      var empty := form.(roots := []);
      match details
      case Null => Loaded(empty.(claimEssential := false, idToken := inToken, userinfo := inUser), None)
      case Arr(_) => Loaded(empty.(claimEssential := false, idToken := inToken, userinfo := inUser), None)
      case Obj(ms) =>
        (match LoadRoots(details, discovery)
         case Err(x) => Loaded(empty, Some(x))
         case Ok(roots) =>
           if !NodesShown(roots, discovery) then
             Loaded(form.(roots := Placed(roots, discovery)), Some(BadSuggestions))
           else
             Loaded(form.(roots := roots, claimEssential := Essential(details), idToken := inToken, userinfo := inUser),
                    None))
      case _ => Loaded(empty, Some(BadDetails))
  }

  predicate HasExpression(ms: seq<Member>) { Has(ms, "all_of") || Has(ms, "one_of") || Has(ms, "amr_identifier") }

  function LoadRoots(details: Json, discovery: Discovery): Result<seq<Node>, Thrown>
    requires details.Obj?
  {
    if !HasExpression(details.members) then Ok([])
    else
      match LoadNode(details, discovery)
      case Err(x) => Err(x)
      case Ok(n) => Ok([n])
  }

  // loadJson
  function LoadText(form: Form, text: string, discovery: Discovery): Loaded {
    match Parse(text)
    case None => Loaded(form, Some(NotJson))
    case Some(claims) => LoadClaims(form, claims, discovery)
  }
}
