// The workbench page as an object: the form, the text area and the last alert, with the buttons
// that change them in place.
module Workbench {
  import opened Wrappers
  import opened Decimals
  import opened Json
  import opened JsonText
  import opened TextFields
  import opened Scalars
  import opened ClaimsForm
  import opened Truth
  import opened Tree
  import opened Building
  import opened Loading

  // ---------------------------------------------------------------- building, step by step

  // factorExpression: the rows are added one by one to local objects.
  method FactorExpression(f: Factor) returns (r: Result<Json, Thrown>)
    ensures r == match FactorMembers(f) case Err(e) => Err(e) case Ok(ms) => Ok(Obj(ms))
  {
    var id := Trim(f.identifier);
    if id == "" { return Err(NeedsIdentifier); }
    var time := TimeMembers(f);
    if time.Err? { return Err(time.error); }
    var metadata := AddSection(time.value, f.metadata, true);
    if metadata.Err? { return Err(metadata.error); }
    var properties := AddSection([], f.properties, false);
    if properties.Err? { return Err(properties.error); }
    var expression := Identifier(id);
    if metadata.value != [] { expression := expression + [Member("amr_metadata", Obj(metadata.value))]; }
    else { assert expression + [] == expression; }
    if properties.value != [] { expression := expression + [Member("amr_properties", Obj(properties.value))]; }
    else { assert expression + [] == expression; }
    return Ok(Obj(expression));
  }

  // The forEach over the rows of a section.
  method AddSection(start: seq<Member>, rows: seq<Row>, metadata: bool) returns (r: Result<seq<Member>, Thrown>)
    ensures r == SectionRows(start, rows, metadata)
  {
    var t := Target(start, false);
    for i := 0 to |rows|
      invariant AddRows(Target(start, false), rows, metadata) == AddRows(t, rows[i..], metadata)
    {
      assert rows[i..][0] == rows[i] && rows[i..][1..] == rows[i + 1..];
      var row := rows[i];
      var name := Trim(row.name);
      if name == "" { return Err(NeedsRowName); }
      if metadata && name == "time" { return Err(TimeIsNotARow); }
      var value := ConstraintValue(row, name);
      if value.Err? { return Err(value.error); }
      t := Assign(t, name, value.value);
    }
    assert rows[|rows|..] == [];
    return Ok(t.members);
  }

  // nodeExpression: children.map(nodeExpression) in document order.
  method NodeExpression(n: Node) returns (r: Result<Json, Thrown>)
    ensures r == match NodeMembers(n) case Err(e) => Err(e) case Ok(ms) => Ok(Obj(ms))
    decreases n, 0
  {
    match n {
      case Leaf(f) => r := FactorExpression(f);
      case Group(op, children) =>
        if children == [] { return Err(EmptyGroup); }
        var items := NodeExpressions(children);
        if items.Err? { return Err(items.error); }
        return Ok(Obj([Member(OperatorName(op), Arr(items.value))]));
    }
  }

  method NodeExpressions(ns: seq<Node>) returns (r: Result<seq<Json>, Thrown>)
    ensures r == NodeList(ns)
    decreases ns, 1
  {
    var items: seq<Json> := [];
    assert ns[0..] == ns;
    PrefixedNone(NodeList(ns));
    for i := 0 to |ns|
      invariant NodeList(ns) == Prefixed(items, NodeList(ns[i..]))
    {
      assert ns[i..][0] == ns[i] && ns[i..][1..] == ns[i + 1..];
      var e := NodeExpression(ns[i]);
      if e.Err? { return Err(e.error); }
      PrefixedStep(items, e.value, NodeList(ns[i + 1..]));
      items := items + [e.value];
    }
    assert ns[|ns|..] == [] && items + [] == items;
    return Ok(items);
  }

  function Prefixed(items: seq<Json>, r: Result<seq<Json>, Thrown>): Result<seq<Json>, Thrown> {
    match r
    case Err(e) => Err(e)
    case Ok(later) => Ok(items + later)
  }

  lemma PrefixedNone(r: Result<seq<Json>, Thrown>)
    ensures Prefixed([], r) == r
  {
    if r.Ok? { assert [] + r.value == r.value; }
  }

  lemma PrefixedStep(items: seq<Json>, v: Json, r: Result<seq<Json>, Thrown>)
    ensures Prefixed(items + [v], r) == Prefixed(items, Prefixed([v], r))
  {
    if r.Ok? { assert items + [v] + r.value == items + ([v] + r.value); }
  }

  // ---------------------------------------------------------------- appending, node by node

  // appendNode: a group stands in its container before its children are appended, a factor only
  // after its rows; the first row whose suggestions cannot be listed ends everything.
  method AppendNode(container: seq<Node>, n: Node, discovery: Discovery) returns (after: seq<Node>, ok: bool)
    ensures ok == NodeShown(n, discovery)
    ensures after == container + if ok then [n] else Fragment(n, discovery)
    decreases n, 0
  {
    hide FactorShown;
    match n {
      case Leaf(f) =>
        ok := FactorShown(f, discovery);
        after := if ok then container + [n] else container;
        assert container + [] == container;
      case Group(op, nodes) =>
        var children;
        children, ok := AppendNodes(nodes, discovery);
        if ok { PlacedAll(nodes, discovery); }
        after := container + [Group(op, children)];
    }
  }

  // The children of a group, in order.
  method AppendNodes(nodes: seq<Node>, discovery: Discovery) returns (children: seq<Node>, ok: bool)
    ensures ok == NodesShown(nodes, discovery)
    ensures children == Placed(nodes, discovery)
    decreases nodes, 1
  {
    hide NodeShown, NodesShown, Placed, Fragment;
    children, ok := [], true;
    AllPlaced(nodes, discovery);
    for i := 0 to |nodes|
      invariant ok && children == nodes[..i]
      invariant NodesShown(nodes, discovery) <==> NodesShown(nodes[i..], discovery)
      invariant Placed(nodes, discovery) == nodes[..i] + Placed(nodes[i..], discovery)
    {
      PlacedFrom(nodes, i, discovery);
      children, ok := AppendNode(children, nodes[i], discovery);
      if !ok { return; }
    }
  }

  lemma AllPlaced(nodes: seq<Node>, discovery: Discovery)
    ensures nodes[..0] == [] && nodes[0..] == nodes && nodes[..|nodes|] == nodes && nodes[|nodes|..] == []
    ensures [] + Placed(nodes, discovery) == Placed(nodes, discovery)
    ensures NodesShown([], discovery) && nodes + Placed([], discovery) == nodes
  {
  }

  lemma PlacedFrom(nodes: seq<Node>, i: nat, discovery: Discovery)
    requires i < |nodes|
    ensures NodesShown(nodes[i..], discovery) <==>
            NodeShown(nodes[i], discovery) && NodesShown(nodes[i + 1..], discovery)
    ensures nodes[..i + 1] == nodes[..i] + [nodes[i]]
    ensures nodes[..i] + Placed(nodes[i..], discovery) ==
            if NodeShown(nodes[i], discovery) then nodes[..i + 1] + Placed(nodes[i + 1..], discovery)
            else nodes[..i] + Fragment(nodes[i], discovery)
  {
    hide NodeShown, Fragment;
    assert nodes[i..][0] == nodes[i] && nodes[i..][1..] == nodes[i + 1..];
  }

  lemma OneRoot(n: Node, discovery: Discovery)
    ensures NodesShown([n], discovery) <==> NodeShown(n, discovery)
    ensures !NodeShown(n, discovery) ==> Placed([n], discovery) == Fragment(n, discovery)
  {
    assert [n][1..] == [];
  }

  // ---------------------------------------------------------------- the page

  class Page {
    var roots: seq<Node>
    var rootOperator: Operator
    var claimEssential: bool
    var idToken: bool
    var userinfo: bool
    var text: string
    var alert: Option<Thrown>

    function View(): Form
      reads this
    {
      Form(roots, rootOperator, claimEssential, idToken, userinfo)
    }

    // The page before the first preset: one delivery in each location, nothing in the tree.
    constructor (rawClaims: string)
      ensures View() == Form([], AllOf, true, true, true) && text == rawClaims && alert == None
    {
      roots, rootOperator, claimEssential, idToken, userinfo := [], AllOf, true, true, true;
      text, alert := rawClaims, None;
    }

    // addFactor and addGroup with an empty model, in the container at a path.
    method AddFactor(at: Path, discovery: Discovery)
      modifies this`roots
      ensures Appended(old(roots), roots, at, Leaf(DefaultFactor(discovery)))
    {
      AppendExact(roots, at, Leaf(DefaultFactor(discovery)));
      roots := AppendIn(roots, at, Leaf(DefaultFactor(discovery)));
    }

    method AddGroup(at: Path, op: Operator, discovery: Discovery)
      modifies this`roots
      ensures Appended(old(roots), roots, at, Group(op, [Leaf(DefaultFactor(discovery))]))
    {
      AppendExact(roots, at, Group(op, [Leaf(DefaultFactor(discovery))]));
      roots := AppendIn(roots, at, Group(op, [Leaf(DefaultFactor(discovery))]));
    }

    method RemoveNode(at: Path)
      modifies this`roots
      ensures Removed(old(roots), roots, at)
    {
      RemoveExact(roots, at);
      roots := RemoveIn(roots, at);
    }

    // The move buttons: two siblings trade places, and the request keeps its factors and its meaning.
    method Move(m: Move)
      modifies this`roots
      ensures Moved(old(roots), roots, m)
      ensures roots == ApplyMove(old(roots), m)
      ensures LeavesOf(roots) == LeavesOf(old(roots))
      ensures forall truth: Factor -> bool ::
                SatisfiedAll(roots, rootOperator, truth) <==> SatisfiedAll(old(roots), rootOperator, truth)
    {
      ghost var before := roots;
      MoveExact(roots, m);
      roots := ApplyMove(roots, m);
      forall truth: Factor -> bool
        ensures LeavesOf(roots) == LeavesOf(before)
        ensures SatisfiedAll(roots, rootOperator, truth) <==> SatisfiedAll(before, rootOperator, truth)
      {
        MoveKeeps(before, m.at, m.Up?, rootOperator, truth);
      }
      MoveKeeps(before, m.at, m.Up?, rootOperator, f => true);
    }

    // buildClaims: the details, then the claims, are filled in step by step.
    method Build() returns (r: Result<Json, Thrown>)
      ensures r == BuildClaims(View())
      ensures match r case Err(e) => FormFails(View(), e) case Ok(c) => ClaimsBuild(View(), c)
    {
      hide NodeMembers, NodeList, Print, FormFails, ClaimsBuild;
      FormExact(View());
      var details := Flag(claimEssential);
      if |roots| == 1 {
        var e := NodeExpression(roots[0]);
        if e.Err? { return Err(e.error); }
        details := Collect(details, e.value.members);
      }
      if |roots| > 1 {
        var items := NodeExpressions(roots);
        if items.Err? { return Err(items.error); }
        details := Put(details, OperatorName(rootOperator), Arr(items.value));
      }
      assert Details(View()) == Ok(details);
      var claims := PutDeliveries(if details == [] then Null else Obj(details));
      return Ok(claims);
    }

    // selectedDeliveries().forEach, in document order
    method PutDeliveries(details: Json) returns (claims: Json)
      ensures claims == Claims(idToken, userinfo, details)
    {
      var value := Obj([Member("amr_details", details)]);
      var ms: seq<Member> := [];
      if idToken { ms := Put(ms, "id_token", value); }
      if userinfo {
        PutNew(ms, "userinfo", value);
        ms := Put(ms, "userinfo", value);
      }
      assert ms == Claims(idToken, userinfo, details).members;
      return Obj(ms);
    }

    // applyBuilder
    method Apply()
      modifies this`text, this`alert
      ensures match BuiltText(old(View()))
              case Ok(t) => text == t && alert == None
              case Err(e) => text == old(text) && alert == Some(e)
    {
      hide BuildClaims, Print;
      alert := None;
      if !idToken && !userinfo {
        alert := Some(NoDelivery);
        return;
      }
      var claims := Build();
      if claims.Err? {
        alert := Some(claims.error);
        return;
      }
      text := Print(claims.value, "  ", "");
    }

    // loadJson: the root is emptied first, the options are set only when everything was appended.
    method Load(discovery: Discovery)
      modifies this`roots, this`claimEssential, this`idToken, this`userinfo, this`alert
      ensures View() == LoadText(old(View()), text, discovery).form
      ensures alert == LoadText(old(View()), text, discovery).error
      ensures match Parse(text)
              case None => alert == Some(NotJson) && View() == old(View())
              case Some(claims) => LoadShows(old(View()), claims, discovery, View(), alert)
    {
      hide LoadNode, Parse, Essential, NodeShown, LoadShows;
      alert := None;
      var parsed := Parse(text);
      if parsed.None? {
        alert := Some(NotJson);
        return;
      }
      var claims := parsed.value;
      LoadExact(View(), claims, discovery);
      if claims.Null? {
        alert := Some(NotAnObject);
        return;
      }
      if !claims.Obj? || !(Requests(claims.members, "id_token") || Requests(claims.members, "userinfo")) {
        alert := Some(NoDetails);
        return;
      }
      var inToken, inUser := Requests(claims.members, "id_token"), Requests(claims.members, "userinfo");
      var details := DetailsAt(claims.members, if inToken then "id_token" else "userinfo");
      roots := [];
      if details.Null? {
        claimEssential := false;
      } else if details.Obj? {
        if HasExpression(details.members) {
          var n := LoadNode(details, discovery);
          if n.Err? {
            alert := Some(n.error);
            return;
          }
          OneRoot(n.value, discovery);
          var ok;
          roots, ok := AppendNode(roots, n.value, discovery);
          if !ok {
            alert := Some(BadSuggestions);
            return;
          }
          assert roots == [n.value];
        }
        claimEssential := Essential(details);
      } else if details.Arr? {
        claimEssential := false;
      } else {
        alert := Some(BadDetails);
        return;
      }
      idToken, userinfo := inToken, inUser;
    }
  }
}
