// What a request means: all_of as conjunction, one_of as disjunction over the methods at the
// leaves. Building keeps the meaning, and so does moving nodes among their siblings.
module Truth {
  import opened Wrappers
  import opened Json
  import opened JsonText
  import opened Scalars
  import opened ClaimsForm
  import opened Canonical
  import opened Arrangement
  import opened ExactDomain
  import Converse

  // A leaf is known by its path from the root, so equal factors may be judged differently.
  type Path = seq<nat>

  // ---------------------------------------------------------------- evaluation

  ghost predicate HoldsNode(n: Node, at: Path, truth: Path -> bool)
    decreases n
  {
    match n
    case Leaf(_) => truth(at)
    case Group(op, children) => HoldsNodes(children, op, at, truth)
  }

  ghost predicate HoldsNodes(ns: seq<Node>, op: Operator, at: Path, truth: Path -> bool)
    decreases ns
  {
    if op == AllOf then forall i :: 0 <= i < |ns| ==> HoldsNode(ns[i], at + [i], truth)
    else exists i :: 0 <= i < |ns| && HoldsNode(ns[i], at + [i], truth)
  }

  ghost predicate HoldsForm(form: Form, truth: Path -> bool) {
    HoldsNodes(form.roots, form.rootOperator, [], truth)
  }

  ghost predicate HoldsJson(e: Json, at: Path, truth: Path -> bool)
    decreases e
  {
    if e.Obj? && HasArray(e.members, "all_of") then
      LookupSmaller(e.members, "all_of");
      HoldsItems(Lookup(e.members, "all_of").value.items, AllOf, at, truth)
    else if e.Obj? && HasArray(e.members, "one_of") then
      LookupSmaller(e.members, "one_of");
      HoldsItems(Lookup(e.members, "one_of").value.items, OneOf, at, truth)
    else truth(at)
  }

  ghost predicate HoldsItems(items: seq<Json>, op: Operator, at: Path, truth: Path -> bool)
    decreases items
  {
    if op == AllOf then forall i :: 0 <= i < |items| ==> HoldsJson(items[i], at + [i], truth)
    else exists i :: 0 <= i < |items| && HoldsJson(items[i], at + [i], truth)
  }

  // ---------------------------------------------------------------- building keeps the truth

  lemma {:induction false} NodeListAt(ns: seq<Node>, i: nat)
    requires NodeList(ns).Ok? && i < |ns|
    ensures NodeMembers(ns[i]).Ok? && NodeList(ns).value[i] == Obj(NodeMembers(ns[i]).value)
  {
    hide NodeMembers;
    if i > 0 { NodeListAt(ns[1..], i - 1); }
  }

  lemma {:induction false} FactorHasNoGroup(f: Factor)
    requires FactorMembers(f).Ok?
    ensures !Has(FactorMembers(f).value, "all_of") && !Has(FactorMembers(f).value, "one_of")
  {
    hide FactorMembers, TimeMembers, SectionRows;
    BuiltParts(f);
    var id, mm, pm := Trim(f.identifier), SectionRows(TimeMembers(f).value, f.metadata, true).value,
                      SectionRows([], f.properties, false).value;
    LookupBuilt(id, mm, pm, "all_of");
    LookupBuilt(id, mm, pm, "one_of");
  }

  // A node and the JSON it is built into hold under the same assignments.
  lemma {:induction false} NodeTruth(n: Node, at: Path, truth: Path -> bool)
    requires NodeMembers(n).Ok?
    ensures HoldsJson(Obj(NodeMembers(n).value), at, truth) <==> HoldsNode(n, at, truth)
    decreases n
  {
    hide FactorMembers;
    match n {
      case Leaf(f) => FactorHasNoGroup(f);
      case Group(op, children) =>
        var items := NodeList(children).value;
        LookupOne(OperatorName(op), Arr(items), "all_of");
        LookupOne(OperatorName(op), Arr(items), "one_of");
        NodesTruth(children, op, at, truth);
    }
  }

  lemma {:induction false} NodesTruth(ns: seq<Node>, op: Operator, at: Path, truth: Path -> bool)
    requires NodeList(ns).Ok?
    ensures HoldsItems(NodeList(ns).value, op, at, truth) <==> HoldsNodes(ns, op, at, truth)
    decreases ns
  {
    hide HoldsJson, HoldsNode, NodeList, NodeMembers;
    var items := NodeList(ns).value;
    forall i | 0 <= i < |ns| ensures HoldsJson(items[i], at + [i], truth) <==> HoldsNode(ns[i], at + [i], truth) {
      NodeListAt(ns, i);
      NodeTruth(ns[i], at + [i], truth);
    }
  }

  // The details of a form with several roots hold exactly when the forest does.
  lemma {:induction false} ManyRootsTruth(form: Form, truth: Path -> bool)
    requires |form.roots| > 1 && Details(form).Ok?
    ensures HoldsJson(Obj(Details(form).value), [], truth) <==> HoldsForm(form, truth)
  {
    hide NodeList;
    var items := NodeList(form.roots).value;
    var name := OperatorName(form.rootOperator);
    LookupPut(Flag(form.claimEssential), name, Arr(items), "all_of");
    LookupPut(Flag(form.claimEssential), name, Arr(items), "one_of");
    NodesTruth(form.roots, form.rootOperator, [], truth);
  }

  // A single root is merged into the details, so the root operator makes no difference.
  lemma {:induction false} SingleRootTruth(form: Form, truth: Path -> bool)
    requires |form.roots| == 1 && Details(form).Ok?
    ensures HoldsJson(Obj(Details(form).value), [0], truth) <==> HoldsForm(form, truth)
    ensures forall op :: Details(form.(rootOperator := op)) == Details(form)
  {
    hide NodeMembers, HoldsNode, HoldsJson;
    var n := form.roots[0];
    var ms := NodeMembers(n).value;
    assert [] + [0] == [0];
    NodeTruth(n, [0], truth);
    FlagIsNoOperator(form, truth);
  }

  lemma {:induction false} FlagIsNoOperator(form: Form, truth: Path -> bool)
    requires |form.roots| == 1 && Details(form).Ok?
    ensures HoldsJson(Obj(Details(form).value), [0], truth)
       <==> HoldsJson(Obj(NodeMembers(form.roots[0]).value), [0], truth)
  {
    hide NodeMembers, HoldsItems;
    var ms := RootMembers(form);
    DetailsShape(form);
    Converse.FlagLookup(form.claimEssential, ms, "all_of");
    Converse.FlagLookup(form.claimEssential, ms, "one_of");
  }

  // ---------------------------------------------------------------- moving nodes

  // The move-up and move-down buttons of the node at a path.
  datatype Move = Up(at: Path) | Down(at: Path)

  function SwapAt(ns: seq<Node>, i: nat): seq<Node>
    requires i + 1 < |ns|
  {
    ns[i := ns[i + 1]][i + 1 := ns[i]]
  }

  // insertBefore with the previous or the next sibling; nothing happens at the edge.
  function MoveIn(ns: seq<Node>, at: Path, up: bool): (out: seq<Node>)
    ensures |out| == |ns|
    decreases |at|
  {
    if at == [] || at[0] >= |ns| then ns
    else if |at| == 1 then
      if up then (if at[0] > 0 then SwapAt(ns, at[0] - 1) else ns)
      else (if at[0] + 1 < |ns| then SwapAt(ns, at[0]) else ns)
    else
      match ns[at[0]]
      case Leaf(_) => ns
      case Group(op, children) => ns[at[0] := Group(op, MoveIn(children, at[1..], up))]
  }

  function ApplyMove(ns: seq<Node>, m: Move): seq<Node> { MoveIn(ns, m.at, m.Up?) }

  function ApplyMoves(ns: seq<Node>, moves: seq<Move>): seq<Node>
    decreases |moves|
  {
    if moves == [] then ns else ApplyMoves(ApplyMove(ns, moves[0]), moves[1..])
  }

  function Leaves(n: Node): multiset<Factor>
    decreases n
  {
    match n
    case Leaf(f) => multiset{f}
    case Group(_, children) => LeavesOf(children)
  }

  function LeavesOf(ns: seq<Node>): multiset<Factor>
    decreases ns
  {
    if ns == [] then multiset{} else Leaves(ns[0]) + LeavesOf(ns[1..])
  }

  // Truth by content: where a leaf stands does not matter here.
  ghost predicate Satisfied(n: Node, truth: Factor -> bool)
    decreases n
  {
    match n
    case Leaf(f) => truth(f)
    case Group(op, children) => SatisfiedAll(children, op, truth)
  }

  ghost predicate SatisfiedAll(ns: seq<Node>, op: Operator, truth: Factor -> bool)
    decreases ns
  {
    if op == AllOf then forall n :: n in ns ==> Satisfied(n, truth)
    else exists n :: n in ns && Satisfied(n, truth)
  }

  lemma Cancel(a: multiset<Factor>, b: multiset<Factor>, c: multiset<Factor>)
    requires a + c == b + c
    ensures a == b
  {
    assert a == (a + c) - c && b == (b + c) - c;
  }

  lemma {:induction false} LeavesUpdate(ns: seq<Node>, i: nat, n: Node)
    requires i < |ns|
    ensures LeavesOf(ns[i := n]) + Leaves(ns[i]) == LeavesOf(ns) + Leaves(n)
  {
    hide Leaves;
    var out := ns[i := n];
    if i == 0 {
      assert out[1..] == ns[1..];
    } else {
      assert out[1..] == ns[1..][i - 1 := n];
      LeavesUpdate(ns[1..], i - 1, n);
      assert LeavesOf(out) + Leaves(ns[i]) == Leaves(ns[0]) + (LeavesOf(out[1..]) + Leaves(ns[i]));
      assert LeavesOf(ns) + Leaves(n) == Leaves(ns[0]) + (LeavesOf(ns[1..]) + Leaves(n));
    }
  }

  lemma {:induction false} LeavesSwap(ns: seq<Node>, i: nat)
    requires i + 1 < |ns|
    ensures LeavesOf(SwapAt(ns, i)) == LeavesOf(ns)
  {
    hide Leaves, LeavesOf;
    LeavesUpdate(ns, i, ns[i + 1]);
    LeavesUpdate(ns[i := ns[i + 1]], i + 1, ns[i]);
    Cancel(LeavesOf(SwapAt(ns, i)), LeavesOf(ns), Leaves(ns[i + 1]));
  }

  lemma {:induction false} SwapMembers(ns: seq<Node>, i: nat)
    requires i + 1 < |ns|
    ensures forall n :: n in SwapAt(ns, i) <==> n in ns
  {
    var out := SwapAt(ns, i);
    forall n ensures n in out <==> n in ns {
      if n in ns {
        var j :| 0 <= j < |ns| && ns[j] == n;
        assert out[if j == i then i + 1 else if j == i + 1 then i else j] == n;
      }
      if n in out {
        var j :| 0 <= j < |out| && out[j] == n;
        assert ns[if j == i then i + 1 else if j == i + 1 then i else j] == n;
      }
    }
  }

  lemma {:induction false} UpdateSatisfied(ns: seq<Node>, i: nat, n: Node, op: Operator, truth: Factor -> bool)
    requires i < |ns| && (Satisfied(n, truth) <==> Satisfied(ns[i], truth))
    ensures SatisfiedAll(ns[i := n], op, truth) <==> SatisfiedAll(ns, op, truth)
  {
    hide Satisfied;
    var out := ns[i := n];
    assert n == out[i] && n in out && ns[i] in ns;
    forall m | m in ns && m != ns[i] ensures m in out {
      var j :| 0 <= j < |ns| && ns[j] == m;
      assert out[j] == m;
    }
    forall m | m in out && m != n ensures m in ns {
      var j :| 0 <= j < |out| && out[j] == m;
      assert ns[j] == m;
    }
  }

  lemma {:induction false} SwapKeeps(ns: seq<Node>, i: nat, op: Operator, truth: Factor -> bool)
    requires i + 1 < |ns|
    ensures LeavesOf(SwapAt(ns, i)) == LeavesOf(ns)
    ensures SatisfiedAll(SwapAt(ns, i), op, truth) <==> SatisfiedAll(ns, op, truth)
  {
    hide LeavesOf, Satisfied;
    LeavesSwap(ns, i);
    SwapMembers(ns, i);
  }

  lemma {:induction false} ChildKeeps(ns: seq<Node>, i: nat, children: seq<Node>, op: Operator, truth: Factor -> bool)
    requires i < |ns| && ns[i].Group?
    requires LeavesOf(children) == LeavesOf(ns[i].children)
    requires SatisfiedAll(children, ns[i].op, truth) <==> SatisfiedAll(ns[i].children, ns[i].op, truth)
    ensures LeavesOf(ns[i := Group(ns[i].op, children)]) == LeavesOf(ns)
    ensures SatisfiedAll(ns[i := Group(ns[i].op, children)], op, truth) <==> SatisfiedAll(ns, op, truth)
  {
    hide LeavesOf, SatisfiedAll;
    var n := Group(ns[i].op, children);
    assert Leaves(n) == Leaves(ns[i]);
    LeavesUpdate(ns, i, n);
    Cancel(LeavesOf(ns[i := n]), LeavesOf(ns), Leaves(n));
    UpdateSatisfied(ns, i, n, op, truth);
  }

  // One step at any depth keeps the factors and the truth of the siblings it is applied to.
  lemma {:induction false} MoveKeeps(ns: seq<Node>, at: Path, up: bool, op: Operator, truth: Factor -> bool)
    ensures LeavesOf(MoveIn(ns, at, up)) == LeavesOf(ns)
    ensures SatisfiedAll(MoveIn(ns, at, up), op, truth) <==> SatisfiedAll(ns, op, truth)
    decreases |at|
  {
    hide LeavesOf, SatisfiedAll, SwapAt;
    if at != [] && at[0] < |ns| {
      var i := at[0];
      if |at| == 1 {
        if up && i > 0 { SwapKeeps(ns, i - 1, op, truth); }
        if !up && i + 1 < |ns| { SwapKeeps(ns, i, op, truth); }
      } else if ns[i].Group? {
        MoveKeeps(ns[i].children, at[1..], up, ns[i].op, truth);
        ChildKeeps(ns, i, MoveIn(ns[i].children, at[1..], up), op, truth);
      }
    }
  }

  // Any sequence of moves, at any depths, keeps the multiset of factors and the truth value.
  lemma {:induction false} MovesKeep(ns: seq<Node>, moves: seq<Move>, op: Operator, truth: Factor -> bool)
    ensures LeavesOf(ApplyMoves(ns, moves)) == LeavesOf(ns)
    ensures SatisfiedAll(ApplyMoves(ns, moves), op, truth) <==> SatisfiedAll(ns, op, truth)
    decreases |moves|
  {
    hide SatisfiedAll, LeavesOf, MoveIn;
    if moves != [] {
      MoveKeeps(ns, moves[0].at, moves[0].Up?, op, truth);
      MovesKeep(ApplyMove(ns, moves[0]), moves[1..], op, truth);
    }
  }

  // Moving a node up and then, from its new place, down again changes nothing.
  lemma {:induction false} DownUndoesUp(ns: seq<Node>, at: Path, i: nat)
    requires i > 0
    ensures MoveIn(MoveIn(ns, at + [i], true), at + [i - 1], false) == ns
    decreases |at|
  {
    if at == [] {
      if i < |ns| {
        var out := SwapAt(ns, i - 1);
        assert ([] + [i])[0] == i && ([] + [i - 1])[0] == i - 1;
        assert SwapAt(out, i - 1) == ns;
      } else if i == |ns| {
        assert ([] + [i])[0] == i && ([] + [i - 1])[0] == i - 1;
      }
    } else {
      assert (at + [i])[1..] == at[1..] + [i] && (at + [i - 1])[1..] == at[1..] + [i - 1];
      if at[0] < |ns| && ns[at[0]].Group? {
        DownUndoesUp(ns[at[0]].children, at[1..], i);
        assert ns[at[0] := ns[at[0]]] == ns;
      }
    }
  }
}
