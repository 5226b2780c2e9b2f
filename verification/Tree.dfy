// Adding and removing nodes of the form by their place in the tree.
module Tree {
  import opened Wrappers
  import opened ClaimsForm
  import opened Truth

  // The children of the group at a path get one more node at the end.
  function AppendIn(ns: seq<Node>, at: Path, n: Node): seq<Node>
    decreases |at|
  {
    if at == [] then ns + [n]
    else if at[0] < |ns| && ns[at[0]].Group? then
      ns[at[0] := Group(ns[at[0]].op, AppendIn(ns[at[0]].children, at[1..], n))]
    else ns
  }

  function RemoveIn(ns: seq<Node>, at: Path): seq<Node>
    decreases |at|
  {
    if at == [] || at[0] >= |ns| then ns
    else if |at| == 1 then ns[..at[0]] + ns[at[0] + 1..]
    else if ns[at[0]].Group? then
      ns[at[0] := Group(ns[at[0]].op, RemoveIn(ns[at[0]].children, at[1..]))]
    else ns
  }

  function NodeAt(ns: seq<Node>, at: Path): Option<Node>
    decreases |at|
  {
    if at == [] || at[0] >= |ns| then None
    else if |at| == 1 then Some(ns[at[0]])
    else
      match ns[at[0]]
      case Leaf(_) => None
      case Group(_, children) => NodeAt(children, at[1..])
  }

  // The nodes in the container at a path: the root, or a group. None when there is no such container.
  function ContainerAt(ns: seq<Node>, at: Path): Option<seq<Node>> {
    if at == [] then Some(ns)
    else
      match NodeAt(ns, at)
      case Some(Group(_, children)) => Some(children)
      case _ => None
  }

  // ---------------------------------------------------------------- what the buttons do

  // An ancestor keeps its operator.
  predicate SameGroup(before: Option<Node>, after: Option<Node>) {
    before.Some? && before.value.Group? && after.Some? && after.value.Group? && before.value.op == after.value.op
  }

  // A node was appended in the container at a path: it stands last there and brings its leaves, the
  // groups above keep their operators, and every other place holds what it held. Without such a
  // container nothing changed.
  ghost predicate Appended(before: seq<Node>, after: seq<Node>, at: Path, n: Node) {
    match ContainerAt(before, at)
    case None => after == before
    case Some(children) =>
      var place := at + [|children|];
      && LeavesOf(after) == LeavesOf(before) + Leaves(n)
      && NodeAt(after, place) == Some(n)
      && (forall p: Path :: !(p <= at) && !(place <= p) ==> NodeAt(after, p) == NodeAt(before, p))
      && (forall p: Path :: p != [] && p <= at ==> SameGroup(NodeAt(before, p), NodeAt(after, p)))
  }

  // Where the node at a path of the remaining tree stood before the node at `at` was taken out.
  function Before(p: Path, at: Path): Path
    requires at != []
  {
    var d := |at| - 1;
    if |p| > d && p[..d] == at[..d] && p[d] >= at[d] then p[d := p[d] + 1] else p
  }

  // The node at a path was removed: exactly its leaves are gone, later siblings moved up, the groups
  // above keep their operators, and every other place holds what it held. Without such a node
  // nothing changed.
  ghost predicate Removed(before: seq<Node>, after: seq<Node>, at: Path) {
    match NodeAt(before, at)
    case None => after == before
    case Some(n) =>
      && LeavesOf(before) == LeavesOf(after) + Leaves(n)
      && (forall p: Path :: !(p <= at) || p == at ==> NodeAt(after, p) == NodeAt(before, Before(p, at)))
      && (forall p: Path :: p != [] && p < at ==> SameGroup(NodeAt(before, p), NodeAt(after, p)))
  }

  // Where the node at a path stands before and after siblings i and i + 1 of a container trade places,
  // each with everything below it.
  function Exchanged(p: Path, at: Path, i: nat): Path {
    if !(at < p) then p
    else if p[|at|] == i then p[|at| := i + 1]
    else if p[|at|] == i + 1 then p[|at| := i]
    else p
  }

  // Siblings i and i + 1 of the container at a path traded places, each with everything below it; the
  // groups above keep their operators, and every other place holds what it held.
  ghost predicate Swapped(before: seq<Node>, after: seq<Node>, at: Path, i: nat) {
    && NodeAt(after, at + [i]) == NodeAt(before, at + [i + 1])
    && NodeAt(after, at + [i + 1]) == NodeAt(before, at + [i])
    && (forall p: Path :: !(p <= at) ==> NodeAt(after, p) == NodeAt(before, Exchanged(p, at, i)))
    && (forall p: Path :: p != [] && p <= at ==> SameGroup(NodeAt(before, p), NodeAt(after, p)))
  }

  // A node traded places with the sibling before it, or the one after it. Without such a sibling, or
  // without such a node, nothing changed.
  ghost predicate Moved(before: seq<Node>, after: seq<Node>, m: Move) {
    if NodeAt(before, m.at).None? then after == before
    else
      var at, i := m.at[..|m.at| - 1], m.at[|m.at| - 1];
      match m
      case Up(_) => if i == 0 then after == before else Swapped(before, after, at, i - 1)
      case Down(_) => if NodeAt(before, at + [i + 1]).None? then after == before else Swapped(before, after, at, i)
  }

  // ---------------------------------------------------------------- leaves

  lemma {:induction false} LeavesConcat(a: seq<Node>, b: seq<Node>)
    ensures LeavesOf(a + b) == LeavesOf(a) + LeavesOf(b)
  {
    hide Leaves;
    if a == [] {
      assert a + b == b;
    } else {
      assert (a + b)[1..] == a[1..] + b;
      LeavesConcat(a[1..], b);
    }
  }

  lemma LeavesOne(n: Node)
    ensures LeavesOf([n]) == Leaves(n)
  {
    assert [n][1..] == [];
  }

  lemma {:induction false} AppendLeaves(ns: seq<Node>, at: Path, n: Node)
    requires ContainerAt(ns, at).Some?
    ensures LeavesOf(AppendIn(ns, at, n)) == LeavesOf(ns) + Leaves(n)
    decreases |at|
  {
    hide LeavesOf, Leaves;
    if at == [] {
      LeavesConcat(ns, [n]);
      LeavesOne(n);
    } else {
      var g := ns[at[0]];
      var children := AppendIn(g.children, at[1..], n);
      AppendLeaves(g.children, at[1..], n);
      GroupLeaves(g.op, g.children);
      GroupLeaves(g.op, children);
      LeavesUpdate(ns, at[0], Group(g.op, children));
      Cancel(LeavesOf(AppendIn(ns, at, n)), LeavesOf(ns) + Leaves(n), Leaves(g));
    }
  }

  lemma GroupLeaves(op: Operator, children: seq<Node>)
    ensures Leaves(Group(op, children)) == LeavesOf(children)
  {
  }

  lemma {:induction false} RemoveLeaves(ns: seq<Node>, at: Path)
    requires NodeAt(ns, at).Some?
    ensures LeavesOf(ns) == LeavesOf(RemoveIn(ns, at)) + Leaves(NodeAt(ns, at).value)
    decreases |at|
  {
    hide LeavesOf, Leaves;
    var i := at[0];
    if |at| == 1 {
      assert ns == ns[..i] + ([ns[i]] + ns[i + 1..]);
      LeavesConcat(ns[..i], [ns[i]] + ns[i + 1..]);
      LeavesConcat([ns[i]], ns[i + 1..]);
      LeavesConcat(ns[..i], ns[i + 1..]);
      LeavesOne(ns[i]);
    } else {
      var g := ns[i];
      var children := RemoveIn(g.children, at[1..]);
      RemoveLeaves(g.children, at[1..]);
      GroupLeaves(g.op, g.children);
      GroupLeaves(g.op, children);
      LeavesUpdate(ns, i, Group(g.op, children));
      Cancel(LeavesOf(RemoveIn(ns, at)) + Leaves(NodeAt(ns, at).value), LeavesOf(ns), Leaves(Group(g.op, children)));
    }
  }

  // ---------------------------------------------------------------- places

  lemma {:induction false} AppendPlace(ns: seq<Node>, at: Path, n: Node)
    requires ContainerAt(ns, at).Some?
    ensures NodeAt(AppendIn(ns, at, n), at + [|ContainerAt(ns, at).value|]) == Some(n)
    decreases |at|
  {
    var place := at + [|ContainerAt(ns, at).value|];
    if at != [] {
      assert place[1..] == at[1..] + [|ContainerAt(ns, at).value|];
      AppendPlace(ns[at[0]].children, at[1..], n);
    }
  }

  lemma {:induction false} AppendElsewhere(ns: seq<Node>, at: Path, n: Node, p: Path)
    requires ContainerAt(ns, at).Some? && !(p <= at) && !(at + [|ContainerAt(ns, at).value|] <= p)
    ensures NodeAt(AppendIn(ns, at, n), p) == NodeAt(ns, p)
    decreases |at|
  {
    if at == [] {
      assert [|ns|] <= p <==> p[0] == |ns|;
    } else if p[0] == at[0] {
      var size := |ContainerAt(ns, at).value|;
      assert p == [p[0]] + p[1..] && at == [at[0]] + at[1..];
      assert at[1..] + [size] <= p[1..] ==> at + [size] <= p;
      AppendElsewhere(ns[at[0]].children, at[1..], n, p[1..]);
    }
  }

  lemma {:induction false} AppendAbove(ns: seq<Node>, at: Path, n: Node, p: Path)
    requires ContainerAt(ns, at).Some? && p != [] && p <= at
    ensures SameGroup(NodeAt(ns, p), NodeAt(AppendIn(ns, at, n), p))
    decreases |at|
  {
    if |p| > 1 { AppendAbove(ns[at[0]].children, at[1..], n, p[1..]); }
  }

  lemma AppendExact(ns: seq<Node>, at: Path, n: Node)
    ensures Appended(ns, AppendIn(ns, at, n), at, n)
  {
    if ContainerAt(ns, at).None? {
      AppendNowhere(ns, at, n);
    } else {
      hide AppendIn, NodeAt, ContainerAt;
      AppendLeaves(ns, at, n);
      AppendPlace(ns, at, n);
      var place := at + [|ContainerAt(ns, at).value|];
      forall p: Path | !(p <= at) && !(place <= p) ensures NodeAt(AppendIn(ns, at, n), p) == NodeAt(ns, p) {
        AppendElsewhere(ns, at, n, p);
      }
      forall p: Path | p != [] && p <= at ensures SameGroup(NodeAt(ns, p), NodeAt(AppendIn(ns, at, n), p)) {
        AppendAbove(ns, at, n, p);
      }
    }
  }

  lemma {:induction false} AppendNowhere(ns: seq<Node>, at: Path, n: Node)
    requires ContainerAt(ns, at).None?
    ensures AppendIn(ns, at, n) == ns
    decreases |at|
  {
    if at[0] < |ns| && ns[at[0]].Group? {
      AppendNowhere(ns[at[0]].children, at[1..], n);
      assert ns[at[0] := ns[at[0]]] == ns;
    }
  }

  lemma {:induction false} RemoveElsewhere(ns: seq<Node>, at: Path, p: Path)
    requires NodeAt(ns, at).Some? && (!(p <= at) || p == at)
    ensures NodeAt(RemoveIn(ns, at), p) == NodeAt(ns, Before(p, at))
    decreases |at|
  {
    var i := at[0];
    if |at| == 1 {
      assert p[..0] == at[..0] == [];
      assert Before(p, at) == if p[0] >= i then p[0 := p[0] + 1] else p;
      assert Before(p, at)[1..] == p[1..];
    } else if p[0] == i {
      var q := Before(p[1..], at[1..]);
      assert p == [p[0]] + p[1..] && at == [at[0]] + at[1..];
      BeforeBelow(p, at);
      RemoveElsewhere(ns[i].children, at[1..], p[1..]);
    } else {
      assert |p| >= |at| ==> p[..|at| - 1][0] == p[0];
      assert at[..|at| - 1][0] == at[0];
    }
  }

  lemma BeforeBelow(p: Path, at: Path)
    requires |at| > 1 && p != [] && p[0] == at[0]
    ensures Before(p, at) == [p[0]] + Before(p[1..], at[1..])
  {
    var d := |at| - 1;
    if |p| > d {
      assert p[..d] == [p[0]] + p[1..][..d - 1] && at[..d] == [at[0]] + at[1..][..d - 1];
      assert p[..d] == at[..d] <==> p[1..][..d - 1] == at[1..][..d - 1] by {
        if p[..d] == at[..d] { assert p[1..][..d - 1] == p[..d][1..] && at[1..][..d - 1] == at[..d][1..]; }
      }
    }
  }

  lemma {:induction false} RemoveAbove(ns: seq<Node>, at: Path, p: Path)
    requires NodeAt(ns, at).Some? && p != [] && p < at
    ensures SameGroup(NodeAt(ns, p), NodeAt(RemoveIn(ns, at), p))
    decreases |at|
  {
    if |p| > 1 { RemoveAbove(ns[at[0]].children, at[1..], p[1..]); }
  }

  lemma {:induction false} RemoveNothing(ns: seq<Node>, at: Path)
    requires NodeAt(ns, at).None?
    ensures RemoveIn(ns, at) == ns
    decreases |at|
  {
    if |at| > 1 && at[0] < |ns| && ns[at[0]].Group? {
      RemoveNothing(ns[at[0]].children, at[1..]);
      assert ns[at[0] := ns[at[0]]] == ns;
    }
  }

  lemma RemoveExact(ns: seq<Node>, at: Path)
    ensures Removed(ns, RemoveIn(ns, at), at)
  {
    if NodeAt(ns, at).None? {
      RemoveNothing(ns, at);
    } else {
      assert at != [];
      hide RemoveIn, NodeAt, Before;
      RemoveLeaves(ns, at);
      forall p: Path | !(p <= at) || p == at ensures NodeAt(RemoveIn(ns, at), p) == NodeAt(ns, Before(p, at)) {
        RemoveElsewhere(ns, at, p);
      }
      forall p: Path | p != [] && p < at ensures SameGroup(NodeAt(ns, p), NodeAt(RemoveIn(ns, at), p)) {
        RemoveAbove(ns, at, p);
      }
    }
  }

  // The siblings at a place and after it, exchanged.
  function SwapIn(ns: seq<Node>, at: Path, i: nat): seq<Node>
    decreases |at|
  {
    if at == [] then (if i + 1 < |ns| then SwapAt(ns, i) else ns)
    else if at[0] < |ns| && ns[at[0]].Group? then
      ns[at[0] := Group(ns[at[0]].op, SwapIn(ns[at[0]].children, at[1..], i))]
    else ns
  }

  lemma {:induction false} MoveSwaps(ns: seq<Node>, at: Path, i: nat, up: bool)
    ensures up && i > 0 && NodeAt(ns, at + [i]).Some? ==> MoveIn(ns, at + [i], up) == SwapIn(ns, at, i - 1)
    ensures !up && NodeAt(ns, at + [i + 1]).Some? ==> MoveIn(ns, at + [i], up) == SwapIn(ns, at, i)
    ensures up && i == 0 ==> MoveIn(ns, at + [i], up) == ns
    ensures !up && NodeAt(ns, at + [i + 1]).None? ==> MoveIn(ns, at + [i], up) == ns
    ensures NodeAt(ns, at + [i]).None? ==> MoveIn(ns, at + [i], up) == ns
    decreases |at|
  {
    if at == [] {
      assert ([] + [i])[0] == i && ([] + [i + 1])[0] == i + 1;
    } else {
      assert (at + [i])[1..] == at[1..] + [i] && (at + [i + 1])[1..] == at[1..] + [i + 1];
      assert (at + [i])[0] == at[0] && (at + [i + 1])[0] == at[0];
      hide SwapAt;
      if at[0] < |ns| && ns[at[0]].Group? {
        MoveSwaps(ns[at[0]].children, at[1..], i, up);
        assert ns[at[0] := ns[at[0]]] == ns;
      }
    }
  }

  lemma {:induction false} SwapPlace(ns: seq<Node>, at: Path, i: nat, p: Path)
    requires NodeAt(ns, at + [i + 1]).Some? && !(p <= at)
    ensures NodeAt(SwapIn(ns, at, i), p) == NodeAt(ns, Exchanged(p, at, i))
    decreases |at|
  {
    if at == [] {
      assert ([] + [i + 1])[0] == i + 1;
      assert Exchanged(p, at, i)[1..] == p[1..];
    } else {
      assert (at + [i + 1])[1..] == at[1..] + [i + 1] && (at + [i + 1])[0] == at[0];
      if p[0] == at[0] {
        assert p == [p[0]] + p[1..] && at == [at[0]] + at[1..];
        ExchangedBelow(p, at, i);
        SwapPlace(ns[at[0]].children, at[1..], i, p[1..]);
      }
    }
  }

  lemma ExchangedBelow(p: Path, at: Path, i: nat)
    requires p != [] && at != [] && p[0] == at[0]
    ensures Exchanged(p, at, i) == [p[0]] + Exchanged(p[1..], at[1..], i)
  {
    assert p == [p[0]] + p[1..] && at == [at[0]] + at[1..];
    assert at < p <==> at[1..] < p[1..];
  }

  lemma {:induction false} SwapAbove(ns: seq<Node>, at: Path, i: nat, p: Path)
    requires NodeAt(ns, at + [i + 1]).Some? && p != [] && p <= at
    ensures SameGroup(NodeAt(ns, p), NodeAt(SwapIn(ns, at, i), p))
    decreases |at|
  {
    assert (at + [i + 1])[1..] == at[1..] + [i + 1] && (at + [i + 1])[0] == at[0];
    if |p| > 1 { SwapAbove(ns[at[0]].children, at[1..], i, p[1..]); }
  }

  lemma SwapExact(ns: seq<Node>, at: Path, i: nat)
    requires NodeAt(ns, at + [i + 1]).Some?
    ensures Swapped(ns, SwapIn(ns, at, i), at, i)
  {
    hide SwapIn, NodeAt;
    assert at < at + [i] && at < at + [i + 1];
    assert (at + [i])[|at| := i + 1] == at + [i + 1] && (at + [i + 1])[|at| := i] == at + [i];
    forall p: Path | !(p <= at) ensures NodeAt(SwapIn(ns, at, i), p) == NodeAt(ns, Exchanged(p, at, i)) {
      SwapPlace(ns, at, i, p);
    }
    forall p: Path | p != [] && p <= at ensures SameGroup(NodeAt(ns, p), NodeAt(SwapIn(ns, at, i), p)) {
      SwapAbove(ns, at, i, p);
    }
  }

  lemma MoveExact(ns: seq<Node>, m: Move)
    ensures Moved(ns, ApplyMove(ns, m), m)
  {
    hide MoveIn, SwapIn, Swapped;
    if m.at == [] {
      MoveNowhere(ns, m.Up?);
    } else {
      var at, i := m.at[..|m.at| - 1], m.at[|m.at| - 1];
      assert at + [i] == m.at;
      MoveSwaps(ns, at, i, m.Up?);
      if NodeAt(ns, m.at).Some? {
        if m.Up? && i > 0 { SwapExact(ns, at, i - 1); }
        if m.Down? && NodeAt(ns, at + [i + 1]).Some? { SwapExact(ns, at, i); }
      }
    }
  }

  lemma MoveNowhere(ns: seq<Node>, up: bool)
    ensures MoveIn(ns, [], up) == ns && NodeAt(ns, []).None?
  {
  }

  // ---------------------------------------------------------------- undoing

  // Removing the node that was just added restores the tree, wherever its container is.
  lemma {:induction false} RemoveUndoesAppend(ns: seq<Node>, at: Path, n: Node)
    requires ContainerAt(ns, at).Some?
    ensures RemoveIn(AppendIn(ns, at, n), at + [|ContainerAt(ns, at).value|]) == ns
    decreases |at|
  {
    var i := |ContainerAt(ns, at).value|;
    if at == [] {
      assert ([] + [i])[0] == i;
    } else {
      assert (at + [i])[1..] == at[1..] + [i];
      RemoveUndoesAppend(ns[at[0]].children, at[1..], n);
      assert ns[at[0] := ns[at[0]]] == ns;
    }
  }
}
