// The balanced schedule of the timing benchmark: how often each condition is measured in a
// round, so that every instance serves the same number of cycles of each kind.
module Schedule {
  import opened Wrappers

  datatype Kind = Sso | Refresh | Login

  const KINDS: seq<Kind> := [Sso, Refresh, Login]

  // The fields of a benchmark condition that the schedule and the samples depend on.
  datatype Condition = Condition(name: string, metrics: string, login: bool)

  datatype Slot = Slot(kind: Kind, condition: Condition)

  // ---------------------------------------------------------------- who is measured

  predicate Includes(kind: Kind, c: Condition) { kind == Login ==> c.login }

  function Included(conditions: seq<Condition>, kind: Kind): seq<Condition> {
    if conditions == [] then []
    else (if Includes(kind, conditions[0]) then [conditions[0]] else []) + Included(conditions[1..], kind)
  }

  // The included conditions of one instance, in order: the reference for the dictionary below.
  function Served(cs: seq<Condition>, metrics: string): seq<Condition> {
    if cs == [] then []
    else (if cs[0].metrics == metrics then [cs[0]] else []) + Served(cs[1..], metrics)
  }

  // ---------------------------------------------------------------- the dictionary of instances

  // One entry of by_instance; the dictionary keeps its keys in order of first use.
  datatype Instance = Instance(metrics: string, group: seq<Condition>)

  function Add(groups: seq<Instance>, c: Condition): seq<Instance> {
    if groups == [] then [Instance(c.metrics, [c])]
    else if groups[0].metrics == c.metrics then [Instance(c.metrics, groups[0].group + [c])] + groups[1..]
    else [groups[0]] + Add(groups[1..], c)
  }

  function Grouped(groups: seq<Instance>, cs: seq<Condition>): seq<Instance>
    decreases |cs|
  {
    if cs == [] then groups else Grouped(Add(groups, cs[0]), cs[1..])
  }

  predicate Distinct(groups: seq<Instance>) {
    forall i, j :: 0 <= i < j < |groups| ==> groups[i].metrics != groups[j].metrics
  }

  predicate HasInstance(groups: seq<Instance>, metrics: string) {
    exists i :: 0 <= i < |groups| && groups[i].metrics == metrics
  }

  function GroupOf(groups: seq<Instance>, metrics: string): seq<Condition> {
    if groups == [] then []
    else if groups[0].metrics == metrics then groups[0].group else GroupOf(groups[1..], metrics)
  }

  lemma {:induction false} AddGroup(groups: seq<Instance>, c: Condition, metrics: string)
    ensures GroupOf(Add(groups, c), metrics) == GroupOf(groups, metrics) + (if c.metrics == metrics then [c] else [])
    ensures HasInstance(Add(groups, c), metrics) <==> HasInstance(groups, metrics) || c.metrics == metrics
  {
    var out := Add(groups, c);
    if groups == [] {
      assert out[0].metrics == c.metrics;
    } else {
      var later := groups[1..];
      if groups[0].metrics == c.metrics {
        assert out[1..] == later && out[0].metrics == groups[0].metrics;
        assert HasInstance(groups, metrics) <==> groups[0].metrics == metrics || HasInstance(later, metrics) by {
          Front(groups, metrics);
        }
        Front(out, metrics);
      } else {
        AddGroup(later, c, metrics);
        assert out[1..] == Add(later, c);
        Front(groups, metrics);
        Front(out, metrics);
      }
      assert GroupOf(groups, metrics) + [] == GroupOf(groups, metrics);
    }
  }

  lemma Front(groups: seq<Instance>, metrics: string)
    requires groups != []
    ensures HasInstance(groups, metrics) <==> groups[0].metrics == metrics || HasInstance(groups[1..], metrics)
  {
    if HasInstance(groups, metrics) && groups[0].metrics != metrics {
      var i :| 0 <= i < |groups| && groups[i].metrics == metrics;
      assert groups[1..][i - 1].metrics == metrics;
    }
    if HasInstance(groups[1..], metrics) {
      var i :| 0 <= i < |groups[1..]| && groups[1..][i].metrics == metrics;
      assert groups[i + 1].metrics == metrics;
    }
  }

  predicate Filled(groups: seq<Instance>) { Distinct(groups) && forall g :: g in groups ==> g.group != [] }

  lemma {:induction false} AddFilled(groups: seq<Instance>, c: Condition)
    requires Filled(groups)
    ensures Filled(Add(groups, c))
  {
    if groups != [] && groups[0].metrics != c.metrics {
      var later := groups[1..];
      AddFilled(later, c);
      var out := Add(later, c);
      forall j | 0 <= j < |out| ensures out[j].metrics != groups[0].metrics {
        AddGroup(later, c, out[j].metrics);
        assert HasInstance(out, out[j].metrics);
      }
      assert groups[0] in groups;
      forall g | g in Add(groups, c) ensures g.group != [] { assert g == groups[0] || g in out; }
    }
  }

  lemma {:induction false} GroupedFilled(groups: seq<Instance>, cs: seq<Condition>)
    requires Filled(groups)
    ensures Filled(Grouped(groups, cs))
    decreases |cs|
  {
    if cs != [] {
      AddFilled(groups, cs[0]);
      GroupedFilled(Add(groups, cs[0]), cs[1..]);
    }
  }

  // The dictionary holds exactly the instances that serve somebody, each with those it serves.
  lemma {:induction false} GroupedServes(groups: seq<Instance>, cs: seq<Condition>, metrics: string)
    ensures GroupOf(Grouped(groups, cs), metrics) == GroupOf(groups, metrics) + Served(cs, metrics)
    ensures HasInstance(Grouped(groups, cs), metrics) <==> HasInstance(groups, metrics) || Served(cs, metrics) != []
    decreases |cs|
  {
    hide HasInstance, GroupOf, Add;
    if cs == [] {
      assert GroupOf(groups, metrics) + [] == GroupOf(groups, metrics);
    } else {
      var one := if cs[0].metrics == metrics then [cs[0]] else [];
      AddGroup(groups, cs[0], metrics);
      GroupedServes(Add(groups, cs[0]), cs[1..], metrics);
      assert GroupOf(groups, metrics) + one + Served(cs[1..], metrics)
          == GroupOf(groups, metrics) + Served(cs, metrics);
    }
  }

  lemma {:induction false} GroupAt(groups: seq<Instance>, i: nat)
    requires Distinct(groups) && i < |groups|
    ensures GroupOf(groups, groups[i].metrics) == groups[i].group
  {
    if i > 0 { GroupAt(groups[1..], i - 1); }
  }

  // max(len(group) for group in by_instance.values()); None where max() throws
  function Target(groups: seq<Instance>): (t: nat)
    ensures forall i :: 0 <= i < |groups| ==> |groups[i].group| <= t
    ensures groups != [] ==> exists i :: 0 <= i < |groups| && |groups[i].group| == t
  {
    if groups == [] then 0
    else
      var t := Target(groups[1..]);
      assert forall i :: 0 < i < |groups| ==> groups[i] == groups[1..][i - 1];
      if |groups[0].group| >= t then |groups[0].group|
      else
        assert exists i :: 0 <= i < |groups[1..]| && |groups[1..][i].group| == t;
        t
  }

  // ---------------------------------------------------------------- slots

  // target draws from the group, cycling through it
  function Cycle(kind: Kind, group: seq<Condition>, target: nat): (slots: seq<Slot>)
    requires group != []
    ensures |slots| == target
  {
    seq(target, j requires 0 <= j < target => Slot(kind, group[j % |group|]))
  }

  function Cycles(kind: Kind, groups: seq<Instance>, target: nat): seq<Slot>
    requires forall g :: g in groups ==> g.group != []
  {
    if groups == [] then []
    else
      assert groups[0] in groups;
      Cycle(kind, groups[0].group, target) + Cycles(kind, groups[1..], target)
  }

  function Instances(conditions: seq<Condition>, kind: Kind): (groups: seq<Instance>)
    ensures Filled(groups)
  {
    GroupedFilled([], Included(conditions, kind));
    Grouped([], Included(conditions, kind))
  }

  function KindSlots(conditions: seq<Condition>, kind: Kind): seq<Slot> {
    var groups := Instances(conditions, kind);
    Cycles(kind, groups, Target(groups))
  }

  // balanced_slots; None stands for the ValueError of max() when a kind includes nobody
  function BalancedSlots(conditions: seq<Condition>): Option<seq<Slot>> {
    if Included(conditions, Sso) == [] || Included(conditions, Refresh) == [] || Included(conditions, Login) == []
    then None
    else Some(KindSlots(conditions, Sso) + KindSlots(conditions, Refresh) + KindSlots(conditions, Login))
  }

  // ---------------------------------------------------------------- the loops of the source

  // The cycling iterator: after the last condition of a group comes the first again.
  method DrawCycle(kind: Kind, group: seq<Condition>, target: nat) returns (drawn: seq<Slot>)
    requires group != []
    ensures drawn == Cycle(kind, group, target)
  {
    drawn := [];
    var next := 0;
    for j := 0 to target
      invariant next == j % |group|
      invariant drawn == Cycle(kind, group, target)[..j]
    {
      drawn := drawn + [Slot(kind, group[next])];
      NextIndex(j, |group|);
      next := if next + 1 == |group| then 0 else next + 1;
    }
  }

  lemma NextIndex(j: nat, n: nat)
    requires n > 0
    ensures (j + 1) % n == if j % n + 1 == n then 0 else j % n + 1
    ensures (j + 1) / n == if j % n + 1 == n then j / n + 1 else j / n
  {
    var q, r := j / n, j % n;
    assert j + 1 == q * n + (r + 1);
    if r + 1 == n {
      DivMod(q + 1, 0, n);
      assert j + 1 == (q + 1) * n + 0;
    } else {
      DivMod(q, r + 1, n);
    }
  }

  lemma DivMod(q: nat, r: nat, n: nat)
    requires r < n
    ensures (q * n + r) / n == q && (q * n + r) % n == r
  {
    var x := q * n + r;
    var a, b := x / n, x % n;
    assert a * n + b == x;
    Scale(a - q, n);
    assert (a - q) * n == r - b;
  }

  lemma Scale(k: int, n: int)
    requires n > 0
    ensures k >= 1 ==> k * n >= n
    ensures k <= -1 ==> k * n <= -n
  {
  }

  // by_instance.setdefault(condition.metrics, []).append(condition)
  method GroupConditions(included: seq<Condition>) returns (byInstance: seq<Instance>)
    ensures byInstance == Grouped([], included)
  {
    byInstance := [];
    for i := 0 to |included|
      invariant Grouped([], included) == Grouped(byInstance, included[i..])
    {
      assert included[i..][0] == included[i] && included[i..][1..] == included[i + 1..];
      byInstance := Add(byInstance, included[i]);
    }
    assert included[|included|..] == [];
  }

  lemma Regroup(a: seq<Slot>, b: seq<Slot>, c: seq<Slot>)
    ensures a + b + c == a + (b + c)
  {
  }

  // One cycling iterator for each instance.
  method DrawAll(kind: Kind, byInstance: seq<Instance>, target: nat) returns (slots: seq<Slot>)
    requires forall g :: g in byInstance ==> g.group != []
    ensures slots == Cycles(kind, byInstance, target)
  {
    slots := [];
    for g := 0 to |byInstance|
      invariant slots + Cycles(kind, byInstance[g..], target) == Cycles(kind, byInstance, target)
    {
      assert byInstance[g..][0] == byInstance[g] && byInstance[g..][1..] == byInstance[g + 1..];
      assert byInstance[g] in byInstance;
      var drawn := DrawCycle(kind, byInstance[g].group, target);
      Regroup(slots, drawn, Cycles(kind, byInstance[g + 1..], target));
      slots := slots + drawn;
    }
    assert byInstance[|byInstance|..] == [] && slots + [] == slots;
  }

  // The body of the loop over kinds; max() of no groups throws.
  method ScheduleKind(conditions: seq<Condition>, kind: Kind) returns (r: Option<seq<Slot>>)
    ensures r == if Included(conditions, kind) == [] then None else Some(KindSlots(conditions, kind))
  {
    hide Grouped, Cycles;
    var included := Included(conditions, kind);
    var byInstance := GroupConditions(included);
    assert byInstance == Instances(conditions, kind);
    if included == [] { return None; }
    var slots := DrawAll(kind, byInstance, Target(byInstance));
    return Some(slots);
  }

  method ScheduleSlots(conditions: seq<Condition>) returns (r: Option<seq<Slot>>)
    ensures r == BalancedSlots(conditions)
  {
    hide KindSlots;
    var slots: seq<Slot> := [];
    for n := 0 to |KINDS|
      invariant slots == KindsSlots(conditions, n)
      invariant forall k :: 0 <= k < n ==> Included(conditions, KINDS[k]) != []
    {
      var drawn := ScheduleKind(conditions, KINDS[n]);
      if drawn.None? { return None; }
      slots := slots + drawn.value;
    }
    assert KINDS[0] == Sso && KINDS[1] == Refresh && KINDS[2] == Login;
    return Some(slots);
  }

  // The slots of the first n kinds.
  function KindsSlots(conditions: seq<Condition>, n: nat): seq<Slot>
    requires n <= 3
  {
    if n == 0 then [] else
    if n == 1 then KindSlots(conditions, Sso) else
    if n == 2 then KindSlots(conditions, Sso) + KindSlots(conditions, Refresh)
    else KindSlots(conditions, Sso) + KindSlots(conditions, Refresh) + KindSlots(conditions, Login)
  }
}
