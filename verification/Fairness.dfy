// The guarantee of the balanced schedule, counted slot by slot.
module Fairness {
  import opened Wrappers
  import opened Schedule

  // ---------------------------------------------------------------- counting

  function CountWhere(slots: seq<Slot>, p: Slot -> bool): nat {
    if slots == [] then 0 else (if p(slots[0]) then 1 else 0) + CountWhere(slots[1..], p)
  }

  lemma {:induction false} CountConcat(a: seq<Slot>, b: seq<Slot>, p: Slot -> bool)
    ensures CountWhere(a + b, p) == CountWhere(a, p) + CountWhere(b, p)
  {
    if a == [] {
      assert a + b == b;
    } else {
      assert (a + b)[1..] == a[1..] + b;
      CountConcat(a[1..], b, p);
    }
  }

  lemma {:induction false} CountAll(slots: seq<Slot>, p: Slot -> bool)
    ensures (forall s :: s in slots ==> p(s)) ==> CountWhere(slots, p) == |slots|
    ensures (forall s :: s in slots ==> !p(s)) ==> CountWhere(slots, p) == 0
    ensures (exists s :: s in slots && p(s)) ==> CountWhere(slots, p) > 0
  {
    if slots != [] {
      CountAll(slots[1..], p);
      assert slots == [slots[0]] + slots[1..];
    }
  }

  lemma {:induction false} CountSame(slots: seq<Slot>, p: Slot -> bool, q: Slot -> bool)
    requires forall s :: s in slots ==> (p(s) <==> q(s))
    ensures CountWhere(slots, p) == CountWhere(slots, q)
  {
    if slots != [] {
      assert slots[0] in slots;
      forall s | s in slots[1..] ensures p(s) <==> q(s) { assert s in slots; }
      CountSame(slots[1..], p, q);
    }
  }

  lemma {:induction false} CountRemove(b: seq<Slot>, i: nat, p: Slot -> bool)
    requires i < |b|
    ensures CountWhere(b, p) == CountWhere(b[..i] + b[i + 1..], p) + if p(b[i]) then 1 else 0
  {
    var tail := b[i..];
    assert b == b[..i] + tail && tail[1..] == b[i + 1..];
    CountConcat(b[..i], tail, p);
    CountConcat(b[..i], b[i + 1..], p);
  }

  lemma RemoveContents(b: seq<Slot>, i: nat)
    requires i < |b|
    ensures multiset(b[..i] + b[i + 1..]) == multiset(b) - multiset{b[i]}
  {
    assert b == b[..i] + [b[i]] + b[i + 1..];
  }

  lemma FirstMatched(a: seq<Slot>, b: seq<Slot>) returns (i: nat)
    requires multiset(a) == multiset(b) && a != []
    ensures i < |b| && b[i] == a[0] && multiset(a[1..]) == multiset(b[..i] + b[i + 1..])
  {
    assert a[0] in multiset(a);
    i :| 0 <= i < |b| && b[i] == a[0];
    RemoveContents(b, i);
    assert a == [a[0]] + a[1..];
  }

  lemma NoneLeft(b: seq<Slot>)
    requires multiset(b) == multiset{}
    ensures b == []
  {
    assert |multiset(b)| == |b|;
  }

  // A round is a permutation of the slots, so it has every condition as often.
  lemma {:induction false} CountPermutation(a: seq<Slot>, b: seq<Slot>, p: Slot -> bool)
    requires multiset(a) == multiset(b)
    ensures CountWhere(a, p) == CountWhere(b, p)
  {
    if a == [] {
      NoneLeft(b);
    } else {
      var i := FirstMatched(a, b);
      CountPermutation(a[1..], b[..i] + b[i + 1..], p);
      CountRemove(b, i, p);
    }
  }

  // ---------------------------------------------------------------- the shares of one instance

  // How many of target draws, cycling through n places, fall on place i.
  function Share(target: nat, n: nat, i: nat): nat
    requires n > 0
  {
    target / n + if i < target % n then 1 else 0
  }

  lemma ShareStep(t: nat, n: nat, i: nat)
    requires n > 0 && i < n
    ensures Share(t + 1, n, i) == Share(t, n, i) + if i == t % n then 1 else 0
  {
    NextIndex(t, n);
  }

  // The shares of the places below k whose condition is counted.
  function Shares(kind: Kind, group: seq<Condition>, target: nat, p: Slot -> bool, k: nat): nat
    requires group != [] && k <= |group|
  {
    if k == 0 then 0
    else Shares(kind, group, target, p, k - 1)
         + if p(Slot(kind, group[k - 1])) then Share(target, |group|, k - 1) else 0
  }

  lemma {:induction false} SharesZero(kind: Kind, group: seq<Condition>, p: Slot -> bool, k: nat)
    requires group != [] && k <= |group|
    ensures Shares(kind, group, 0, p, k) == 0
  {
    if k > 0 { SharesZero(kind, group, p, k - 1); }
  }

  lemma {:induction false} SharesStep(kind: Kind, group: seq<Condition>, t: nat, p: Slot -> bool, k: nat)
    requires group != [] && k <= |group|
    ensures Shares(kind, group, t + 1, p, k)
         == Shares(kind, group, t, p, k)
            + if t % |group| < k && p(Slot(kind, group[t % |group|])) then 1 else 0
  {
    hide Share;
    if k > 0 {
      SharesStep(kind, group, t, p, k - 1);
      ShareStep(t, |group|, k - 1);
    }
  }

  // Every place of the group is drawn exactly its share of times.
  lemma {:induction false} CycleCount(kind: Kind, group: seq<Condition>, target: nat, p: Slot -> bool)
    requires group != []
    ensures CountWhere(Cycle(kind, group, target), p) == Shares(kind, group, target, p, |group|)
  {
    if target == 0 {
      SharesZero(kind, group, p, |group|);
    } else {
      var t := target - 1;
      var last := [Slot(kind, group[t % |group|])];
      CycleCount(kind, group, t, p);
      SharesStep(kind, group, t, p, |group|);
      assert Cycle(kind, group, target) == Cycle(kind, group, t) + last;
      CountConcat(Cycle(kind, group, t), last, p);
      assert last[1..] == [];
    }
  }

  // Only one place counts: its share is the count.
  lemma {:induction false} SharesOne(kind: Kind, group: seq<Condition>, target: nat, p: Slot -> bool, k: nat, i: nat)
    requires group != [] && k <= |group| && i < |group|
    requires forall j :: 0 <= j < |group| ==> (p(Slot(kind, group[j])) <==> j == i)
    ensures Shares(kind, group, target, p, k) == if i < k then Share(target, |group|, i) else 0
  {
    if k > 0 { SharesOne(kind, group, target, p, k - 1, i); }
  }

  // ---------------------------------------------------------------- all instances of a kind

  predicate Homogeneous(groups: seq<Instance>) {
    forall g, c :: g in groups && c in g.group ==> c.metrics == g.metrics
  }

  lemma {:induction false} ServedMembers(cs: seq<Condition>, metrics: string)
    ensures forall c :: c in Served(cs, metrics) <==> c in cs && c.metrics == metrics
  {
    if cs != [] {
      ServedMembers(cs[1..], metrics);
      assert cs == [cs[0]] + cs[1..];
    }
  }

  lemma {:induction false} IncludedMembers(cs: seq<Condition>, kind: Kind)
    ensures forall c :: c in Included(cs, kind) <==> c in cs && Includes(kind, c)
  {
    if cs != [] {
      IncludedMembers(cs[1..], kind);
      assert cs == [cs[0]] + cs[1..];
    }
  }

  // The instances of a kind are those that serve an included condition, each with all of these.
  lemma {:induction false} InstancesServe(conditions: seq<Condition>, kind: Kind)
    ensures var groups, cs := Instances(conditions, kind), Included(conditions, kind);
            && Homogeneous(groups)
            && (forall m :: GroupOf(groups, m) == Served(cs, m))
            && (forall m :: HasInstance(groups, m) <==> Served(cs, m) != [])
            && (forall i :: 0 <= i < |groups| ==> groups[i].group == Served(cs, groups[i].metrics))
  {
    var groups, cs := Instances(conditions, kind), Included(conditions, kind);
    forall m ensures GroupOf(groups, m) == Served(cs, m) && (HasInstance(groups, m) <==> Served(cs, m) != []) {
      GroupedServes([], cs, m);
      assert [] + Served(cs, m) == Served(cs, m);
    }
    forall i | 0 <= i < |groups| ensures groups[i].group == Served(cs, groups[i].metrics) { GroupAt(groups, i); }
    forall g, c | g in groups && c in g.group ensures c.metrics == g.metrics {
      var i :| 0 <= i < |groups| && groups[i] == g;
      ServedMembers(cs, g.metrics);
    }
  }

  lemma CycleMembers(kind: Kind, group: seq<Condition>, target: nat)
    requires group != []
    ensures forall s :: s in Cycle(kind, group, target) ==> s.kind == kind && s.condition in group
  {
  }

  // Slots that are counted only for one instance are found in that instance's cycle alone.
  lemma {:induction false} CyclesCount(kind: Kind, groups: seq<Instance>, target: nat, m: string, p: Slot -> bool)
    requires Filled(groups) && Homogeneous(groups)
    requires forall s :: p(s) ==> s.condition.metrics == m
    ensures CountWhere(Cycles(kind, groups, target), p)
         == if HasInstance(groups, m) then
              assert GroupOf(groups, m) != [] by { GroupFilled(groups, m); }
              CountWhere(Cycle(kind, GroupOf(groups, m), target), p)
            else 0
  {
    if groups != [] {
      var first, later := groups[0], groups[1..];
      assert first in groups;
      var cycle := Cycle(kind, first.group, target);
      CountConcat(cycle, Cycles(kind, later, target), p);
      CyclesCount(kind, later, target, m, p);
      Front(groups, m);
      CycleMembers(kind, first.group, target);
      CountAll(cycle, p);
      assert forall i :: 0 <= i < |later| ==> later[i].metrics == groups[i + 1].metrics != first.metrics;
    }
  }

  lemma {:induction false} GroupFilled(groups: seq<Instance>, m: string)
    requires Filled(groups) && HasInstance(groups, m)
    ensures GroupOf(groups, m) != []
  {
    var i :| 0 <= i < |groups| && groups[i].metrics == m;
    GroupAt(groups, i);
    assert groups[i] in groups;
  }

  // ---------------------------------------------------------------- the guarantee

  // The cycles of a kind that every busy instance serves in a round: the size of the largest group.
  function CyclesPerInstance(conditions: seq<Condition>, kind: Kind): nat { Target(Instances(conditions, kind)) }

  // It is the largest number of included conditions that share an instance.
  lemma {:induction false} LargestGroup(conditions: seq<Condition>, kind: Kind)
    ensures var t, cs := CyclesPerInstance(conditions, kind), Included(conditions, kind);
            && (forall m :: |Served(cs, m)| <= t)
            && (cs != [] ==> t > 0 && exists m :: |Served(cs, m)| == t)
  {
    var groups, cs := Instances(conditions, kind), Included(conditions, kind);
    InstancesServe(conditions, kind);
    forall m ensures |Served(cs, m)| <= Target(groups) {
      if HasInstance(groups, m) {
        var i :| 0 <= i < |groups| && groups[i].metrics == m;
        assert groups[i].group == Served(cs, m);
      }
    }
    if cs != [] {
      ServedMembers(cs, cs[0].metrics);
      assert cs[0] in Served(cs, cs[0].metrics);
      assert HasInstance(groups, cs[0].metrics);
      var i :| 0 <= i < |groups| && |groups[i].group| == Target(groups);
      assert |Served(cs, groups[i].metrics)| == Target(groups);
    }
  }

  lemma {:induction false} CyclesLength(kind: Kind, groups: seq<Instance>, target: nat)
    requires forall g :: g in groups ==> g.group != []
    ensures |Cycles(kind, groups, target)| == |groups| * target
  {
    if groups != [] {
      assert groups[0] in groups;
      CyclesLength(kind, groups[1..], target);
      assert |groups| * target == target + |groups[1..]| * target;
    }
  }

  lemma {:induction false} CyclesMember(kind: Kind, groups: seq<Instance>, target: nat, s: Slot) returns (g: Instance)
    requires (forall g :: g in groups ==> g.group != []) && s in Cycles(kind, groups, target)
    ensures s.kind == kind && g in groups && s.condition in g.group
  {
    assert groups[0] in groups;
    CycleMembers(kind, groups[0].group, target);
    if s in Cycle(kind, groups[0].group, target) {
      g := groups[0];
    } else {
      g := CyclesMember(kind, groups[1..], target, s);
    }
  }

  // A slot of a kind is for a condition that the kind includes: no login slot without login.
  lemma {:induction false} KindMembers(conditions: seq<Condition>, kind: Kind, s: Slot)
    requires s in KindSlots(conditions, kind)
    ensures s.kind == kind && s.condition in conditions && Includes(kind, s.condition)
  {
    var groups, cs := Instances(conditions, kind), Included(conditions, kind);
    var g := CyclesMember(kind, groups, Target(groups), s);
    InstancesServe(conditions, kind);
    var i :| 0 <= i < |groups| && groups[i] == g;
    ServedMembers(cs, g.metrics);
    IncludedMembers(conditions, kind);
  }

  // Slots counted for one kind are found among that kind's slots.
  lemma {:induction false} OneKind(conditions: seq<Condition>, kind: Kind, p: Slot -> bool)
    requires BalancedSlots(conditions).Some?
    requires forall s :: p(s) ==> s.kind == kind
    ensures CountWhere(BalancedSlots(conditions).value, p) == CountWhere(KindSlots(conditions, kind), p)
  {
    hide KindSlots, Includes;
    var a, b, c := KindSlots(conditions, Sso), KindSlots(conditions, Refresh), KindSlots(conditions, Login);
    CountConcat(a + b, c, p);
    CountConcat(a, b, p);
    OtherKind(conditions, Sso, kind, p);
    OtherKind(conditions, Refresh, kind, p);
    OtherKind(conditions, Login, kind, p);
  }

  lemma {:induction false} OtherKind(conditions: seq<Condition>, other: Kind, kind: Kind, p: Slot -> bool)
    requires forall s :: p(s) ==> s.kind == kind
    ensures other != kind ==> CountWhere(KindSlots(conditions, other), p) == 0
  {
    hide KindSlots;
    forall s | s in KindSlots(conditions, other) ensures s.kind == other { KindMembers(conditions, other, s); }
    CountAll(KindSlots(conditions, other), p);
  }

  // Every instance with an included condition serves exactly the same number of cycles of a kind,
  // and the others serve none.
  lemma {:induction false} InstancesBalanced(conditions: seq<Condition>, kind: Kind, metrics: string)
    requires BalancedSlots(conditions).Some?
    ensures CountWhere(BalancedSlots(conditions).value, (s: Slot) => s.kind == kind && s.condition.metrics == metrics)
         == if Served(Included(conditions, kind), metrics) == [] then 0 else CyclesPerInstance(conditions, kind)
  {
    hide BalancedSlots, Includes;
    var p := (s: Slot) => s.kind == kind && s.condition.metrics == metrics;
    var groups, target := Instances(conditions, kind), CyclesPerInstance(conditions, kind);
    OneKind(conditions, kind, p);
    InstancesServe(conditions, kind);
    CyclesCount(kind, groups, target, metrics, p);
    if HasInstance(groups, metrics) {
      var g := GroupOf(groups, metrics);
      GroupFilled(groups, metrics);
      ServedMembers(Included(conditions, kind), metrics);
      CycleMembers(kind, g, target);
      CountAll(Cycle(kind, g, target), p);
    }
  }

  // The count of any slots of one kind and instance, by the shares of its group.
  lemma {:induction false} SharesOfInstance(conditions: seq<Condition>, kind: Kind, metrics: string, p: Slot -> bool)
    requires BalancedSlots(conditions).Some?
    requires Served(Included(conditions, kind), metrics) != []
    requires forall s :: p(s) ==> s.kind == kind && s.condition.metrics == metrics
    ensures CountWhere(BalancedSlots(conditions).value, p)
         == Shares(kind, Served(Included(conditions, kind), metrics), CyclesPerInstance(conditions, kind), p,
                   |Served(Included(conditions, kind), metrics)|)
  {
    hide BalancedSlots, Includes;
    var groups, target := Instances(conditions, kind), CyclesPerInstance(conditions, kind);
    OneKind(conditions, kind, p);
    InstancesServe(conditions, kind);
    CyclesCount(kind, groups, target, metrics, p);
    CycleCount(kind, GroupOf(groups, metrics), target, p);
  }

  // The condition at place i of an instance that serves n conditions is measured target / n
  // times, once more when i is below the remainder: at least once, and evenly to within one.
  lemma {:induction false} ConditionShare(conditions: seq<Condition>, kind: Kind, metrics: string, i: nat)
    requires BalancedSlots(conditions).Some?
    requires var group := Served(Included(conditions, kind), metrics);
             i < |group| && forall j :: 0 <= j < |group| && j != i ==> group[j] != group[i]
    ensures var group, target := Served(Included(conditions, kind), metrics), CyclesPerInstance(conditions, kind);
            && CountWhere(BalancedSlots(conditions).value, (s: Slot) => s == Slot(kind, group[i]))
               == Share(target, |group|, i)
            && Share(target, |group|, i) >= 1
  {
    var group, target := Served(Included(conditions, kind), metrics), CyclesPerInstance(conditions, kind);
    var p := (s: Slot) => s == Slot(kind, group[i]);
    ServedMembers(Included(conditions, kind), metrics);
    assert group[i] in group;
    SharesOfInstance(conditions, kind, metrics, p);
    SharesOne(kind, group, target, p, |group|, i);
    LargestGroup(conditions, kind);
    AtLeastOne(target, |group|);
  }

  lemma AtLeastOne(target: nat, n: nat)
    requires 0 < n <= target
    ensures target / n >= 1
  {
    assert target == (target / n) * n + target % n;
  }

  // No condition without login gets a login slot, and every slot is for a given condition.
  lemma {:induction false} SlotMembers(conditions: seq<Condition>, s: Slot)
    requires BalancedSlots(conditions).Some? && s in BalancedSlots(conditions).value
    ensures s.condition in conditions && (s.kind == Login ==> s.condition.login)
  {
    hide KindSlots;
    if s in KindSlots(conditions, Sso) { KindMembers(conditions, Sso, s); }
    else if s in KindSlots(conditions, Refresh) { KindMembers(conditions, Refresh, s); }
    else { KindMembers(conditions, Login, s); }
  }

  // A round has, for each kind, as many slots as busy instances times the common number of cycles.
  lemma {:induction false} TotalSlots(conditions: seq<Condition>)
    requires BalancedSlots(conditions).Some?
    ensures |BalancedSlots(conditions).value|
         == |Instances(conditions, Sso)| * CyclesPerInstance(conditions, Sso)
            + |Instances(conditions, Refresh)| * CyclesPerInstance(conditions, Refresh)
            + |Instances(conditions, Login)| * CyclesPerInstance(conditions, Login)
  {
    CyclesLength(Sso, Instances(conditions, Sso), CyclesPerInstance(conditions, Sso));
    CyclesLength(Refresh, Instances(conditions, Refresh), CyclesPerInstance(conditions, Refresh));
    CyclesLength(Login, Instances(conditions, Login), CyclesPerInstance(conditions, Login));
  }

  lemma KindReached(conditions: seq<Condition>, kind: Kind, s: Slot)
    requires BalancedSlots(conditions).Some?
    requires s in Cycles(kind, Instances(conditions, kind), Target(Instances(conditions, kind)))
    ensures s in KindSlots(conditions, kind) && s in BalancedSlots(conditions).value
  {
    hide Cycles, Instances, Target, Included;
  }

  // Every condition that a kind includes is measured in every round.
  lemma {:induction false} EveryoneMeasured(conditions: seq<Condition>, kind: Kind, c: Condition)
    requires BalancedSlots(conditions).Some? && c in conditions && (kind == Login ==> c.login)
    ensures Slot(kind, c) in KindSlots(conditions, kind) && Slot(kind, c) in BalancedSlots(conditions).value
  {
    hide BalancedSlots, KindSlots, Included, Served, Cycles, Instances, Target;
    var groups, cs := Instances(conditions, kind), Included(conditions, kind);
    IncludedMembers(conditions, kind);
    ServedMembers(cs, c.metrics);
    InstancesServe(conditions, kind);
    LargestGroup(conditions, kind);
    var i :| 0 <= i < |groups| && groups[i].metrics == c.metrics;
    var j :| 0 <= j < |groups[i].group| && groups[i].group[j] == c;
    CycleReaches(kind, groups, Target(groups), i, j);
    KindReached(conditions, kind, Slot(kind, c));
  }

  lemma CycleHolds(kind: Kind, group: seq<Condition>, target: nat, j: nat)
    requires j < |group| <= target
    ensures Slot(kind, group[j]) in Cycle(kind, group, target)
  {
    DivMod(0, j, |group|);
    assert Cycle(kind, group, target)[j] == Slot(kind, group[j]);
  }

  lemma {:induction false} CycleReaches(kind: Kind, groups: seq<Instance>, target: nat, i: nat, j: nat)
    requires (forall g :: g in groups ==> g.group != []) && i < |groups| && j < |groups[i].group| <= target
    ensures Slot(kind, groups[i].group[j]) in Cycles(kind, groups, target)
  {
    hide Cycle;
    assert groups[0] in groups;
    if i == 0 {
      CycleHolds(kind, groups[0].group, target, j);
    } else {
      assert groups[1..][i - 1] == groups[i];
      CycleReaches(kind, groups[1..], target, i - 1, j);
    }
  }
}
