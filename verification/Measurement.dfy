// The measurement loop of the timing benchmark: every round runs the slots in a random order and
// appends one sample to the table of the slot's kind and condition.
module Measurement {
  import opened Wrappers
  import opened Schedule
  import opened Fairness

  datatype Sample = Sample(round: nat, position: nat, clientMs: real, serverMs: real)

  // samples[kind][name]
  datatype Key = Key(kind: Kind, name: string)

  function KeyOf(s: Slot): Key { Key(s.kind, s.condition.name) }

  // The tables made before the loop: one for each kind and condition that it includes.
  function Keys(conditions: seq<Condition>): set<Key> {
    set k: Kind, c | c in conditions && Includes(k, c) :: Key(k, c.name)
  }

  // The measured client and server time at a round and a position.
  type Clock = (nat, nat) -> (real, real)

  function SampleAt(measured: Clock, round: nat, position: nat): Sample {
    Sample(round, position, measured(round, position).0, measured(round, position).1)
  }

  // The samples of one key in the first n positions of a round.
  function RoundTable(slots: seq<Slot>, round: nat, n: nat, key: Key, measured: Clock): seq<Sample>
    requires n <= |slots|
  {
    if n == 0 then []
    else RoundTable(slots, round, n - 1, key, measured)
         + if KeyOf(slots[n - 1]) == key then [SampleAt(measured, round, n - 1)] else []
  }

  // The table of a key after the first n rounds.
  function Table(rounds: seq<seq<Slot>>, n: nat, key: Key, measured: Clock): seq<Sample>
    requires n <= |rounds|
  {
    if n == 0 then []
    else Table(rounds, n - 1, key, measured) + RoundTable(rounds[n - 1], n - 1, |rounds[n - 1]|, key, measured)
  }

  // A sample of a key carries the clock's client time and server time at the place where its round ran
  // a slot of that kind and condition.
  predicate SampleOf(s: Sample, slots: seq<Slot>, key: Key, measured: Clock) {
    && s.position < |slots|
    && slots[s.position].kind == key.kind && slots[s.position].condition.name == key.name
    && (s.clientMs, s.serverMs) == measured(s.round, s.position)
  }

  lemma {:induction false} RoundTableExact(slots: seq<Slot>, round: nat, n: nat, key: Key, measured: Clock, s: Sample)
    requires n <= |slots|
    ensures s in RoundTable(slots, round, n, key, measured) <==>
            s.round == round && s.position < n && SampleOf(s, slots, key, measured)
  {
    if n > 0 { RoundTableExact(slots, round, n - 1, key, measured, s); }
  }

  // The samples of a table are those of its key's slots in the first n rounds.
  lemma {:induction false} TableExact(rounds: seq<seq<Slot>>, n: nat, key: Key, measured: Clock, s: Sample)
    requires n <= |rounds|
    ensures s in Table(rounds, n, key, measured) <==> s.round < n && SampleOf(s, rounds[s.round], key, measured)
  {
    hide RoundTable, SampleOf;
    if n > 0 {
      TableExact(rounds, n - 1, key, measured, s);
      RoundTableExact(rounds[n - 1], n - 1, |rounds[n - 1]|, key, measured, s);
      if SampleOf(s, rounds[n - 1], key, measured) && s.round == n - 1 { InRound(s, rounds[n - 1], key, measured); }
    }
  }

  lemma InRound(s: Sample, slots: seq<Slot>, key: Key, measured: Clock)
    requires SampleOf(s, slots, key, measured)
    ensures s.position < |slots|
  {
  }

  // What order.sample(slots, len(slots)) can return, round after round.
  predicate Permutations(rounds: seq<seq<Slot>>, slots: seq<Slot>) {
    forall r :: 0 <= r < |rounds| ==> multiset(rounds[r]) == multiset(slots)
  }

  lemma SlotHasTable(conditions: seq<Condition>, slots: seq<Slot>, round: seq<Slot>, i: nat)
    requires BalancedSlots(conditions) == Some(slots) && multiset(round) == multiset(slots) && i < |round|
    ensures KeyOf(round[i]) in Keys(conditions)
  {
    hide KindSlots;
    var s := round[i];
    assert s in multiset(round);
    assert s in slots;
    SlotMembers(conditions, s);
    assert Includes(s.kind, s.condition);
  }

  // The loop over rounds and positions. Looking up a table never fails.
  method Measure(conditions: seq<Condition>, slots: seq<Slot>, rounds: seq<seq<Slot>>, measured: Clock)
    returns (samples: map<Key, seq<Sample>>)
    requires BalancedSlots(conditions) == Some(slots) && Permutations(rounds, slots)
    ensures samples.Keys == Keys(conditions)
    ensures forall key :: key in samples ==> samples[key] == Table(rounds, |rounds|, key, measured)
  {
    hide BalancedSlots, Keys, KeyOf, SampleAt;
    samples := map key | key in Keys(conditions) :: [];
    for round := 0 to |rounds|
      invariant samples.Keys == Keys(conditions)
      invariant forall key :: key in samples ==> samples[key] == Table(rounds, round, key, measured)
    {
      var order := rounds[round];
      for position := 0 to |order|
        invariant samples.Keys == Keys(conditions)
        invariant forall key :: key in samples ==>
                    samples[key] ==
                    Table(rounds, round, key, measured) + RoundTable(order, round, position, key, measured)
      {
        SlotHasTable(conditions, slots, order, position);
        var key := KeyOf(order[position]);
        samples := samples[key := samples[key] + [SampleAt(measured, round, position)]];
      }
    }
  }

  // ---------------------------------------------------------------- counting samples

  function CountRound(samples: seq<Sample>, round: nat): nat {
    if samples == [] then 0 else (if samples[0].round == round then 1 else 0) + CountRound(samples[1..], round)
  }

  lemma {:induction false} CountRoundConcat(a: seq<Sample>, b: seq<Sample>, round: nat)
    ensures CountRound(a + b, round) == CountRound(a, round) + CountRound(b, round)
  {
    if a == [] {
      assert a + b == b;
    } else {
      assert (a + b)[1..] == a[1..] + b;
      CountRoundConcat(a[1..], b, round);
    }
  }

  lemma {:induction false} CountRoundUniform(a: seq<Sample>, round: nat)
    requires forall s :: s in a ==> s.round == round
    ensures forall r :: CountRound(a, r) == if r == round then |a| else 0
  {
    if a != [] {
      forall s | s in a[1..] ensures s.round == round { assert s in a; }
      CountRoundUniform(a[1..], round);
      assert a[0] in a;
    }
  }

  function For(key: Key): Slot -> bool { (s: Slot) => KeyOf(s) == key }

  // How many slots of a round belong to a key.
  function SlotCount(slots: seq<Slot>, key: Key): nat { CountWhere(slots, For(key)) }

  lemma {:induction false} RoundTableCount(slots: seq<Slot>, round: nat, n: nat, key: Key, measured: Clock)
    requires n <= |slots|
    ensures |RoundTable(slots, round, n, key, measured)| == CountWhere(slots[..n], For(key))
    ensures forall s :: s in RoundTable(slots, round, n, key, measured) ==> s.round == round
  {
    if n > 0 {
      RoundTableCount(slots, round, n - 1, key, measured);
      assert slots[..n] == slots[..n - 1] + [slots[n - 1]];
      CountConcat(slots[..n - 1], [slots[n - 1]], For(key));
      assert [slots[n - 1]][1..] == [];
    }
  }

  // What a whole round adds to a table.
  lemma {:induction false} RoundAdds(slots: seq<Slot>, order: seq<Slot>, round: nat, key: Key, measured: Clock)
    requires multiset(order) == multiset(slots)
    ensures var t := RoundTable(order, round, |order|, key, measured);
            && |t| == SlotCount(slots, key)
            && forall r: nat :: CountRound(t, r) == if r == round then SlotCount(slots, key) else 0
  {
    hide CountWhere, RoundTable, CountRound;
    RoundTableCount(order, round, |order|, key, measured);
    assert order[..|order|] == order;
    CountPermutation(order, slots, For(key));
    CountRoundUniform(RoundTable(order, round, |order|, key, measured), round);
  }

  // Every round adds exactly as many samples to a table as the schedule has slots for its key.
  lemma {:induction false} TableCount(slots: seq<Slot>, rounds: seq<seq<Slot>>, n: nat, key: Key, measured: Clock)
    requires Permutations(rounds, slots) && n <= |rounds|
    ensures |Table(rounds, n, key, measured)| == n * SlotCount(slots, key)
    ensures forall r: nat ::
              CountRound(Table(rounds, n, key, measured), r) == if r < n then SlotCount(slots, key) else 0
  {
    hide CountRound, RoundTable, SlotCount;
    if n == 0 {
      NoRounds();
    } else {
      var before := Table(rounds, n - 1, key, measured);
      var added := RoundTable(rounds[n - 1], n - 1, |rounds[n - 1]|, key, measured);
      TableCount(slots, rounds, n - 1, key, measured);
      RoundAdds(slots, rounds[n - 1], n - 1, key, measured);
      forall r: nat
        ensures CountRound(before + added, r) == if r < n then SlotCount(slots, key) else 0
      {
        CountRoundConcat(before, added, r);
      }
      Times(n, SlotCount(slots, key));
    }
  }

  lemma NoRounds()
    ensures forall r: nat :: CountRound([], r) == 0
  {
  }

  lemma Times(n: nat, k: nat)
    requires n > 0
    ensures n * k == (n - 1) * k + k
  {
  }

  // A key that has a table has a slot in every round.
  lemma {:induction false} EveryTableGrows(conditions: seq<Condition>, slots: seq<Slot>, key: Key)
    requires BalancedSlots(conditions) == Some(slots) && key in Keys(conditions)
    ensures SlotCount(slots, key) >= 1
  {
    hide BalancedSlots, KindSlots;
    var c :| c in conditions && Includes(key.kind, c) && key == Key(key.kind, c.name);
    EveryoneMeasured(conditions, key.kind, c);
    var s := Slot(key.kind, c);
    assert s in slots;
    CountAll(slots, For(key));
  }

  // After N rounds a table has N times its slot count of samples, and some in each round.
  lemma {:induction false} TablesComplete(conditions: seq<Condition>, slots: seq<Slot>, rounds: seq<seq<Slot>>,
                                          key: Key, measured: Clock)
    requires BalancedSlots(conditions) == Some(slots) && Permutations(rounds, slots) && key in Keys(conditions)
    ensures var t := Table(rounds, |rounds|, key, measured);
            && |t| == |rounds| * SlotCount(slots, key)
            && forall r: nat :: CountRound(t, r) > 0 <==> r < |rounds|
  {
    hide BalancedSlots, Table;
    TableCount(slots, rounds, |rounds|, key, measured);
    EveryTableGrows(conditions, slots, key);
  }
}
