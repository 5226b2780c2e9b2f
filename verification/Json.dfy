// JSON values as JavaScript and Python hold them: objects keep their members in order and hold
// each name once. The meaning of a value forgets the member order.
module Json {
  import opened Wrappers
  import opened Decimals

  datatype Json =
    | Null
    | Bool(b: bool)
    | Num(n: Number)
    | Str(s: string)
    | Arr(items: seq<Json>)
    | Obj(members: seq<Member>)

  datatype Member = Member(name: string, value: Json)

  // ---------------------------------------------------------------- objects

  predicate Has(ms: seq<Member>, name: string) { exists i :: 0 <= i < |ms| && ms[i].name == name }

  function Lookup(ms: seq<Member>, name: string): (r: Option<Json>)
    ensures r.Some? <==> Has(ms, name)
    ensures r.Some? ==> exists i :: 0 <= i < |ms| && ms[i] == Member(name, r.value)
  {
    if ms == [] then None
    else if ms[0].name == name then Some(ms[0].value)
    else
      var r := Lookup(ms[1..], name);
      assert forall i :: 0 <= i < |ms[1..]| ==> ms[1..][i] == ms[i + 1];
      assert Has(ms, name) ==> Has(ms[1..], name) by {
        if Has(ms, name) {
          var i :| 0 <= i < |ms| && ms[i].name == name;
          assert ms[1..][i - 1].name == name;
        }
      }
      r
  }

  // Assignment of an own member: in place when the name exists, at the end otherwise.
  function Put(ms: seq<Member>, name: string, value: Json): seq<Member> {
    if ms == [] then [Member(name, value)]
    else if ms[0].name == name then [Member(name, value)] + ms[1..]
    else [ms[0]] + Put(ms[1..], name, value)
  }

  function Remove(ms: seq<Member>, name: string): seq<Member> {
    if ms == [] then []
    else if ms[0].name == name then Remove(ms[1..], name)
    else [ms[0]] + Remove(ms[1..], name)
  }

  function Names(ms: seq<Member>): set<string> { set i | 0 <= i < |ms| :: ms[i].name }

  predicate Unique(ms: seq<Member>) {
    forall i, j :: 0 <= i < j < |ms| ==> ms[i].name != ms[j].name
  }

  // What JSON.parse and json.loads return: no object holds a name twice, at any depth.
  predicate WellFormed(v: Json) {
    match v
    case Arr(items) => forall i :: 0 <= i < |items| ==> WellFormed(items[i])
    case Obj(ms) => Unique(ms) && forall i :: 0 <= i < |ms| ==> WellFormed(ms[i].value)
    case _ => true
  }

  lemma {:induction false} LookupAt(ms: seq<Member>, i: nat)
    requires Unique(ms) && i < |ms|
    ensures Lookup(ms, ms[i].name) == Some(ms[i].value)
  {
    var r := Lookup(ms, ms[i].name);
    assert Has(ms, ms[i].name);
    var j :| 0 <= j < |ms| && ms[j] == Member(ms[i].name, r.value);
    assert j == i;
  }

  lemma {:induction false} LookupPut(ms: seq<Member>, name: string, value: Json, other: string)
    ensures Lookup(Put(ms, name, value), other) == if other == name then Some(value) else Lookup(ms, other)
  {
    if ms != [] && ms[0].name != name {
      LookupPut(ms[1..], name, value, other);
      assert Put(ms, name, value)[1..] == Put(ms[1..], name, value);
    }
  }

  lemma {:induction false} PutNew(ms: seq<Member>, name: string, value: Json)
    requires !Has(ms, name)
    ensures Put(ms, name, value) == ms + [Member(name, value)]
  {
    if ms != [] {
      assert ms[0].name != name;
      forall i | 0 <= i < |ms[1..]| ensures ms[1..][i].name != name { assert ms[1..][i] == ms[i + 1]; }
      PutNew(ms[1..], name, value);
      assert ms == [ms[0]] + ms[1..];
    }
  }

  lemma {:induction false} PutNames(ms: seq<Member>, name: string, value: Json)
    ensures Names(Put(ms, name, value)) == Names(ms) + {name}
  {
    var out := Put(ms, name, value);
    forall k ensures k in Names(out) <==> k in Names(ms) + {name} {
      LookupPut(ms, name, value, k);
      NamesHas(out, k);
      NamesHas(ms, k);
    }
  }

  lemma NamesHas(ms: seq<Member>, name: string)
    ensures name in Names(ms) <==> Has(ms, name)
  {
  }

  lemma {:induction false} PutUnique(ms: seq<Member>, name: string, value: Json)
    requires Unique(ms)
    ensures Unique(Put(ms, name, value))
  {
    if ms != [] && ms[0].name != name {
      PutUnique(ms[1..], name, value);
      var rest := Put(ms[1..], name, value);
      PutNames(ms[1..], name, value);
      forall j | 0 <= j < |rest| ensures rest[j].name != ms[0].name {
        assert rest[j].name in Names(rest);
      }
    }
  }

  lemma {:induction false} LookupRemove(ms: seq<Member>, name: string, other: string)
    ensures Lookup(Remove(ms, name), other) == if other == name then None else Lookup(ms, other)
  {
    if ms != [] {
      LookupRemove(ms[1..], name, other);
      if ms[0].name != name {
        assert Remove(ms, name)[1..] == Remove(ms[1..], name);
      }
    }
  }

  // ---------------------------------------------------------------- meaning

  // A JSON value up to the order of object members.
  datatype Meaning =
    | MNull
    | MBool(b: bool)
    | MNum(n: Number)
    | MStr(s: string)
    | MArr(items: seq<Meaning>)
    | MObj(members: map<string, Meaning>)

  function MeaningOf(v: Json): Meaning {
    match v
    case Null => MNull
    case Bool(b) => MBool(b)
    case Num(n) => MNum(n)
    case Str(s) => MStr(s)
    case Arr(items) => MArr(seq(|items|, i requires 0 <= i < |items| => MeaningOf(items[i])))
    case Obj(ms) => MObj(MeaningOfMembers(ms))
  }

  function MeaningOfMembers(ms: seq<Member>): map<string, Meaning> {
    if ms == [] then map[] else MeaningOfMembers(ms[1..])[ms[0].name := MeaningOf(ms[0].value)]
  }

  // The same JSON, whatever order its objects list their members in.
  predicate Same(a: Json, b: Json) { MeaningOf(a) == MeaningOf(b) }

  // Lookups determine the meaning of an object.
  lemma {:induction false} MeaningLookup(ms: seq<Member>, name: string)
    ensures name in MeaningOfMembers(ms) <==> Has(ms, name)
    ensures Has(ms, name) ==> MeaningOfMembers(ms)[name] == MeaningOf(Lookup(ms, name).value)
  {
    if ms != [] && ms[0].name != name {
      MeaningLookup(ms[1..], name);
    }
  }

  lemma {:induction false} SameMembers(a: seq<Member>, b: seq<Member>)
    requires forall k :: Has(a, k) <==> Has(b, k)
    requires forall k :: Has(a, k) ==> Same(Lookup(a, k).value, Lookup(b, k).value)
    ensures Same(Obj(a), Obj(b))
  {
    var ma, mb := MeaningOfMembers(a), MeaningOfMembers(b);
    forall k ensures (k in ma <==> k in mb) && (k in ma ==> ma[k] == mb[k]) {
      MeaningLookup(a, k);
      MeaningLookup(b, k);
    }
    assert ma == mb;
  }

  lemma {:induction false} SameLookup(a: seq<Member>, b: seq<Member>, name: string)
    requires Same(Obj(a), Obj(b))
    ensures Has(a, name) <==> Has(b, name)
    ensures Has(a, name) ==> Same(Lookup(a, name).value, Lookup(b, name).value)
  {
    MeaningLookup(a, name);
    MeaningLookup(b, name);
  }

  lemma {:induction false} SameArray(a: seq<Json>, b: seq<Json>)
    ensures Same(Arr(a), Arr(b)) <==> |a| == |b| && forall i :: 0 <= i < |a| ==> Same(a[i], b[i])
  {
    var ma, mb := MeaningOf(Arr(a)).items, MeaningOf(Arr(b)).items;
    if |a| == |b| && forall i :: 0 <= i < |a| ==> Same(a[i], b[i]) {
      assert ma == mb;
    }
    if ma == mb {
      forall i | 0 <= i < |a| ensures Same(a[i], b[i]) { assert ma[i] == mb[i]; }
    }
  }
}
