// What the page builds from a form, said of its switches and fields one by one: which member each
// of them becomes, which row wins under a repeated name, and which error comes first.
module Building {
  import opened Wrappers
  import opened Decimals
  import opened Json
  import opened JsonText
  import opened TextFields
  import opened Scalars
  import opened ClaimsForm
  import opened Arrangement
  import Converse
  import ExactDomain
  import LoadThenBuild

  // The members are those of a map, and the flag if it is set.
  ghost predicate Carries(ms: seq<Member>, flag: bool, others: map<string, Json>) {
    forall k :: Lookup(ms, k) ==
      if flag && k == "essential" then Some(Bool(true)) else if k in others then Some(others[k]) else None
  }

  // ---------------------------------------------------------------- one row

  function Bounds(row: Row): map<string, Json> {
    (if row.min == "" then map[] else map["min" := Num(FieldNumber(row.min))])
    + if row.max == "" then map[] else map["max" := Num(FieldNumber(row.max))]
  }

  // A row becomes null, or an object of what its mode asks for.
  ghost predicate RowBuilds(row: Row, v: Json) {
    match row.mode
    case Requested => v == Null
    case Exact => v.Obj? && Carries(v.members, row.essential, map["value" := ParseText(row.value)])
    case OneOfThese =>
      v.Obj? && Carries(v.members, row.essential, map["values" := Arr(ParseEach(Tokens(row.value)))])
    case Range => v.Obj? && Carries(v.members, row.essential, Bounds(row))
    case Presence => v.Obj? && Carries(v.members, row.essential, map[])
  }

  // The error that a row throws.
  predicate RowFails(row: Row, metadata: bool, e: Thrown) {
    var name := Trim(row.name);
    if name == "" then e == NeedsRowName
    else if metadata && name == "time" then e == TimeIsNotARow
    else
      match row.mode
      case Exact => Trim(row.value) == "" && e == NeedsValue(name)
      case OneOfThese => (forall p :: p in Split(row.value) ==> Trim(p) == "") && e == NeedsList(name)
      case Range => row.min == "" && row.max == "" && e == NeedsBound(name)
      case _ => false
  }

  ghost predicate RowGood(row: Row, metadata: bool) { forall e :: !RowFails(row, metadata, e) }

  lemma BlankTokens(ps: seq<string>)
    ensures Trimmed(ps) == [] <==> forall p :: p in ps ==> Trim(p) == ""
  {
  }

  lemma FlagCarries(flag: bool, ms: seq<Member>, others: map<string, Json>)
    requires Carries(ms, false, others)
    ensures Carries(Flag(flag) + ms, flag, others)
  {
    hide Lookup;
    forall k
      ensures Lookup(Flag(flag) + ms, k)
           == if flag && k == "essential" then Some(Bool(true)) else if k in others then Some(others[k]) else None
    {
      Converse.FlagLookup(flag, ms, k);
    }
  }

  lemma OneCarried(name: string, v: Json)
    ensures Carries([Member(name, v)], false, map[name := v])
  {
    forall k ensures Lookup([Member(name, v)], k) == if k == name then Some(v) else None { LookupOne(name, v, k); }
  }

  lemma NoneCarried()
    ensures Carries([], false, map[])
  {
  }

  lemma BoundsCarried(row: Row)
    ensures Carries(Bound("min", row.min) + Bound("max", row.max), false, Bounds(row))
  {
    forall k
      ensures Lookup(Bound("min", row.min) + Bound("max", row.max), k)
           == if k in Bounds(row) then Some(Bounds(row)[k]) else None
    {
      LookupConcat(Bound("min", row.min), Bound("max", row.max), k);
      if row.min != "" { LookupOne("min", Num(FieldNumber(row.min)), k); }
      if row.max != "" { LookupOne("max", Num(FieldNumber(row.max)), k); }
    }
  }

  lemma ValueBuilds(row: Row, name: string)
    requires ConstraintValue(row, name).Ok?
    ensures var v := ConstraintValue(row, name).value;
            RowBuilds(row, v) && (v == Null <==> row.mode == Requested)
  {
    hide Carries, ParseText, Tokens, FieldNumber, Flag, Trim;
    match row.mode
    case Requested =>
    case Exact =>
      OneCarried("value", ParseText(row.value));
      FlagCarries(row.essential, [Member("value", ParseText(row.value))], map["value" := ParseText(row.value)]);
    case OneOfThese =>
      var vs := Arr(ParseEach(Tokens(row.value)));
      OneCarried("values", vs);
      FlagCarries(row.essential, [Member("values", vs)], map["values" := vs]);
    case Range =>
      hide Bound, Bounds;
      BoundsCarried(row);
      FlagCarries(row.essential, Bound("min", row.min) + Bound("max", row.max), Bounds(row));
      assert Flag(row.essential) + Bound("min", row.min) + Bound("max", row.max) ==
             Flag(row.essential) + (Bound("min", row.min) + Bound("max", row.max));
    case Presence =>
      NoneCarried();
      FlagCarries(row.essential, [], map[]);
      assert Flag(row.essential) + [] == Flag(row.essential);
  }

  lemma ValueFails(row: Row, metadata: bool)
    requires Trim(row.name) != "" && !(metadata && Trim(row.name) == "time")
    ensures match ConstraintValue(row, Trim(row.name))
            case Ok(_) => RowGood(row, metadata)
            case Err(e) => RowFails(row, metadata, e)
  {
    hide Trim, Split, Trimmed, ParseText, ParseEach, FieldNumber, Flag, Bound;
    BlankTokens(Split(row.value));
  }

  // ---------------------------------------------------------------- the rows of a section

  // Row i is the last one with a name.
  predicate LastRow(rows: seq<Row>, name: string, i: nat) {
    i < |rows| && Trim(rows[i].name) == name && forall j :: i < j < |rows| ==> Trim(rows[j].name) != name
  }

  // "__proto__" is an ordinary name only after a row that set the prototype to null.
  predicate Ordinary(rows: seq<Row>, name: string, i: nat) {
    name == "__proto__" ==>
      exists h :: 0 <= h < i && h < |rows| && Trim(rows[h].name) == "__proto__" && rows[h].mode == Requested
  }

  // The row whose value a name has.
  predicate Wins(rows: seq<Row>, name: string, i: nat) { LastRow(rows, name, i) && Ordinary(rows, name, i) }

  // A name has the value of its last row, and without one what it had at the start.
  ghost predicate SectionBuilds(start: seq<Member>, rows: seq<Row>, ms: seq<Member>) {
    && (forall k, i: nat :: Wins(rows, k, i) ==> Has(ms, k) && RowBuilds(rows[i], Lookup(ms, k).value))
    && (forall k :: (forall i: nat :: !Wins(rows, k, i)) ==> Lookup(ms, k) == Lookup(start, k))
  }

  // The error of the first row that throws one.
  ghost predicate RowsFail(rows: seq<Row>, metadata: bool, e: Thrown) {
    exists i ::
      0 <= i < |rows| && RowFails(rows[i], metadata, e) && forall j :: 0 <= j < i ==> RowGood(rows[j], metadata)
  }

  ghost predicate RowsGood(rows: seq<Row>, metadata: bool) { forall r :: r in rows ==> RowGood(r, metadata) }

  // Part way through the rows.
  ghost predicate TargetBuilds(start: seq<Member>, rows: seq<Row>, t: Target) {
    && SectionBuilds(start, rows, t.members)
    && (t.bare <==> Ordinary(rows, "__proto__", |rows|))
  }

  lemma OrdinarySnoc(rows: seq<Row>, row: Row, name: string, i: nat)
    requires i <= |rows|
    ensures Ordinary(rows + [row], name, i) <==> Ordinary(rows, name, i)
    ensures Ordinary(rows + [row], name, |rows| + 1) <==>
            Ordinary(rows, name, |rows|) || (Trim(row.name) == "__proto__" && row.mode == Requested)
  {
    hide Trim;
    var all := rows + [row];
    assert all[|rows|] == row && forall j :: 0 <= j < |rows| ==> all[j] == rows[j];
    if h :| 0 <= h < i && h < |rows| && Trim(rows[h].name) == "__proto__" && rows[h].mode == Requested {
      assert Trim(all[h].name) == "__proto__";
    }
    if h :| 0 <= h < |rows| && Trim(rows[h].name) == "__proto__" && rows[h].mode == Requested {
      assert Trim(all[h].name) == "__proto__";
    }
  }

  lemma WinsSnoc(rows: seq<Row>, row: Row, name: string, i: nat)
    ensures Wins(rows + [row], name, i) <==>
            if Trim(row.name) == name then i == |rows| && Ordinary(rows, name, i) else Wins(rows, name, i)
    ensures Wins(rows, name, i) ==> i < |rows|
  {
    hide Trim;
    var all := rows + [row];
    assert all[|rows|] == row && forall j :: 0 <= j < |rows| ==> all[j] == rows[j];
    if i <= |rows| { OrdinarySnoc(rows, row, name, i); }
    hide Ordinary;
  }

  lemma NoneWins(rows: seq<Row>, i: nat)
    requires !Ordinary(rows, "__proto__", |rows|)
    ensures !Wins(rows, "__proto__", i)
  {
  }

  lemma OrdinaryName(rows: seq<Row>, name: string, i: nat)
    requires name != "__proto__"
    ensures Ordinary(rows, name, i)
  {
  }

  lemma AssignAt(t: Target, name: string, v: Json, k: string)
    ensures var u := Assign(t, name, v);
            && Lookup(u.members, k) ==
                 (if k == name && (name == "__proto__" ==> t.bare) then Some(v) else Lookup(t.members, k))
            && (u.bare <==> t.bare || (name == "__proto__" && v == Null))
  {
    hide Put, Lookup;
    LookupPut(t.members, name, v, k);
  }

  lemma RowStep(start: seq<Member>, rows: seq<Row>, t: Target, row: Row, v: Json)
    requires TargetBuilds(start, rows, t) && RowBuilds(row, v) && (v == Null <==> row.mode == Requested)
    ensures TargetBuilds(start, rows + [row], Assign(t, Trim(row.name), v))
  {
    hide Trim, RowBuilds, Ordinary, Wins, Lookup, Has, Assign;
    var name, all, u := Trim(row.name), rows + [row], Assign(t, Trim(row.name), v);
    OrdinarySnoc(rows, row, "__proto__", |rows|);
    AssignAt(t, name, v, name);
    if name != "__proto__" { OrdinaryName(rows, name, |rows|); }
    assert Ordinary(rows, name, |rows|) <==> (name == "__proto__" ==> t.bare);
    forall k, i: nat | Wins(all, k, i)
      ensures i < |all| && Has(u.members, k) && RowBuilds(all[i], Lookup(u.members, k).value)
    {
      WinsSnoc(rows, row, k, i);
      AssignAt(t, name, v, k);
      assert if i == |rows| then all[i] == row else all[i] == rows[i];
    }
    forall k | forall i: nat :: !Wins(all, k, i)
      ensures Lookup(u.members, k) == Lookup(start, k)
    {
      NoWinner(rows, row, k);
      AssignAt(t, name, v, k);
    }
  }

  lemma NoWinner(rows: seq<Row>, row: Row, name: string)
    requires forall i: nat :: !Wins(rows + [row], name, i)
    ensures Trim(row.name) == name ==> !Ordinary(rows, name, |rows|)
    ensures forall i: nat :: !Wins(rows, name, i)
  {
    hide Trim, Ordinary, Wins;
    WinsSnoc(rows, row, name, |rows|);
    forall i: nat ensures !Wins(rows, name, i) {
      WinsSnoc(rows, row, name, i);
      if Trim(row.name) == name { LateWinner(rows, name, i); }
    }
  }

  lemma LateWinner(rows: seq<Row>, name: string, i: nat)
    requires !Ordinary(rows, name, |rows|)
    ensures !Wins(rows, name, i)
  {
  }

  lemma AddRowsSnoc(t: Target, rows: seq<Row>, row: Row, metadata: bool)
    ensures AddRows(t, rows + [row], metadata)
         == match AddRows(t, rows, metadata) case Err(e) => Err(e) case Ok(u) => AddRow(u, row, metadata)
    decreases |rows|
  {
    hide AddRow;
    var all := rows + [row];
    if rows == [] {
      assert all == [row] && all[1..] == [];
    } else {
      assert all[0] == rows[0] && all[1..] == rows[1..] + [row];
      match AddRow(t, rows[0], metadata)
      case Err(_) =>
      case Ok(u) => AddRowsSnoc(u, rows[1..], row, metadata);
    }
  }

  lemma RowAdds(t: Target, row: Row, metadata: bool)
    ensures match AddRow(t, row, metadata)
            case Err(e) => RowFails(row, metadata, e)
            case Ok(u) =>
              && RowGood(row, metadata) && ConstraintValue(row, Trim(row.name)).Ok?
              && u == Assign(t, Trim(row.name), ConstraintValue(row, Trim(row.name)).value)
              && RowBuilds(row, ConstraintValue(row, Trim(row.name)).value)
              && (ConstraintValue(row, Trim(row.name)).value == Null <==> row.mode == Requested)
  {
    hide Assign, ConstraintValue, RowBuilds, RowGood, RowFails, Trim;
    BadName(row, metadata);
    if Trim(row.name) != "" && !(metadata && Trim(row.name) == "time") {
      ValueFails(row, metadata);
      if ConstraintValue(row, Trim(row.name)).Ok? { ValueBuilds(row, Trim(row.name)); }
    }
  }

  lemma BadName(row: Row, metadata: bool)
    ensures Trim(row.name) == "" ==> RowFails(row, metadata, NeedsRowName)
    ensures metadata && Trim(row.name) == "time" ==> RowFails(row, metadata, TimeIsNotARow)
  {
    hide Trim;
  }

  lemma {:induction false} RowsAdd(start: seq<Member>, rows: seq<Row>, metadata: bool)
    ensures match AddRows(Target(start, false), rows, metadata)
            case Err(e) => RowsFail(rows, metadata, e)
            case Ok(t) => RowsGood(rows, metadata) && TargetBuilds(start, rows, t)
    decreases |rows|
  {
    hide AddRow, RowFails, RowGood, Assign, ConstraintValue, RowBuilds, TargetBuilds;
    if rows == [] {
      NoRowsBuild(start);
    } else {
      var last := |rows| - 1;
      var shorter, row := rows[..last], rows[last];
      assert rows == shorter + [row];
      AddRowsSnoc(Target(start, false), shorter, row, metadata);
      RowsAdd(start, shorter, metadata);
      match AddRows(Target(start, false), shorter, metadata)
      case Err(e) =>
        var i :| 0 <= i < |shorter| && RowFails(shorter[i], metadata, e) &&
                 forall j :: 0 <= j < i ==> RowGood(shorter[j], metadata);
        assert RowFails(rows[i], metadata, e);
      case Ok(t) =>
        RowAdds(t, row, metadata);
        if AddRow(t, row, metadata).Ok? {
          RowStep(start, shorter, t, row, ConstraintValue(row, Trim(row.name)).value);
        }
    }
  }

  lemma NoRowsBuild(start: seq<Member>)
    ensures TargetBuilds(start, [], Target(start, false))
  {
  }

  // The rows of a section fill it, or the first bad one throws.
  lemma SectionExact(start: seq<Member>, rows: seq<Row>, metadata: bool)
    ensures match SectionRows(start, rows, metadata)
            case Err(e) => RowsFail(rows, metadata, e)
            case Ok(ms) => RowsGood(rows, metadata) && SectionBuilds(start, rows, ms)
  {
    hide AddRows, SectionBuilds, RowsFail, RowsGood;
    RowsAdd(start, rows, metadata);
  }

  // ---------------------------------------------------------------- factors

  // The text of a maximum age must denote a non-negative integer.
  predicate TimeGood(f: Factor) {
    f.maxAge == "" || (FieldNumber(f.maxAge).exponent >= 0 && !FieldNumber(f.maxAge).neg)
  }

  // The execution time is asked for by its switch or by a maximum age: as null, or with the flag and
  // the age.
  ghost predicate TimeBuilds(f: Factor, time: seq<Member>) {
    if !f.timeRequested && f.maxAge == "" then time == []
    else
      && |time| == 1 && time[0].name == "time"
      && if !f.timeEssential && f.maxAge == "" then time[0].value == Null
         else
           && time[0].value.Obj?
           && Carries(time[0].value.members, f.timeEssential,
                      if f.maxAge == "" then map[] else map["max_age" := Num(FieldNumber(f.maxAge))])
  }

  lemma TimeExact(f: Factor)
    ensures TimeMembers(f).Ok? <==> TimeGood(f)
    ensures TimeMembers(f).Ok? ==> TimeBuilds(f, TimeMembers(f).value)
    ensures TimeMembers(f).Err? ==> TimeMembers(f).error == BadMaximumAge
  {
    hide Carries;
    var age := Bound("max_age", f.maxAge);
    if f.maxAge == "" {
      NoneCarried();
      FlagCarries(f.timeEssential, [], map[]);
    } else {
      OneCarried("max_age", Num(FieldNumber(f.maxAge)));
      FlagCarries(f.timeEssential, age, map["max_age" := Num(FieldNumber(f.maxAge))]);
    }
  }

  ghost predicate FactorGood(f: Factor) {
    Trim(f.identifier) != "" && TimeGood(f) && RowsGood(f.metadata, true) && RowsGood(f.properties, false)
  }

  // The first error of a factor: its identifier, its time, its metadata, its properties.
  ghost predicate FactorFails(f: Factor, e: Thrown) {
    if Trim(f.identifier) == "" then e == NeedsIdentifier
    else if !TimeGood(f) then e == BadMaximumAge
    else RowsFail(f.metadata, true, e) || (RowsGood(f.metadata, true) && RowsFail(f.properties, false, e))
  }

  // An object under a name, left out when it has no members.
  ghost predicate Part(ms: seq<Member>, name: string, part: seq<Member>) {
    Lookup(ms, name) == if part == [] then None else Some(Obj(part))
  }

  ghost predicate FactorBuilds(f: Factor, ms: seq<Member>) {
    exists time, metadata, properties ::
      && TimeBuilds(f, time) && SectionBuilds(time, f.metadata, metadata)
      && SectionBuilds([], f.properties, properties)
      && Lookup(ms, "amr_identifier") == Some(Obj([Member("value", Str(Trim(f.identifier)))]))
      && Part(ms, "amr_metadata", metadata) && Part(ms, "amr_properties", properties)
      && forall k :: Has(ms, k) ==> k in {"amr_identifier", "amr_metadata", "amr_properties"}
  }

  lemma PartsLookup(id: string, mm: seq<Member>, pm: seq<Member>)
    ensures var ms := Identifier(id) + Section("amr_metadata", mm) + Section("amr_properties", pm);
            && Lookup(ms, "amr_identifier") == Some(Obj([Member("value", Str(id))]))
            && Part(ms, "amr_metadata", mm) && Part(ms, "amr_properties", pm)
            && forall k :: Has(ms, k) ==> k in {"amr_identifier", "amr_metadata", "amr_properties"}
  {
    hide Lookup, Has, Section, Identifier;
    var ms := Identifier(id) + Section("amr_metadata", mm) + Section("amr_properties", pm);
    ExactDomain.LookupBuilt(id, mm, pm, "amr_identifier");
    ExactDomain.LookupBuilt(id, mm, pm, "amr_metadata");
    ExactDomain.LookupBuilt(id, mm, pm, "amr_properties");
    forall k | Has(ms, k) ensures k in {"amr_identifier", "amr_metadata", "amr_properties"} {
      ExactDomain.LookupBuilt(id, mm, pm, k);
    }
  }

  lemma FactorExact(f: Factor)
    ensures match FactorMembers(f)
            case Err(e) => FactorFails(f, e)
            case Ok(ms) => FactorGood(f) && FactorBuilds(f, ms)
  {
    hide Trim, TimeMembers, TimeGood, TimeBuilds, SectionRows, SectionBuilds, RowsGood, RowsFail, Identifier, Section,
         Part, Lookup, Has;
    TimeExact(f);
    if TimeMembers(f).Ok? {
      var time := TimeMembers(f).value;
      SectionExact(time, f.metadata, true);
      SectionExact([], f.properties, false);
      if SectionRows(time, f.metadata, true).Ok? && SectionRows([], f.properties, false).Ok? {
        PartsLookup(Trim(f.identifier), SectionRows(time, f.metadata, true).value,
                    SectionRows([], f.properties, false).value);
      }
    }
  }

  // ---------------------------------------------------------------- groups

  ghost predicate NodeGood(n: Node)
    decreases n
  {
    match n
    case Leaf(f) => FactorGood(f)
    case Group(_, children) => children != [] && forall i :: 0 <= i < |children| ==> NodeGood(children[i])
  }

  // The error of the first node, in document order, that throws one.
  ghost predicate NodeFails(n: Node, e: Thrown)
    decreases n
  {
    match n
    case Leaf(f) => FactorFails(f, e)
    case Group(_, children) =>
      if children == [] then e == EmptyGroup
      else
        exists i ::
          && 0 <= i < |children| && NodeFails(children[i], e)
          && forall j :: 0 <= j < i ==> NodeGood(children[j])
  }

  // A group becomes one member, named after its operator, with its children in order.
  ghost predicate NodeBuilds(n: Node, v: Json)
    decreases n
  {
    v.Obj? &&
    match n
    case Leaf(f) => FactorBuilds(f, v.members)
    case Group(op, children) =>
      exists items: seq<Json> ::
        && v.members == [Member(if op == AllOf then "all_of" else "one_of", Arr(items))] && |items| == |children|
        && forall i :: 0 <= i < |items| ==> NodeBuilds(children[i], items[i])
  }

  // A node becomes the JSON it shows, or the first error in document order is thrown.
  lemma {:induction false} NodeExact(n: Node)
    ensures match NodeMembers(n)
            case Err(e) => NodeFails(n, e)
            case Ok(ms) => NodeGood(n) && NodeBuilds(n, Obj(ms))
    decreases n
  {
    hide FactorMembers, FactorGood, FactorFails, FactorBuilds;
    match n
    case Leaf(f) => FactorExact(f);
    case Group(_, children) => NodesExact(children);
  }

  lemma {:induction false} NodesExact(ns: seq<Node>)
    ensures match NodeList(ns)
            case Err(e) =>
              exists i :: 0 <= i < |ns| && NodeFails(ns[i], e) && forall j :: 0 <= j < i ==> NodeGood(ns[j])
            case Ok(items) =>
              && (forall i :: 0 <= i < |ns| ==> NodeGood(ns[i]))
              && (forall i :: 0 <= i < |ns| ==> NodeBuilds(ns[i], items[i]))
    decreases ns
  {
    hide NodeMembers, NodeGood, NodeFails, NodeBuilds;
    if ns != [] {
      NodeExact(ns[0]);
      NodesExact(ns[1..]);
      assert forall i :: 0 < i < |ns| ==> ns[i] == ns[1..][i - 1];
      if NodeMembers(ns[0]).Ok? && NodeList(ns[1..]).Err? {
        var e := NodeList(ns[1..]).error;
        var i :| 0 <= i < |ns[1..]| && NodeFails(ns[1..][i], e) && forall j :: 0 <= j < i ==> NodeGood(ns[1..][j]);
        assert NodeFails(ns[i + 1], e);
      }
    }
  }

  lemma RowsFailNotGood(rows: seq<Row>, metadata: bool, e: Thrown)
    ensures RowsFail(rows, metadata, e) ==> !RowsGood(rows, metadata)
  {
    hide RowFails;
    if RowsFail(rows, metadata, e) {
      var i :| 0 <= i < |rows| && RowFails(rows[i], metadata, e) &&
               forall j :: 0 <= j < i ==> RowGood(rows[j], metadata);
      assert rows[i] in rows && !RowGood(rows[i], metadata);
    }
  }

  lemma {:induction false} FailsNotGood(n: Node, e: Thrown)
    requires NodeFails(n, e)
    ensures !NodeGood(n)
    decreases n
  {
    hide RowsFail, RowsGood;
    match n
    case Leaf(f) =>
      RowsFailNotGood(f.metadata, true, e);
      RowsFailNotGood(f.properties, false, e);
    case Group(_, children) =>
      if children != [] {
        var i :| 0 <= i < |children| && NodeFails(children[i], e) && forall j :: 0 <= j < i ==> NodeGood(children[j]);
        FailsNotGood(children[i], e);
      }
  }

  // A node can be built exactly when every factor and every row in it is good and no group is empty.
  lemma BuiltIffGood(n: Node)
    ensures NodeMembers(n).Ok? <==> NodeGood(n)
  {
    hide NodeMembers, NodeGood, NodeFails, NodeBuilds;
    NodeExact(n);
    if NodeMembers(n).Err? { FailsNotGood(n, NodeMembers(n).error); }
  }

  // ---------------------------------------------------------------- the whole form

  // amr_details: the flag, and the one root's members or all roots under the operator.
  ghost predicate DetailsBuild(form: Form, ms: seq<Member>) {
    if |form.roots| == 0 then Carries(ms, form.claimEssential, map[])
    else if |form.roots| == 1 then
      exists built ::
        && NodeBuilds(form.roots[0], built)
        && forall k :: Lookup(ms, k) ==
             if form.claimEssential && k == "essential" then Some(Bool(true)) else Lookup(built.members, k)
    else
      exists items: seq<Json> ::
        && |items| == |form.roots| && (forall i :: 0 <= i < |items| ==> NodeBuilds(form.roots[i], items[i]))
        && Carries(ms, form.claimEssential,
                   map[if form.rootOperator == AllOf then "all_of" else "one_of" := Arr(items)])
  }

  // The claims ask for the details in the chosen locations and nowhere else.
  ghost predicate Delivers(form: Form, c: Json, details: Json) {
    && c.Obj?
    && forall k :: Lookup(c.members, k) ==
         if (k == "id_token" && form.idToken) || (k == "userinfo" && form.userinfo) then
           Some(Obj([Member("amr_details", details)]))
         else None
  }

  ghost predicate ClaimsBuild(form: Form, c: Json) {
    exists ms :: DetailsBuild(form, ms) && Delivers(form, c, if ms == [] then Null else Obj(ms))
  }

  ghost predicate FormFails(form: Form, e: Thrown) {
    exists i ::
      0 <= i < |form.roots| && NodeFails(form.roots[i], e) && forall j :: 0 <= j < i ==> NodeGood(form.roots[j])
  }

  lemma DetailsExact(form: Form)
    ensures match Details(form)
            case Err(e) => FormFails(form, e)
            case Ok(ms) => (forall n :: n in form.roots ==> NodeGood(n)) && DetailsBuild(form, ms)
  {
    hide NodeMembers, NodeList, NodeGood, NodeFails, NodeBuilds, Carries;
    if |form.roots| <= 1 {
      if form.roots != [] { NodeExact(form.roots[0]); }
      if Details(form).Ok? { OneRootBuilds(form); }
    } else {
      NodesExact(form.roots);
      if NodeList(form.roots).Ok? {
        var items := NodeList(form.roots).value;
        var name := OperatorName(form.rootOperator);
        OneCarried(name, Arr(items));
        FlagCarries(form.claimEssential, [Member(name, Arr(items))], map[name := Arr(items)]);
        FlagPut(form.claimEssential, name, Arr(items));
      }
    }
  }

  lemma FlagPut(flag: bool, name: string, v: Json)
    requires name != "essential"
    ensures Put(Flag(flag), name, v) == Flag(flag) + [Member(name, v)]
  {
    PutNew(Flag(flag), name, v);
  }

  lemma OneRootBuilds(form: Form)
    requires |form.roots| <= 1 && Details(form).Ok?
    requires form.roots != [] ==>
               NodeMembers(form.roots[0]).Ok? && NodeBuilds(form.roots[0], Obj(NodeMembers(form.roots[0]).value))
    ensures DetailsBuild(form, Details(form).value)
  {
    hide NodeMembers, NodeBuilds, Details, Lookup, Flag;
    ExactDomain.DetailsShape(form);
    if form.roots == [] {
      NoneCarried();
      FlagCarries(form.claimEssential, [], map[]);
    } else {
      var ms := NodeMembers(form.roots[0]).value;
      forall k
        ensures Lookup(Details(form).value, k) ==
                if form.claimEssential && k == "essential" then Some(Bool(true)) else Lookup(ms, k)
      {
        Converse.FlagLookup(form.claimEssential, ms, k);
      }
      assert Obj(ms).members == ms;
    }
  }

  // What the page writes for a form, or the error of its first bad node.
  lemma FormExact(form: Form)
    ensures match BuildClaims(form)
            case Err(e) => FormFails(form, e)
            case Ok(c) => (forall n :: n in form.roots ==> NodeGood(n)) && ClaimsBuild(form, c)
  {
    hide Details, NodeGood, FormFails, DetailsBuild, Delivers;
    DetailsExact(form);
    if Details(form).Ok? {
      var ms := Details(form).value;
      var details := if ms == [] then Null else Obj(ms);
      ClaimsDeliver(form, details);
    }
  }

  lemma ClaimsDeliver(form: Form, details: Json)
    ensures Delivers(form, Claims(form.idToken, form.userinfo, details), details)
  {
    hide Lookup;
    forall k
      ensures Lookup(Claims(form.idToken, form.userinfo, details).members, k) ==
        if (k == "id_token" && form.idToken) || (k == "userinfo" && form.userinfo) then
          Some(Obj([Member("amr_details", details)]))
        else None
    {
      LoadThenBuild.LookupClaims(form.idToken, form.userinfo, details, k);
    }
  }
}
