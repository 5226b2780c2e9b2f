// The scenario runner's login-form parser: start and end tags in, one form per id out.
module FormParser {
  import opened Wrappers

  // An attribute without a value (`<input disabled>`) has value None.
  datatype Attribute = Attribute(name: string, value: Option<string>)

  datatype Tag = Start(tag: string, attributes: seq<Attribute>) | End(tag: string)

  datatype Form = Form(action: Option<string>, values: map<string, Option<string>>)

  datatype State = State(forms: map<string, Form>, id: Option<string>, action: Option<string>,
                         values: map<string, Option<string>>)

  const FRESH: State := State(map[], None, Some(""), map[])

  // dict(attributes).get(name, default): the last attribute of that name
  function Get(attributes: seq<Attribute>, name: string, default: Option<string>): Option<string> {
    if attributes == [] then default
    else
      var last := attributes[|attributes| - 1];
      if last.name == name then last.value else Get(attributes[..|attributes| - 1], name, default)
  }

  predicate LastAttribute(attributes: seq<Attribute>, name: string, i: nat) {
    i < |attributes| && attributes[i].name == name && forall j :: i < j < |attributes| ==> attributes[j].name != name
  }

  // The value of a tag's attribute is that of the last one of the name.
  lemma {:induction false} GetExact(attributes: seq<Attribute>, name: string, default: Option<string>)
    ensures forall i: nat :: LastAttribute(attributes, name, i) ==>
              Get(attributes, name, default) == attributes[i].value
    ensures (forall a :: a in attributes ==> a.name != name) ==> Get(attributes, name, default) == default
  {
    if attributes != [] {
      var last := |attributes| - 1;
      var before := attributes[..last];
      GetExact(before, name, default);
      assert attributes[last] in attributes && forall a :: a in before ==> a in attributes;
      forall i: nat | LastAttribute(attributes, name, i)
        ensures Get(attributes, name, default) == attributes[i].value
      {
        if i < last {
          assert attributes[last].name != name;
          assert LastAttribute(before, name, i) && before[i] == attributes[i];
        }
      }
    }
  }

  predicate IsField(t: Tag) { t.Start? && (t.tag == "input" || t.tag == "button") && HasText(FieldName(t)) }

  function FieldName(t: Tag): Option<string>
    requires t.Start?
  {
    Get(t.attributes, "name", None)
  }

  // ---------------------------------------------------------------- one tag at a time

  function Handled(s: State, t: Tag): State {
    match t
    case Start(tag, attributes) =>
      if tag == "form" then
        State(s.forms, Get(attributes, "id", None), Get(attributes, "action", Some("")), map[])
      else if IsField(t) && HasText(s.id) then
        s.(values := s.values[FieldName(t).value := Get(attributes, "value", Some(""))])
      else s
    case End(tag) =>
      if tag == "form" && HasText(s.id) then
        State(s.forms[s.id.value := Form(s.action, s.values)], None, Some(""), map[])
      else s
  }

  function Parsed(tags: seq<Tag>): State {
    if tags == [] then FRESH else Handled(Parsed(tags[..|tags| - 1]), tags[|tags| - 1])
  }

  class Forms {
    var forms: map<string, Form>
    var currentId: Option<string>
    var currentAction: Option<string>
    var currentValues: map<string, Option<string>>

    function View(): State
      reads this
    {
      State(forms, currentId, currentAction, currentValues)
    }

    constructor ()
      ensures View() == FRESH
    {
      forms, currentId, currentAction, currentValues := map[], None, Some(""), map[];
    }

    method HandleStartTag(tag: string, attributes: seq<Attribute>)
      modifies this
      ensures View() == Handled(old(View()), Start(tag, attributes))
    {
      if tag == "form" {
        currentId := Get(attributes, "id", None);
        currentAction := Get(attributes, "action", Some(""));
        currentValues := map[];
      } else if (tag == "input" || tag == "button") && HasText(currentId) {
        var name := Get(attributes, "name", None);
        if HasText(name) {
          currentValues := currentValues[name.value := Get(attributes, "value", Some(""))];
        }
      }
    }

    method HandleEndTag(tag: string)
      modifies this
      ensures View() == Handled(old(View()), End(tag))
    {
      if tag == "form" && HasText(currentId) {
        forms := forms[currentId.value := Form(currentAction, currentValues)];
        currentId := None;
        currentAction := Some("");
        currentValues := map[];
      }
    }

    // The tag events of one page.
    method Feed(tags: seq<Tag>)
      requires View() == FRESH
      modifies this
      ensures View() == Parsed(tags)
      ensures forall id :: id in forms <==> Extracted(tags, id)
      ensures forall id :: id in forms ==> exists s: nat, e: nat :: LastCloses(tags, s, e, id)
      ensures forall id, s: nat, e: nat :: LastCloses(tags, s, e, id) ==>
                id in forms && forms[id] == Form(ActionOf(tags[s]), Fields(tags[s + 1..e]))
    {
      var i := 0;
      while i < |tags|
        invariant 0 <= i <= |tags|
        invariant View() == Parsed(tags[..i])
      {
        assert tags[..i + 1][..i] == tags[..i];
        match tags[i] {
          case Start(tag, attributes) => HandleStartTag(tag, attributes);
          case End(tag) => HandleEndTag(tag);
        }
        i := i + 1;
      }
      assert tags[..i] == tags;
      FormsExact(tags);
    }
  }

  // ---------------------------------------------------------------- what a page contains

  predicate IsForm(t: Tag) { t.tag == "form" }

  function FormId(t: Tag): Option<string> {
    var id := if t.Start? then Get(t.attributes, "id", None) else None;
    if t.Start? && t.tag == "form" && HasText(id) then id else None
  }

  function ActionOf(t: Tag): Option<string> { if t.Start? then Get(t.attributes, "action", Some("")) else None }

  // The form that starts at tag `s` has `id` and no form tag has come since.
  predicate Open(tags: seq<Tag>, s: nat, id: string) {
    s < |tags| && FormId(tags[s]) == Some(id) && forall j :: s < j < |tags| ==> !IsForm(tags[j])
  }

  // The form with `id` that starts at tag `s` ends at tag `e`, without any form tag between.
  predicate Closes(tags: seq<Tag>, s: nat, e: nat, id: string) {
    e < |tags| && tags[e] == End("form") && Open(tags[..e], s, id)
  }

  ghost predicate Extracted(tags: seq<Tag>, id: string) { exists s: nat, e: nat :: Closes(tags, s, e, id) }

  ghost predicate LastCloses(tags: seq<Tag>, s: nat, e: nat, id: string) {
    Closes(tags, s, e, id) && forall s': nat, e': nat :: Closes(tags, s', e', id) ==> e' <= e
  }

  // The named fields among some tags, the last of a name winning.
  function Fields(tags: seq<Tag>): map<string, Option<string>> {
    if tags == [] then map[] else
      var before, t := Fields(tags[..|tags| - 1]), tags[|tags| - 1];
      if IsField(t) then before[FieldName(t).value := Get(t.attributes, "value", Some(""))] else before
  }

  predicate Names(t: Tag, name: string) { IsField(t) && FieldName(t) == Some(name) }

  predicate Carries(tags: seq<Tag>, name: string) { exists k :: 0 <= k < |tags| && Names(tags[k], name) }

  predicate LastNamed(tags: seq<Tag>, k: nat, name: string) {
    k < |tags| && Names(tags[k], name) && forall j :: k < j < |tags| ==> !Names(tags[j], name)
  }

  // A form holds a name exactly when some field between its tags carries it, with the value of the
  // last such field.
  lemma {:induction false} FieldsExact(tags: seq<Tag>, name: string)
    ensures name in Fields(tags) <==> Carries(tags, name)
    ensures forall k: nat :: LastNamed(tags, k, name) ==>
              Fields(tags)[name] == Get(tags[k].attributes, "value", Some(""))
  {
    FieldsPresent(tags, name);
    forall k: nat | LastNamed(tags, k, name) { FieldsLast(tags, k, name); }
    hide Get, Names, Fields;
  }

  lemma {:induction false} FieldsPresent(tags: seq<Tag>, name: string)
    ensures name in Fields(tags) <==> Carries(tags, name)
  {
    hide Get;
    if tags != [] {
      var before, t := tags[..|tags| - 1], tags[|tags| - 1];
      FieldsPresent(before, name);
      assert tags == before + [t];
      assert Carries(tags, name) <==> Carries(before, name) || Names(t, name) by {
        hide Names;
        if Carries(before, name) {
          var k :| 0 <= k < |before| && Names(before[k], name);
          assert Names(tags[k], name);
        }
        if Names(t, name) { assert Names(tags[|before|], name); }
        if Carries(tags, name) {
          var k :| 0 <= k < |tags| && Names(tags[k], name);
          if k < |before| { assert Names(before[k], name); }
        }
      }
      hide Carries;
    }
  }

  lemma {:induction false} FieldsLast(tags: seq<Tag>, k: nat, name: string)
    requires LastNamed(tags, k, name)
    ensures name in Fields(tags) && Fields(tags)[name] == Get(tags[k].attributes, "value", Some(""))
  {
    hide Get;
    if k < |tags| - 1 {
      var before := tags[..|tags| - 1];
      assert forall j :: 0 <= j < |before| ==> before[j] == tags[j];
      FieldsLast(before, k, name);
      assert !Names(tags[|tags| - 1], name);
    }
  }

  // ---------------------------------------------------------------- the parser extracts it

  // The parser is inside a form exactly when one is open, and holds its id, action and fields.
  ghost predicate OpenRead(tags: seq<Tag>) {
    var p := Parsed(tags);
    && (HasText(p.id) ==> exists s: nat :: Open(tags, s, p.id.value))
    && (forall s: nat, id :: Open(tags, s, id) ==>
          p.id == Some(id) && HasText(p.id) && p.action == ActionOf(tags[s]) && p.values == Fields(tags[s + 1..]))
  }

  ghost predicate FormsRead(tags: seq<Tag>) {
    var p := Parsed(tags);
    && (forall id :: id in p.forms <==> Extracted(tags, id))
    && (forall id, s: nat, e: nat :: LastCloses(tags, s, e, id) ==>
          id in p.forms && p.forms[id] == Form(ActionOf(tags[s]), Fields(tags[s + 1..e])))
  }

  lemma OpenSnoc(tags: seq<Tag>, t: Tag, s: nat, id: string)
    ensures Open(tags + [t], s, id) <==> (Open(tags, s, id) && !IsForm(t)) || (s == |tags| && FormId(t) == Some(id))
  {
    hide FormId, IsForm;
    var all := tags + [t];
    assert all[|tags|] == t && forall j :: 0 <= j < |tags| ==> all[j] == tags[j];
  }

  lemma ClosesSnoc(tags: seq<Tag>, t: Tag, s: nat, e: nat, id: string)
    ensures Closes(tags + [t], s, e, id) <==>
            (e < |tags| && Closes(tags, s, e, id)) || (e == |tags| && t == End("form") && Open(tags, s, id))
  {
    hide Open;
    var all := tags + [t];
    assert all[..|tags|] == tags && all[|tags|] == t;
    assert e < |tags| ==> all[..e] == tags[..e] && all[e] == tags[e];
  }

  lemma OpenStep(tags: seq<Tag>, t: Tag)
    requires OpenRead(tags)
    ensures OpenRead(tags + [t])
  {
    var all, p := tags + [t], Parsed(tags);
    assert all[..|tags|] == tags && all[|tags|] == t;
    var q := Parsed(all);
    forall s: nat, id | Open(all, s, id)
      ensures q.id == Some(id) && HasText(q.id) && q.action == ActionOf(all[s]) && q.values == Fields(all[s + 1..])
    {
      OpenKept(tags, t, s, id);
    }
    hide Fields, Get, Open;
    if HasText(q.id) {
      OpenSnoc(tags, t, |tags|, q.id.value);
      if !IsForm(t) {
        var s: nat :| Open(tags, s, p.id.value);
        OpenSnoc(tags, t, s, p.id.value);
      }
    }
  }

  lemma OpenKept(tags: seq<Tag>, t: Tag, s: nat, id: string)
    requires OpenRead(tags) && Open(tags + [t], s, id)
    ensures var q := Parsed(tags + [t]);
            && q.id == Some(id) && HasText(q.id)
            && q.action == ActionOf((tags + [t])[s]) && q.values == Fields((tags + [t])[s + 1..])
  {
    OpenSnoc(tags, t, s, id);
    FieldsGrow(tags, t, s);
    assert (tags + [t])[..|tags|] == tags;
    hide Open, Get, Fields;
  }

  lemma FieldsGrow(tags: seq<Tag>, t: Tag, s: nat)
    ensures s < |tags| ==>
              Fields((tags + [t])[s + 1..]) ==
              if IsField(t) then Fields(tags[s + 1..])[FieldName(t).value := Get(t.attributes, "value", Some(""))]
              else Fields(tags[s + 1..])
    ensures s == |tags| ==> Fields((tags + [t])[s + 1..]) == map[]
    ensures s < |tags| ==> (tags + [t])[s] == tags[s]
  {
    hide Get;
    if s < |tags| {
      var longer := (tags + [t])[s + 1..];
      assert longer[..|longer| - 1] == tags[s + 1..] && longer[|longer| - 1] == t;
    }
  }

  lemma FormsStep(tags: seq<Tag>, t: Tag)
    requires OpenRead(tags) && FormsRead(tags)
    ensures FormsRead(tags + [t])
  {
    var all, p := tags + [t], Parsed(tags);
    assert all[..|tags|] == tags && all[|tags|] == t;
    var q := Parsed(all);
    assert q == Handled(p, t);
    hide Get, Fields;
    forall id
      ensures id in q.forms <==> Extracted(all, id)
    {
      ExtractedSnoc(tags, t, id);
    }
    forall id, s: nat, e: nat | LastCloses(all, s, e, id)
      ensures id in q.forms && q.forms[id] == Form(ActionOf(all[s]), Fields(all[s + 1..e]))
    {
      LastClosesSnoc(tags, t, s, e, id);
      hide LastCloses, Extracted, Open;
    }
  }

  lemma ExtractedSnoc(tags: seq<Tag>, t: Tag, id: string)
    requires OpenRead(tags)
    ensures Extracted(tags + [t], id) <==>
            Extracted(tags, id) || (t == End("form") && HasText(Parsed(tags).id) && Parsed(tags).id == Some(id))
  {
    forall s: nat, e: nat { ClosesSnoc(tags, t, s, e, id); }
    hide Open, Parsed, Fields, Get;
    if Extracted(tags, id) {
      var s: nat, e: nat :| Closes(tags, s, e, id);
      assert Closes(tags + [t], s, e, id);
    }
    if t == End("form") && HasText(Parsed(tags).id) && Parsed(tags).id == Some(id) {
      var s: nat :| Open(tags, s, id);
      assert Closes(tags + [t], s, |tags|, id);
    }
  }

  lemma LastClosesSnoc(tags: seq<Tag>, t: Tag, s: nat, e: nat, id: string)
    requires LastCloses(tags + [t], s, e, id)
    ensures s < e && s < |tags| && (tags + [t])[s] == tags[s]
    ensures e < |tags| ==> LastCloses(tags, s, e, id) && (tags + [t])[s + 1..e] == tags[s + 1..e]
    ensures e < |tags| && t == End("form") ==> forall s': nat :: !Open(tags, s', id)
    ensures e >= |tags| ==>
              e == |tags| && t == End("form") && Open(tags, s, id) && (tags + [t])[s + 1..e] == tags[s + 1..]
  {
    forall s': nat, e': nat { ClosesSnoc(tags, t, s', e', id); }
    hide IsForm, FormId;
    if e < |tags| && t == End("form") {
      forall s': nat
        ensures !Open(tags, s', id)
      {
        assert Closes(tags + [t], s', |tags|, id) ==> |tags| <= e;
      }
    }
  }

  // An id that some form closed has a last form that closed it.
  lemma {:induction false} LastExists(tags: seq<Tag>, s: nat, e: nat, id: string)
    requires Closes(tags, s, e, id)
    ensures exists s': nat, e': nat :: LastCloses(tags, s', e', id)
    decreases |tags| - e
  {
    if s': nat, e': nat :| Closes(tags, s', e', id) && e' > e {
      LastExists(tags, s', e', id);
    } else {
      assert LastCloses(tags, s, e, id);
    }
  }

  // After any stream of tags: an id is in the result exactly when some form with it was closed
  // without a form tag in between, and it maps to the action and fields of the last such form,
  // which every such id has.
  lemma {:induction false} FormsExact(tags: seq<Tag>)
    ensures OpenRead(tags) && FormsRead(tags)
    ensures forall id :: Extracted(tags, id) ==> exists s: nat, e: nat :: LastCloses(tags, s, e, id)
  {
    forall id | Extracted(tags, id)
      ensures exists s: nat, e: nat :: LastCloses(tags, s, e, id)
    {
      var s: nat, e: nat :| Closes(tags, s, e, id);
      LastExists(tags, s, e, id);
    }
    FormsInductive(tags);
  }

  lemma {:induction false} FormsInductive(tags: seq<Tag>)
    ensures OpenRead(tags) && FormsRead(tags)
  {
    if tags == [] {
    } else {
      var before, t := tags[..|tags| - 1], tags[|tags| - 1];
      FormsInductive(before);
      OpenStep(before, t);
      FormsStep(before, t);
      assert tags == before + [t];
      hide OpenRead, FormsRead;
    }
  }
}
