// The realm rewrites that derive the benchmark fixtures: `without_ids`, `plain` and the
// realm-disabled variant.
module Fixtures {
  import opened Wrappers
  import opened Decimals
  import opened Json

  // A Python exception: a member that is missing or of the wrong kind.
  datatype Crash = Crash

  // ---------------------------------------------------------------- without_ids

  function WithoutIds(v: Json): Json {
    match v
    case Obj(ms) => Obj(MembersWithoutIds(ms))
    case Arr(items) => Arr(ItemsWithoutIds(items))
    case _ => v
  }

  function ItemsWithoutIds(items: seq<Json>): (r: seq<Json>)
    ensures |r| == |items| && forall i :: 0 <= i < |r| ==> r[i] == WithoutIds(items[i])
  {
    if items == [] then [] else [WithoutIds(items[0])] + ItemsWithoutIds(items[1..])
  }

  function MembersWithoutIds(ms: seq<Member>): seq<Member> {
    if ms == [] then []
    else if ms[0].name == "id" then MembersWithoutIds(ms[1..])
    else [Member(ms[0].name, WithoutIds(ms[0].value))] + MembersWithoutIds(ms[1..])
  }

  // No object at any depth has a member named "id".
  predicate NoIds(v: Json) {
    match v
    case Obj(ms) => forall i :: 0 <= i < |ms| ==> ms[i].name != "id" && NoIds(ms[i].value)
    case Arr(items) => forall i :: 0 <= i < |items| ==> NoIds(items[i])
    case _ => true
  }

  lemma {:induction false} IdsGone(v: Json)
    ensures NoIds(WithoutIds(v))
  {
    match v
    case Obj(ms) => MembersIdsGone(ms);
    case Arr(items) => forall i | 0 <= i < |items| { IdsGone(items[i]); }
    case _ =>
  }

  lemma {:induction false} MembersIdsGone(ms: seq<Member>)
    ensures NoIds(Obj(MembersWithoutIds(ms)))
  {
    if ms != [] {
      IdsGone(ms[0].value);
      MembersIdsGone(ms[1..]);
    }
  }

  // The values `without_ids` leaves alone are exactly those without identifiers, so it is idempotent.
  lemma {:induction false} KeepsExactlyIdFree(v: Json)
    ensures WithoutIds(v) == v <==> NoIds(v)
    ensures WithoutIds(WithoutIds(v)) == WithoutIds(v)
  {
    IdsGone(v);
    if NoIds(v) { KeepsIdFree(v); }
    KeepsIdFree(WithoutIds(v));
  }

  lemma {:induction false} KeepsIdFree(v: Json)
    requires NoIds(v)
    ensures WithoutIds(v) == v
  {
    match v
    case Obj(ms) => KeepsIdFreeMembers(ms);
    case Arr(items) => forall i | 0 <= i < |items| { KeepsIdFree(items[i]); }
    case _ =>
  }

  lemma {:induction false} KeepsIdFreeMembers(ms: seq<Member>)
    requires NoIds(Obj(ms))
    ensures MembersWithoutIds(ms) == ms
  {
    if ms != [] {
      KeepsIdFree(ms[0].value);
      assert forall i :: 0 <= i < |ms[1..]| ==> ms[1..][i] == ms[i + 1];
      KeepsIdFreeMembers(ms[1..]);
      assert ms == [ms[0]] + ms[1..];
    }
  }

  // Everything else stays, at every depth: a lookup of any other name sees the rewritten value.
  lemma {:induction false} LookupWithoutIds(ms: seq<Member>, name: string)
    ensures Lookup(MembersWithoutIds(ms), name) ==
            if name == "id" || Lookup(ms, name).None? then None else Some(WithoutIds(Lookup(ms, name).value))
  {
    if ms != [] {
      LookupWithoutIds(ms[1..], name);
      if ms[0].name != "id" {
        assert MembersWithoutIds(ms)[1..] == MembersWithoutIds(ms[1..]);
      }
    }
  }

  // ---------------------------------------------------------------- plain

  function Whole(n: nat): Json { Num(Normalise(false, n, 0)) }

  function Execution(priority: nat, authenticator: Json, flow: Option<string>, requirement: string): (e: Json)
    ensures e.Obj?
  {
    Obj([Member("authenticatorFlow", Bool(flow.Some?)), Member("requirement", Str(requirement)),
         Member("priority", Whole(priority)), Member("userSetupAllowed", Bool(false)),
         if flow.Some? && flow.value != "" then Member("flowAlias", Str(flow.value))
         else Member("authenticator", authenticator)])
  }

  function Flow(alias: string, description: string, topLevel: bool, executions: seq<Json>): (f: Json)
    ensures f.Obj?
  {
    Obj([Member("alias", Str(alias)), Member("description", Str(description)), Member("providerId", Str("basic-flow")),
         Member("topLevel", Bool(topLevel)), Member("builtIn", Bool(false)),
         Member("authenticationExecutions", Arr(executions))])
  }

  const BROWSER_STEPS: seq<Json> :=
    [Execution(10, Str("auth-cookie"), None, "ALTERNATIVE"),
     Execution(20, Null, Some("benchmark browser forms"), "ALTERNATIVE")]

  const FORM_STEPS: seq<Json> :=
    [Execution(10, Str("auth-username-form"), None, "REQUIRED"),
     Execution(20, Str("auth-password-form"), None, "REQUIRED")]

  const BROWSER_FLOWS: Json :=
    Arr([Flow("benchmark browser", "Laboratory browser flow without the OIDC4AC planner.", true, BROWSER_STEPS),
         Flow("benchmark browser forms", "Username form followed by a password form.", false, FORM_STEPS)])

  // A step of a flow names a sub-flow among the given flows, or an authenticator, and not both.
  ghost predicate StepResolves(step: Json, flows: seq<Json>) {
    step.Obj? &&
    if Lookup(step.members, "authenticatorFlow") == Some(Bool(true)) then
      && Lookup(step.members, "authenticator").None?
      && exists f, alias ::
           f in flows && f.Obj? && Lookup(f.members, "alias") == Some(alias)
           && Lookup(step.members, "flowAlias") == Some(alias) && Lookup(f.members, "topLevel") == Some(Bool(false))
    else
      && Lookup(step.members, "flowAlias").None?
      && Lookup(step.members, "authenticator").Some? && Lookup(step.members, "authenticator").value.Str?
  }

  ghost predicate FlowResolves(flow: Json, flows: seq<Json>) {
    && flow.Obj? && Lookup(flow.members, "authenticationExecutions").Some?
    && var steps := Lookup(flow.members, "authenticationExecutions").value;
       steps.Arr? && steps.items != [] && forall e :: e in steps.items ==> StepResolves(e, flows)
  }

  const BENCHMARK_REDIRECTS: seq<Json> :=
    [Str("http://localhost:5005/*"), Str("http://localhost:5006/*"), Str("http://localhost:5007/*")]

  const TEST_CLIENT: Json := Str("oidc4ac-test-client")

  predicate Ours(name: string) { "oidc4ac." <= name }

  // {key: value for key, value in ... if not key.startswith("oidc4ac.")}
  function Foreign(ms: seq<Member>): seq<Member> {
    if ms == [] then [] else (if Ours(ms[0].name) then [] else [ms[0]]) + Foreign(ms[1..])
  }

  function Default(ms: seq<Member>, name: string, value: Json): Json {
    match Lookup(ms, name)
    case Some(v) => v
    case None => value
  }

  // One client: left alone, extended by the benchmark redirects, or an exception.
  function PlainClient(client: Json): Result<Json, Crash> {
    match client
    case Obj(ms) =>
      if Lookup(ms, "clientId").None? then Err(Crash)
      else if Lookup(ms, "clientId").value != TEST_CLIENT then Ok(client)
      else (match Default(ms, "redirectUris", Arr([]))
            case Arr(items) => Ok(Obj(Put(ms, "redirectUris", Arr(items + BENCHMARK_REDIRECTS))))
            case _ => Err(Crash))
    case _ => Err(Crash)
  }

  // Iterating visits the items of a list, the names of an object and the characters of a string;
  // names and characters are no clients.
  function Clients(v: Json): Result<seq<Json>, Crash> {
    match v
    case Arr(items) => Ok(items)
    case Obj(ms) => if ms == [] then Ok([]) else Err(Crash)
    case Str(s) => if s == "" then Ok([]) else Err(Crash)
    case _ => Err(Crash)
  }

  predicate AllPlain(items: seq<Json>) { forall i :: 0 <= i < |items| ==> PlainClient(items[i]).Ok? }

  function PlainClients(items: seq<Json>): seq<Json>
    requires AllPlain(items)
  {
    seq(|items|, i requires 0 <= i < |items| => PlainClient(items[i]).value)
  }

  // The realm without its clients' changes.
  function Base(ms: seq<Member>, attributes: seq<Member>): seq<Member> {
    Put(Put(Put(Remove(ms, "authenticatorConfig"), "authenticationFlows", BROWSER_FLOWS),
            "browserFlow", Str("benchmark browser")),
        "attributes", Obj(Foreign(attributes)))
  }

  // The loop over result.get("clients", []).
  function WithClients(base: seq<Member>, clients: Option<Json>): Result<Json, Crash> {
    match clients
    case None => Ok(Obj(base))
    case Some(v) =>
      if Clients(v).Err? || !AllPlain(Clients(v).value) then Err(Crash)
      else if v.Arr? then Ok(Obj(Put(base, "clients", Arr(PlainClients(v.items)))))
      else Ok(Obj(base))
  }

  function Plain(realm: Json): Result<Json, Crash> {
    match realm
    case Obj(ms) =>
      (match Default(ms, "attributes", Obj([]))
       case Obj(attributes) => WithClients(Base(ms, attributes), Lookup(ms, "clients"))
       case _ => Err(Crash))
    case _ => Err(Crash)
  }

  lemma BaseLookup(ms: seq<Member>, attributes: seq<Member>, name: string)
    ensures Lookup(Base(ms, attributes), name) ==
            if name == "attributes" then Some(Obj(Foreign(attributes)))
            else if name == "browserFlow" then Some(Str("benchmark browser"))
            else if name == "authenticationFlows" then Some(BROWSER_FLOWS)
            else if name == "authenticatorConfig" then None
            else Lookup(ms, name)
  {
    hide Lookup, Put, Remove, Foreign;
    var a := Remove(ms, "authenticatorConfig");
    LookupRemove(ms, "authenticatorConfig", name);
    var b := Put(a, "authenticationFlows", BROWSER_FLOWS);
    LookupPut(a, "authenticationFlows", BROWSER_FLOWS, name);
    var c := Put(b, "browserFlow", Str("benchmark browser"));
    LookupPut(b, "browserFlow", Str("benchmark browser"), name);
    LookupPut(c, "attributes", Obj(Foreign(attributes)), name);
  }

  // The copy is changed step by step, then each of its clients in turn.
  method PlainRealm(realm: Json) returns (r: Result<Json, Crash>)
    ensures r == Plain(realm)
  {
    hide Lookup, Put, Remove, Foreign, Base, PlainClient;
    if !realm.Obj? { return Err(Crash); }
    var result := Remove(realm.members, "authenticatorConfig");
    result := Put(result, "authenticationFlows", BROWSER_FLOWS);
    result := Put(result, "browserFlow", Str("benchmark browser"));
    var attributes := Default(result, "attributes", Obj([]));
    AttributesBefore(realm.members);
    if !attributes.Obj? { return Err(Crash); }
    result := Put(result, "attributes", Obj(Foreign(attributes.members)));
    assert result == Base(realm.members, attributes.members) by { BaseSteps(realm.members, attributes.members); }
    BaseLookup(realm.members, attributes.members, "clients");
    var clients := Lookup(result, "clients");
    if clients.None? { return Ok(Obj(result)); }
    var todo := Clients(clients.value);
    if todo.Err? { return Err(Crash); }
    var items := todo.value;
    var i := 0;
    while i < |items|
      invariant 0 <= i <= |items| == |todo.value|
      invariant forall j :: 0 <= j < i ==> PlainClient(todo.value[j]) == Ok(items[j])
      invariant items[i..] == todo.value[i..]
    {
      assert items[i] == items[i..][0] == todo.value[i];
      var client := PlainClientInPlace(items[i]);
      if client.Err? { return Err(Crash); }
      items := items[i := client.value];
      i := i + 1;
    }
    assert AllPlain(todo.value) && items == PlainClients(todo.value);
    return Ok(Obj(if clients.value.Arr? then Put(result, "clients", Arr(items)) else result));
  }

  lemma AttributesBefore(ms: seq<Member>)
    ensures var a := Put(Put(Remove(ms, "authenticatorConfig"), "authenticationFlows", BROWSER_FLOWS),
                         "browserFlow", Str("benchmark browser"));
            Lookup(a, "attributes") == Lookup(ms, "attributes")
  {
    hide Lookup, Put, Remove;
    LookupRemove(ms, "authenticatorConfig", "attributes");
    var a := Remove(ms, "authenticatorConfig");
    LookupPut(a, "authenticationFlows", BROWSER_FLOWS, "attributes");
    LookupPut(Put(a, "authenticationFlows", BROWSER_FLOWS), "browserFlow", Str("benchmark browser"), "attributes");
  }

  lemma BaseSteps(ms: seq<Member>, attributes: seq<Member>)
    ensures Base(ms, attributes) ==
            Put(Put(Put(Remove(ms, "authenticatorConfig"), "authenticationFlows", BROWSER_FLOWS),
                    "browserFlow", Str("benchmark browser")),
                "attributes", Obj(Foreign(attributes)))
  {
  }

  method PlainClientInPlace(client: Json) returns (r: Result<Json, Crash>)
    ensures r == PlainClient(client)
  {
    hide Lookup, Put;
    if !client.Obj? { return Err(Crash); }
    var members := client.members;
    var id := Lookup(members, "clientId");
    if id.None? { return Err(Crash); }
    if id.value == TEST_CLIENT {
      var redirects := Default(members, "redirectUris", Arr([]));
      if !redirects.Arr? { return Err(Crash); }
      members := Put(members, "redirectUris", Arr(redirects.items + BENCHMARK_REDIRECTS));
    }
    return Ok(Obj(members));
  }

  // ---------------------------------------------------------------- what plain changes

  lemma {:induction false} ForeignLookup(ms: seq<Member>, name: string)
    ensures Lookup(Foreign(ms), name) == if Ours(name) then None else Lookup(ms, name)
  {
    if ms != [] {
      ForeignLookup(ms[1..], name);
      if !Ours(ms[0].name) {
        assert Foreign(ms)[1..] == Foreign(ms[1..]);
      } else {
        assert Foreign(ms) == Foreign(ms[1..]);
      }
    }
  }

  // After `plain` no attribute is OIDC4AC's and every other attribute has its value; the flows are
  // replaced, the authenticator configurations gone, and every other member of the realm but the
  // clients is as it was.
  lemma PlainMembers(realm: Json, name: string)
    requires Plain(realm).Ok?
    ensures realm.Obj? && Default(realm.members, "attributes", Obj([])).Obj? && Plain(realm).value.Obj?
    ensures Lookup(Plain(realm).value.members, "attributes").Some?
    ensures var attributes := Lookup(Plain(realm).value.members, "attributes").value;
            && attributes.Obj?
            && Lookup(attributes.members, name) ==
               if Ours(name) then None else Lookup(Default(realm.members, "attributes", Obj([])).members, name)
    ensures name != "attributes" && name != "clients" ==>
              Lookup(Plain(realm).value.members, name) ==
                if name == "authenticatorConfig" then None
                else if name == "authenticationFlows" then Some(BROWSER_FLOWS)
                else if name == "browserFlow" then Some(Str("benchmark browser"))
                else Lookup(realm.members, name)
  {
    hide Lookup, Put, Foreign, Base;
    var attributes := Default(realm.members, "attributes", Obj([])).members;
    var base := Base(realm.members, attributes);
    BaseLookup(realm.members, attributes, name);
    BaseLookup(realm.members, attributes, "attributes");
    ForeignLookup(attributes, name);
    var clients := Lookup(realm.members, "clients");
    if clients.Some? && clients.value.Arr? {
      LookupPut(base, "clients", Arr(PlainClients(clients.value.items)), name);
      LookupPut(base, "clients", Arr(PlainClients(clients.value.items)), "attributes");
    }
  }

  function ClientList(realm: Json): seq<Json> {
    if !realm.Obj? then [] else
      match Lookup(realm.members, "clients")
      case Some(Arr(items)) => items
      case _ => []
  }

  // The redirects of a client, those it has before it gets the benchmark's.
  function Redirects(ms: seq<Member>): seq<Json> {
    match Lookup(ms, "redirectUris")
    case Some(Arr(items)) => items
    case _ => []
  }

  // The clients stay in place and in number. Only the test client changes, and in it only the
  // redirects, which keep the old ones first.
  lemma PlainKeepsClients(realm: Json, i: nat, name: string)
    requires Plain(realm).Ok? && i < |ClientList(realm)|
    ensures |ClientList(Plain(realm).value)| == |ClientList(realm)|
    ensures var client, kept := ClientList(realm)[i], ClientList(Plain(realm).value)[i];
            && client.Obj? && kept.Obj?
            && (Lookup(client.members, "clientId") != Some(TEST_CLIENT) ==> kept == client)
            && (Lookup(client.members, "clientId") == Some(TEST_CLIENT) ==>
                  Redirects(kept.members) == Redirects(client.members) + BENCHMARK_REDIRECTS &&
                  (name != "redirectUris" ==> Lookup(kept.members, name) == Lookup(client.members, name)))
  {
    hide Lookup, Put, Foreign, Base;
    var attributes := Default(realm.members, "attributes", Obj([])).members;
    var items := ClientList(realm);
    LookupPut(Base(realm.members, attributes), "clients", Arr(PlainClients(items)), "clients");
    ClientKept(items[i], name);
    hide PlainClient, Redirects;
    assert PlainClient(items[i]).Ok? && PlainClients(items)[i] == PlainClient(items[i]).value;
  }

  lemma ClientKept(client: Json, name: string)
    requires PlainClient(client).Ok?
    ensures client.Obj? && PlainClient(client).value.Obj?
    ensures Lookup(client.members, "clientId") != Some(TEST_CLIENT) ==> PlainClient(client).value == client
    ensures Lookup(client.members, "clientId") == Some(TEST_CLIENT) ==>
              && Redirects(PlainClient(client).value.members) == Redirects(client.members) + BENCHMARK_REDIRECTS
              && (name != "redirectUris" ==>
                    Lookup(PlainClient(client).value.members, name) == Lookup(client.members, name))
  {
    hide Lookup, Put;
    var ms := client.members;
    if Lookup(ms, "clientId") == Some(TEST_CLIENT) {
      var redirects := Arr(Default(ms, "redirectUris", Arr([])).items + BENCHMARK_REDIRECTS);
      LookupPut(ms, "redirectUris", redirects, name);
      LookupPut(ms, "redirectUris", redirects, "redirectUris");
    }
  }

  // ---------------------------------------------------------------- the two rewrites commute

  lemma {:induction false} PutWithoutIds(ms: seq<Member>, name: string, value: Json)
    requires name != "id"
    ensures MembersWithoutIds(Put(ms, name, value)) == Put(MembersWithoutIds(ms), name, WithoutIds(value))
  {
    hide WithoutIds;
    if ms != [] && ms[0].name != name {
      PutWithoutIds(ms[1..], name, value);
      assert Put(ms, name, value)[1..] == Put(ms[1..], name, value);
      if ms[0].name != "id" {
        assert MembersWithoutIds(ms)[1..] == MembersWithoutIds(ms[1..]);
      }
    } else if ms != [] {
      assert Put(ms, name, value)[1..] == ms[1..];
      assert MembersWithoutIds(ms)[1..] == MembersWithoutIds(ms[1..]);
    }
  }

  lemma {:induction false} RemoveWithoutIds(ms: seq<Member>, name: string)
    requires name != "id"
    ensures MembersWithoutIds(Remove(ms, name)) == Remove(MembersWithoutIds(ms), name)
  {
    hide WithoutIds;
    if ms != [] {
      RemoveWithoutIds(ms[1..], name);
      if ms[0].name != name {
        assert Remove(ms, name)[1..] == Remove(ms[1..], name);
      }
      if ms[0].name != "id" {
        assert MembersWithoutIds(ms)[1..] == MembersWithoutIds(ms[1..]);
      }
    }
  }

  lemma {:induction false} ForeignWithoutIds(ms: seq<Member>)
    ensures MembersWithoutIds(Foreign(ms)) == Foreign(MembersWithoutIds(ms))
  {
    hide WithoutIds;
    if ms != [] {
      ForeignWithoutIds(ms[1..]);
      if Ours(ms[0].name) {
        assert Foreign(ms) == Foreign(ms[1..]);
      } else {
        assert Foreign(ms)[1..] == Foreign(ms[1..]);
      }
      if ms[0].name != "id" {
        assert MembersWithoutIds(ms)[1..] == MembersWithoutIds(ms[1..]);
      }
    }
  }

  lemma FlowsIdFree()
    ensures WithoutIds(BROWSER_FLOWS) == BROWSER_FLOWS
  {
    ExecutionIdFree(10, Str("auth-cookie"), None, "ALTERNATIVE");
    ExecutionIdFree(20, Null, Some("benchmark browser forms"), "ALTERNATIVE");
    ExecutionIdFree(10, Str("auth-username-form"), None, "REQUIRED");
    ExecutionIdFree(20, Str("auth-password-form"), None, "REQUIRED");
    hide Execution, Flow;
    FlowIdFree("benchmark browser", "Laboratory browser flow without the OIDC4AC planner.", true,
               [Execution(10, Str("auth-cookie"), None, "ALTERNATIVE"),
                Execution(20, Null, Some("benchmark browser forms"), "ALTERNATIVE")]);
    FlowIdFree("benchmark browser forms", "Username form followed by a password form.", false,
               [Execution(10, Str("auth-username-form"), None, "REQUIRED"),
                Execution(20, Str("auth-password-form"), None, "REQUIRED")]);
    KeepsIdFree(BROWSER_FLOWS);
  }

  lemma ExecutionIdFree(priority: nat, authenticator: Json, flow: Option<string>, requirement: string)
    requires NoIds(authenticator)
    ensures NoIds(Execution(priority, authenticator, flow, requirement))
  {
  }

  lemma FlowIdFree(alias: string, description: string, topLevel: bool, executions: seq<Json>)
    requires NoIds(Arr(executions))
    ensures NoIds(Flow(alias, description, topLevel, executions))
  {
  }

  lemma BaseWithoutIds(ms: seq<Member>, attributes: seq<Member>)
    ensures MembersWithoutIds(Base(ms, attributes)) == Base(MembersWithoutIds(ms), MembersWithoutIds(attributes))
  {
    hide Put, Remove, Foreign, MembersWithoutIds;
    FlowsIdFree();
    RemoveWithoutIds(ms, "authenticatorConfig");
    var a := Remove(ms, "authenticatorConfig");
    PutWithoutIds(a, "authenticationFlows", BROWSER_FLOWS);
    var b := Put(a, "authenticationFlows", BROWSER_FLOWS);
    PutWithoutIds(b, "browserFlow", Str("benchmark browser"));
    PutWithoutIds(Put(b, "browserFlow", Str("benchmark browser")), "attributes", Obj(Foreign(attributes)));
    ForeignWithoutIds(attributes);
  }

  lemma DefaultWithoutIds(ms: seq<Member>, name: string, value: Json)
    requires name != "id" && WithoutIds(value) == value
    ensures Default(MembersWithoutIds(ms), name, value) == WithoutIds(Default(ms, name, value))
  {
    LookupWithoutIds(ms, name);
    hide Lookup, MembersWithoutIds;
  }

  lemma {:induction false} ItemsAppended(a: seq<Json>, b: seq<Json>)
    ensures ItemsWithoutIds(a + b) == ItemsWithoutIds(a) + ItemsWithoutIds(b)
  {
    assert forall i :: 0 <= i < |a + b| ==> ItemsWithoutIds(a + b)[i] == (ItemsWithoutIds(a) + ItemsWithoutIds(b))[i];
  }

  lemma RedirectsIdFree()
    ensures ItemsWithoutIds(BENCHMARK_REDIRECTS) == BENCHMARK_REDIRECTS
  {
  }

  // Rewriting keeps the kind of a value, and leaves texts alone.
  lemma SameKind(v: Json, text: string)
    ensures WithoutIds(v).Arr? == v.Arr? && WithoutIds(v).Obj? == v.Obj?
    ensures WithoutIds(v) == Str(text) <==> v == Str(text)
    ensures v.Arr? ==> WithoutIds(v) == Arr(ItemsWithoutIds(v.items))
    ensures v.Obj? ==> WithoutIds(v) == Obj(MembersWithoutIds(v.members))
  {
  }

  lemma ClientWithoutIds(client: Json)
    ensures PlainClient(WithoutIds(client)).Ok? <==> PlainClient(client).Ok?
    ensures PlainClient(client).Ok? ==> PlainClient(WithoutIds(client)).value == WithoutIds(PlainClient(client).value)
  {
    SameKind(client, "");
    if client.Obj? {
      var ms := client.members;
      var id, redirects := Lookup(ms, "clientId"), Default(ms, "redirectUris", Arr([]));
      LookupWithoutIds(ms, "clientId");
      DefaultWithoutIds(ms, "redirectUris", Arr([]));
      if id.Some? { SameKind(id.value, "oidc4ac-test-client"); }
      SameKind(redirects, "");
      hide Lookup, Put, MembersWithoutIds, ItemsWithoutIds, WithoutIds, Default;
      if id.Some? && id.value == TEST_CLIENT && redirects.Arr? {
        RedirectsWithoutIds(ms, redirects.items);
        SameKind(PlainClient(client).value, "");
      }
    }
  }

  lemma RedirectsWithoutIds(ms: seq<Member>, items: seq<Json>)
    ensures MembersWithoutIds(Put(ms, "redirectUris", Arr(items + BENCHMARK_REDIRECTS))) ==
            Put(MembersWithoutIds(ms), "redirectUris", Arr(ItemsWithoutIds(items) + BENCHMARK_REDIRECTS))
  {
    PutWithoutIds(ms, "redirectUris", Arr(items + BENCHMARK_REDIRECTS));
    ItemsAppended(items, BENCHMARK_REDIRECTS);
    RedirectsIdFree();
    hide MembersWithoutIds, Put, ItemsWithoutIds;
  }

  // A realm whose clients are an object with identifiers only: iterating it fails, iterating what
  // `without_ids` leaves of it does not.
  predicate ClientsOnlyIds(realm: Json) {
    && realm.Obj? && Default(realm.members, "attributes", Obj([])).Obj?
    && Lookup(realm.members, "clients").Some?
    && Lookup(realm.members, "clients").value.Obj?
    && Lookup(realm.members, "clients").value.members != []
    && MembersWithoutIds(Lookup(realm.members, "clients").value.members) == []
  }

  // Deriving the plain realm and stripping identifiers commute, member order included; stripping
  // first makes `plain` succeed on exactly one more kind of input.
  lemma RewritesCommute(realm: Json)
    ensures Plain(realm).Ok? ==> Plain(WithoutIds(realm)) == Ok(WithoutIds(Plain(realm).value))
    ensures Plain(WithoutIds(realm)).Ok? <==> Plain(realm).Ok? || ClientsOnlyIds(realm)
  {
    SameKind(realm, "");
    if realm.Obj? {
      var ms := realm.members;
      var attributes := Default(ms, "attributes", Obj([]));
      DefaultWithoutIds(ms, "attributes", Obj([]));
      SameKind(attributes, "");
      LookupWithoutIds(ms, "clients");
      if attributes.Obj? {
        BaseWithoutIds(ms, attributes.members);
        ClientsCommute(Base(ms, attributes.members), Lookup(ms, "clients"));
      }
      hide Lookup, MembersWithoutIds, WithoutIds, Default, Base, WithClients;
    }
  }

  lemma ClientsCommute(base: seq<Member>, clients: Option<Json>)
    ensures var stripped := if clients.None? then None else Some(WithoutIds(clients.value));
            && (WithClients(base, clients).Ok? ==>
                  WithClients(MembersWithoutIds(base), stripped) == Ok(WithoutIds(WithClients(base, clients).value)))
            && (WithClients(MembersWithoutIds(base), stripped).Ok? <==>
                  || WithClients(base, clients).Ok?
                  || (clients.Some? && clients.value.Obj? && clients.value.members != [] &&
                      MembersWithoutIds(clients.value.members) == []))
  {
    SameKind(Obj(base), "");
    if clients.Some? {
      var v := clients.value;
      SameKind(v, "");
      if v.Arr? {
        ItemsCommute(base, v.items);
        if AllPlain(v.items) { SameKind(Obj(Put(base, "clients", Arr(PlainClients(v.items)))), ""); }
      } else {
        ClientsKind(v);
      }
      hide MembersWithoutIds, ItemsWithoutIds, WithoutIds, AllPlain, PlainClients, Put;
    }
  }

  lemma ClientsKind(clients: Json)
    requires !clients.Arr?
    ensures Clients(WithoutIds(clients)).Ok? <==>
            || Clients(clients).Ok?
            || (clients.Obj? && clients.members != [] && MembersWithoutIds(clients.members) == [])
    ensures Clients(clients).Ok? ==> WithoutIds(clients) == clients && Clients(clients).value == []
    ensures Clients(WithoutIds(clients)).Ok? ==> Clients(WithoutIds(clients)).value == []
    ensures AllPlain([])
  {
  }

  lemma ItemsCommute(base: seq<Member>, items: seq<Json>)
    ensures AllPlain(ItemsWithoutIds(items)) <==> AllPlain(items)
    ensures AllPlain(items) ==>
              MembersWithoutIds(Put(base, "clients", Arr(PlainClients(items)))) ==
              Put(MembersWithoutIds(base), "clients", Arr(PlainClients(ItemsWithoutIds(items))))
  {
    forall i | 0 <= i < |items| { ClientWithoutIds(items[i]); }
    hide PlainClient, MembersWithoutIds, Put;
    assert forall i :: 0 <= i < |items| ==> ItemsWithoutIds(items)[i] == WithoutIds(items[i]);
    if AllPlain(items) {
      assert PlainClients(ItemsWithoutIds(items)) == ItemsWithoutIds(PlainClients(items));
      PutWithoutIds(base, "clients", Arr(PlainClients(items)));
    }
  }

  lemma StepMembers(priority: nat, authenticator: Json, flow: Option<string>, requirement: string)
    requires flow.Some? ==> flow.value != ""
    ensures var ms := Execution(priority, authenticator, flow, requirement).members;
            && Lookup(ms, "authenticatorFlow") == Some(Bool(flow.Some?))
            && Lookup(ms, "flowAlias") == (if flow.Some? then Some(Str(flow.value)) else None)
            && Lookup(ms, "authenticator") == if flow.Some? then None else Some(authenticator)
  {
    hide Lookup;
    var ms := Execution(priority, authenticator, flow, requirement).members;
    LookupAt(ms, 0);
    LookupAt(ms, 4);
  }

  lemma FlowMembers(alias: string, description: string, topLevel: bool, steps: seq<Json>)
    ensures var ms := Flow(alias, description, topLevel, steps).members;
            && Lookup(ms, "alias") == Some(Str(alias)) && Lookup(ms, "topLevel") == Some(Bool(topLevel))
            && Lookup(ms, "authenticationExecutions") == Some(Arr(steps))
  {
    hide Lookup;
    var ms := Flow(alias, description, topLevel, steps).members;
    LookupAt(ms, 0);
    LookupAt(ms, 3);
    LookupAt(ms, 5);
  }

  lemma NamedStepResolves(priority: nat, flow: Json, alias: string, requirement: string, flows: seq<Json>)
    requires alias != "" && flow in flows && flow.Obj?
    requires Lookup(flow.members, "alias") == Some(Str(alias)) && Lookup(flow.members, "topLevel") == Some(Bool(false))
    ensures StepResolves(Execution(priority, Null, Some(alias), requirement), flows)
  {
    hide Lookup, Execution;
    StepMembers(priority, Null, Some(alias), requirement);
  }

  lemma PlainStepResolves(priority: nat, authenticator: string, requirement: string, flows: seq<Json>)
    ensures StepResolves(Execution(priority, Str(authenticator), None, requirement), flows)
  {
    hide Lookup, Execution;
    StepMembers(priority, Str(authenticator), None, requirement);
  }

  // The new browser flow is there, at the top level, and every step of every flow resolves.
  lemma BrowserFlowsResolve()
    ensures exists f :: f in BROWSER_FLOWS.items && f.Obj? && Lookup(f.members, "topLevel") == Some(Bool(true)) &&
                        Lookup(f.members, "alias") == Some(Str("benchmark browser"))
    ensures forall f :: f in BROWSER_FLOWS.items ==> FlowResolves(f, BROWSER_FLOWS.items)
  {
    hide Lookup, Flow, Execution, StepResolves;
    var flows := BROWSER_FLOWS.items;
    FlowMembers("benchmark browser", "Laboratory browser flow without the OIDC4AC planner.", true, BROWSER_STEPS);
    FlowMembers("benchmark browser forms", "Username form followed by a password form.", false, FORM_STEPS);
    assert flows[0] in flows && flows[1] in flows;
    PlainStepResolves(10, "auth-cookie", "ALTERNATIVE", flows);
    NamedStepResolves(20, flows[1], "benchmark browser forms", "ALTERNATIVE", flows);
    PlainStepResolves(10, "auth-username-form", "REQUIRED", flows);
    PlainStepResolves(20, "auth-password-form", "REQUIRED", flows);
    assert forall e :: e in BROWSER_STEPS ==> StepResolves(e, flows);
    assert forall e :: e in FORM_STEPS ==> StepResolves(e, flows);
  }

  // ---------------------------------------------------------------- the realm-disabled fixture

  function RealmDisabled(realm: Json): Result<Json, Crash> {
    match Plain(realm)
    case Err(e) => Err(e)
    case Ok(p) =>
      PlainAttributesKept(realm);
      var ms := WithoutIds(p).members;
      var attributes := Lookup(ms, "attributes").value.members;
      Ok(Obj(Put(Put(ms, "realm", Str("oidc4ac-off")), "attributes",
                 Obj(Put(attributes, "oidc4ac.enabled", Str("false"))))))
  }

  lemma PlainAttributesKept(realm: Json)
    requires Plain(realm).Ok?
    ensures Plain(realm).value.Obj? && WithoutIds(Plain(realm).value).Obj?
    ensures Lookup(WithoutIds(Plain(realm).value).members, "attributes").Some?
    ensures Lookup(WithoutIds(Plain(realm).value).members, "attributes").value.Obj?
  {
    PlainMembers(realm, "");
    LookupWithoutIds(Plain(realm).value.members, "attributes");
  }

  // The fixture has no identifiers at any depth and exactly one attribute of OIDC4AC's, switching
  // it off; its other attributes are the laboratory realm's, without identifiers.
  lemma DisabledExactly(realm: Json, name: string)
    requires RealmDisabled(realm).Ok?
    ensures var out := RealmDisabled(realm).value;
            && NoIds(out) && out.Obj? && Lookup(out.members, "realm") == Some(Str("oidc4ac-off"))
            && Lookup(out.members, "attributes").Some? && Lookup(out.members, "attributes").value.Obj?
    ensures realm.Obj? && Default(realm.members, "attributes", Obj([])).Obj?
    ensures var attributes := Lookup(RealmDisabled(realm).value.members, "attributes").value.members;
            var before := Lookup(Default(realm.members, "attributes", Obj([])).members, name);
            Lookup(attributes, name) ==
              if name == "oidc4ac.enabled" then Some(Str("false"))
              else if Ours(name) || name == "id" || before.None? then None
              else Some(WithoutIds(before.value))
  {
    var p := Plain(realm).value;
    PlainAttributesKept(realm);
    PlainMembers(realm, name);
    LookupWithoutIds(p.members, "attributes");
    var kept := Lookup(p.members, "attributes").value.members;
    LookupWithoutIds(kept, name);
    IdsGone(p);
    hide Lookup, Put, MembersWithoutIds, Foreign, Plain, NoIds;
    var ms := WithoutIds(p).members;
    var attributes := Lookup(ms, "attributes").value.members;
    assert attributes == MembersWithoutIds(kept);
    LookupPut(attributes, "oidc4ac.enabled", Str("false"), name);
    IdsGone(Obj(kept));
    var enabled := Put(attributes, "oidc4ac.enabled", Str("false"));
    PutIdFree(attributes, "oidc4ac.enabled", Str("false"));
    PutIdFree(ms, "realm", Str("oidc4ac-off"));
    var named := Put(ms, "realm", Str("oidc4ac-off"));
    PutIdFree(named, "attributes", Obj(enabled));
    LookupPut(named, "attributes", Obj(enabled), "attributes");
    LookupPut(named, "attributes", Obj(enabled), "realm");
    LookupPut(ms, "realm", Str("oidc4ac-off"), "realm");
  }

  lemma {:induction false} PutIdFree(ms: seq<Member>, name: string, value: Json)
    requires NoIds(Obj(ms)) && name != "id" && NoIds(value)
    ensures NoIds(Obj(Put(ms, name, value)))
  {
    if ms != [] {
      assert forall i :: 0 <= i < |ms[1..]| ==> ms[1..][i] == ms[i + 1];
      if ms[0].name != name {
        PutIdFree(ms[1..], name, value);
      }
    }
  }
}
