// Requests that no other request interrupts, from first step to last, appended to any run.
module WholeRequests {
  import opened Wrappers
  import opened Json
  import opened Caches
  import opened RelyingParty

  lemma RunSnoc(steps: seq<Step>, step: Step, s: State)
    requires Run(steps) == Some(s) && Enabled(s, step)
    ensures Run(steps + [step]) == Some(Next(s, step))
  {
    hide Act, Fits;
    assert (steps + [step])[..|steps|] == steps;
  }

  // The steps of each request: the prune that a login, a refresh and the home page begin with, the
  // rest of a login, a callback, and the two halves of a refresh around its exchange.
  function PruneSteps(n: Thread, request: Request, at: real): seq<Step> {
    [Begin(n, request, at), Go(n, Nothing, at), Go(n, Nothing, at)]
  }

  function LoginSteps(n: Thread, claims: Json, nonce: string, state: Id, at: real): seq<Step> {
    PruneSteps(n, Login(claims, nonce), at) + [Go(n, Draws(state), at)]
  }

  function CallbackSteps(n: Thread, state: Id, token: Option<string>, result: Id, at: real): seq<Step> {
    [Begin(n, Callback(Some(state)), at), Go(n, Nothing, at), Go(n, Grants(token), at), Go(n, Draws(result), at)]
  }

  function FindSteps(n: Thread, id: Id, at: real): seq<Step> {
    PruneSteps(n, Refresh(Some(id)), at) + [Go(n, Nothing, at)] + [Go(n, Nothing, at)]
  }

  function MergeSteps(n: Thread, response: TokenResponse, at: real): seq<Step> {
    [Go(n, Answers(response), at)] + [Go(n, Nothing, at)]
  }

  function WriteSteps(n: Thread, at: real): seq<Step> { [Go(n, Nothing, at)] + [Go(n, Nothing, at)] }

  function RefreshSteps(n: Thread, id: Id, response: TokenResponse, at: real, later: real): seq<Step> {
    FindSteps(n, id, at) + MergeSteps(n, response, later) + WriteSteps(n, later)
  }

  // One more step of a thread at the end of a run.
  lemma Extended(steps: seq<Step>, s: State, n: Thread, outcome: Outcome, at: real) returns (t: State)
    requires Run(steps) == Some(s) && n in s.stages && at >= s.now && Fits(s.log, s.stages[n], outcome)
    ensures Steady(s) && (HoldsRecord(s.stages[n]) ==> s.stages[n].record < |s.caches.records|)
    ensures Run(steps + [Go(n, outcome, at)]) == Some(t)
    ensures var m := Act(s, s.stages[n], outcome, at);
            t == State(m.caches, s.stages[n := m.stage], at, s.log + m.events)
  {
    hide Run, Act, Fits;
    assert Steady(s);
    RunSnoc(steps, Go(n, outcome, at), s);
    t := Next(s, Go(n, outcome, at));
  }

  lemma PruneAlone(steps: seq<Step>, s: State, n: Thread, request: Request, at: real) returns (t: State)
    requires Run(steps) == Some(s) && n !in s.stages && at >= s.now && !request.Callback?
    ensures Steady(s) && Run(steps + PruneSteps(n, request, at)) == Some(t)
    ensures t == State(Pruned(s.caches, at - 900.0), s.stages[n := AfterPrune(request)], at,
                       s.log + [Swept(at - 900.0, at)])
  {
    hide Run, FreshState, FreshResult;
    assert Steady(s);
    hide Pruned;
    var begin, go := Begin(n, request, at), Go(n, Nothing, at);
    RunSnoc(steps, begin, s);
    var s1 := Next(s, begin);
    hide Next, Enabled, Steady;
    var s2 := Extended(steps + [begin], s1, n, Nothing, at);
    t := Extended(steps + [begin] + [go], s2, n, Nothing, at);
    assert steps + [begin] + [go] + [go] == steps + PruneSteps(n, request, at);
    assert t.stages == s.stages[n := AfterPrune(request)];
    assert s.log + [] == s.log;
  }

  // A login prunes both caches and leaves its claims and nonce under the state it drew.
  lemma LoginAlone(steps: seq<Step>, s: State, n: Thread, claims: Json, nonce: string, state: Id, at: real)
      returns (t: State)
    requires Run(steps) == Some(s) && n !in s.stages && at >= s.now && FreshState(s.log, state)
    ensures Run(steps + LoginSteps(n, claims, nonce, state, at)) == Some(t)
    ensures t.caches == WithAuthorization(Pruned(s.caches, at - 900.0), state, claims, nonce, at)
    ensures t.stages == s.stages[n := Done] && t.now == at
    ensures t.log == s.log + [Swept(at - 900.0, at), Stored(state, Context(claims, nonce, at))]
  {
    var s3 := PruneAlone(steps, s, n, Login(claims, nonce), at);
    StillFresh(s.log, s3.log, state);
    hide Run, FreshState, FreshResult, Pruned, WithAuthorization, Next, Enabled, Steady;
    t := Extended(steps + PruneSteps(n, Login(claims, nonce), at), s3, n, Draws(state), at);
    assert steps + PruneSteps(n, Login(claims, nonce), at) + [Go(n, Draws(state), at)] ==
           steps + LoginSteps(n, claims, nonce, state, at);
  }

  lemma StillFresh(log: seq<Event>, longer: seq<Event>, id: Id)
    requires FreshState(log, id) && |longer| == |log| + 1 && longer[..|log|] == log && !longer[|log|].Stored?
    ensures FreshState(longer, id)
  {
    assert forall i :: 0 <= i < |log| ==> longer[i] == longer[..|log|][i];
  }

  // A callback that finds its context opens a result with the claims of that context, however
  // old the context is: only prunes expire entries, and a callback makes none.
  lemma CallbackAlone(steps: seq<Step>, s: State, n: Thread, state: Id, token: Option<string>, result: Id, at: real)
      returns (t: State)
    requires Run(steps) == Some(s) && n !in s.stages && at >= s.now
    requires state != "" && state in s.caches.authorizations && FreshResult(s.log, result)
    ensures Run(steps + CallbackSteps(n, state, token, result, at)) == Some(t)
    ensures t.caches == WithResult(WithoutAuthorization(s.caches, Some(state)), result, token,
                                   s.caches.authorizations[state].claims, at)
    ensures t.stages == s.stages[n := Done] && t.now == at
    ensures var context := s.caches.authorizations[state];
            t.log == s.log + [Event.Popped(state, Some(context)),
                              Opened(result, |s.caches.records|, Record(token, context.claims, at), |s.log|)]
  {
    hide Run, FreshState, FreshResult;
    var all := CallbackSteps(n, state, token, result, at);
    RunSnoc(steps, all[0], s);
    var s1 := Next(s, all[0]);
    RunSnoc(steps + [all[0]], all[1], s1);
    var s2 := Next(s1, all[1]);
    assert s2.stages[n].Redeeming?;
    RunSnoc(steps + [all[0]] + [all[1]], all[2], s2);
    var s3 := Next(s2, all[2]);
    assert FreshResult(s3.log, result) by { StillFreshResult(s.log, s3.log, result); }
    RunSnoc(steps + [all[0]] + [all[1]] + [all[2]], all[3], s3);
    t := Next(s3, all[3]);
    assert steps + [all[0]] + [all[1]] + [all[2]] + [all[3]] == steps + all;
  }

  // A callback whose exchange or verification fails has redeemed its context and opens nothing.
  lemma CallbackFails(steps: seq<Step>, s: State, n: Thread, state: Id, at: real) returns (t: State)
    requires Run(steps) == Some(s) && n !in s.stages && at >= s.now
    requires state != "" && state in s.caches.authorizations
    ensures Run(steps + [Begin(n, Callback(Some(state)), at), Go(n, Nothing, at), Go(n, Fails, at)]) == Some(t)
    ensures t.caches == WithoutAuthorization(s.caches, Some(state)) && t.stages == s.stages[n := Done]
    ensures t.log == s.log + [Event.Popped(state, Some(s.caches.authorizations[state]))]
  {
    hide Run, FreshState, FreshResult;
    var begin, go, fail := Begin(n, Callback(Some(state)), at), Go(n, Nothing, at), Go(n, Fails, at);
    RunSnoc(steps, begin, s);
    var s1 := Next(s, begin);
    RunSnoc(steps + [begin], go, s1);
    var s2 := Next(s1, go);
    RunSnoc(steps + [begin] + [go], fail, s2);
    t := Next(s2, fail);
    assert steps + [begin] + [go] + [fail] == steps + [begin, go, fail];
    assert t.stages == s.stages[n := Done];
  }

  // A refresh whose exchange fails ends there: its record keeps its token and its stamp.
  lemma RefreshFails(steps: seq<Step>, s: State, n: Thread, id: Id, at: real, later: real) returns (t: State)
    requires Run(steps) == Some(s) && n !in s.stages && s.now <= at <= later
    requires id in s.caches.results
    requires s.caches.records[s.caches.results[id]].createdAt >= at - 900.0
    requires HasText(s.caches.records[s.caches.results[id]].refreshToken)
    ensures Run(steps + (FindSteps(n, id, at) + [Go(n, Fails, later)])) == Some(t)
    ensures t.caches == Pruned(s.caches, at - 900.0) && t.stages == s.stages[n := Done]
    ensures t.caches.records == s.caches.records && t.log == s.log + [Swept(at - 900.0, at)]
  {
    hide Run, FreshState, FreshResult, Pruned, HasText, FindSteps;
    assert Steady(s);
    PrunedKeeps(s.caches, at - 900.0, id);
    var found := RefreshFinds(steps, s, n, id, at);
    hide Next, Enabled, Steady, Sound;
    var finds, fail := FindSteps(n, id, at), [Go(n, Fails, later)];
    t := Extended(steps + finds, found, n, Fails, later);
    assert steps + finds + fail == steps + (finds + fail);
  }

  // The home page prunes both caches and does nothing else.
  lemma HomeAlone(steps: seq<Step>, s: State, n: Thread, at: real) returns (t: State)
    requires Run(steps) == Some(s) && n !in s.stages && at >= s.now
    ensures Steady(s) && Run(steps + PruneSteps(n, Home, at)) == Some(t)
    ensures t.caches == Pruned(s.caches, at - 900.0) && t.stages == s.stages[n := Done]
    ensures t.log == s.log + [Swept(at - 900.0, at)]
  {
    hide Run, Pruned, Steady, PruneSteps;
    t := PruneAlone(steps, s, n, Home, at);
  }

  lemma StillFreshResult(log: seq<Event>, longer: seq<Event>, id: Id)
    requires FreshResult(log, id) && |longer| == |log| + 1 && longer[..|log|] == log && !longer[|log|].Opened?
    ensures FreshResult(longer, id)
  {
    assert forall i :: 0 <= i < |log| ==> longer[i] == longer[..|log|][i];
  }

  // A refresh of a result that its prune keeps and that has a refresh token: the record gets the
  // response's token, or keeps its own, and a new stamp; nothing else changes but what is pruned.
  lemma RefreshAlone(steps: seq<Step>, s: State, n: Thread, id: Id, response: TokenResponse, at: real, later: real)
      returns (t: State)
    requires Run(steps) == Some(s) && n !in s.stages && s.now <= at <= later
    requires id in s.caches.results
    requires s.caches.records[s.caches.results[id]].createdAt >= at - 900.0
    requires HasText(s.caches.records[s.caches.results[id]].refreshToken)
    ensures Run(steps + RefreshSteps(n, id, response, at, later)) == Some(t)
    ensures t.caches == Refreshed(s.caches, id, response, at, later)
    ensures t.stages == s.stages[n := Done] && t.now == later
  {
    hide Run, Next, Act, Enabled, Fits, Pruned, Refreshed, WithToken, WithStamp, FindSteps, MergeSteps, WriteSteps,
         Merged, HasText;
    assert Steady(s);
    PrunedKeeps(s.caches, at - 900.0, id);
    hide Steady, Sound;
    var r := s.caches.results[id];
    var finds, merges, writes := FindSteps(n, id, at), MergeSteps(n, response, later), WriteSteps(n, later);
    var found := RefreshFinds(steps, s, n, id, at);
    t := RefreshEnds(steps + finds, found, n, r, response, later);
    TwoWrites(s.caches, id, response, at, later);
    assert steps + finds + (merges + writes) == steps + (finds + merges + writes);
  }

  lemma RefreshEnds(steps: seq<Step>, s: State, n: Thread, r: nat, response: TokenResponse, later: real)
      returns (t: State)
    requires Run(steps) == Some(s) && n in s.stages && s.stages[n] == Exchanging(r) && s.now <= later
    ensures r < |s.caches.records|
    ensures Run(steps + (MergeSteps(n, response, later) + WriteSteps(n, later))) == Some(t)
    ensures t.caches == WithStamp(WithToken(s.caches, r, Merged(s.caches.records[r].refreshToken, response)), r, later)
    ensures t.stages == s.stages[n := Done] && t.now == later
  {
    hide Run, Next, Act, Enabled, Fits, Merged, MergeSteps, WriteSteps, WithToken, WithStamp;
    assert Steady(s);
    var merges, writes := MergeSteps(n, response, later), WriteSteps(n, later);
    var merged := RefreshMerges(steps, s, n, r, response, later);
    t := RefreshWrites(steps + merges, merged, n, r, Merged(s.caches.records[r].refreshToken, response), later);
    assert steps + merges + writes == steps + (merges + writes);
  }

  function Refreshed(c: CacheView, id: Id, response: TokenResponse, at: real, later: real): CacheView
    requires Sound(c) && id in c.results
  {
    var before := c.records[c.results[id]];
    Pruned(c, at - 900.0)
      .(records := c.records[c.results[id] := Record(Merged(before.refreshToken, response), before.claims, later)])
  }

  lemma TwoWrites(c: CacheView, id: Id, response: TokenResponse, at: real, later: real)
    requires Sound(c) && id in c.results
    ensures var d, r := Pruned(c, at - 900.0), c.results[id];
            d.records == c.records &&
            WithStamp(WithToken(d, r, Merged(c.records[r].refreshToken, response)), r, later) ==
            Refreshed(c, id, response, at, later)
  {
    hide Merged;
    var r := c.results[id];
    var token := Merged(c.records[r].refreshToken, response);
    assert c.records[r := c.records[r].(refreshToken := token)][r := Record(token, c.records[r].claims, later)] ==
           c.records[r := Record(token, c.records[r].claims, later)];
  }

  lemma PrunedKeeps(c: CacheView, cutoff: real, id: Id)
    requires Sound(c) && id in c.results && c.records[c.results[id]].createdAt >= cutoff
    ensures Pruned(c, cutoff).records == c.records
    ensures id in Pruned(c, cutoff).results && Pruned(c, cutoff).results[id] == c.results[id]
  {
  }

  lemma RefreshFinds(steps: seq<Step>, s: State, n: Thread, id: Id, at: real)
      returns (t: State)
    requires Run(steps) == Some(s) && n !in s.stages && s.now <= at
    requires id in s.caches.results
    requires s.caches.records[s.caches.results[id]].createdAt >= at - 900.0
    requires HasText(s.caches.records[s.caches.results[id]].refreshToken)
    ensures Run(steps + FindSteps(n, id, at)) == Some(t)
    ensures t.caches == Pruned(s.caches, at - 900.0) && t.log == s.log + [Swept(at - 900.0, at)]
    ensures t.stages == s.stages[n := Exchanging(s.caches.results[id])] && t.now == at
  {
    hide Run, FreshState, FreshResult;
    assert Steady(s);
    PrunedKeeps(s.caches, at - 900.0, id);
    hide Pruned;
    var s3 := PruneAlone(steps, s, n, Refresh(Some(id)), at);
    hide Next, Enabled, Steady, PruneSteps;
    var prune, go := PruneSteps(n, Refresh(Some(id)), at), Go(n, Nothing, at);
    var s4 := Extended(steps + prune, s3, n, Nothing, at);
    t := Extended(steps + prune + [go], s4, n, Nothing, at);
    assert steps + prune + [go] + [go] == steps + (prune + [go] + [go]);
    assert t.stages == s.stages[n := Exchanging(s.caches.results[id])];
  }

  lemma RefreshMerges(steps: seq<Step>, s: State, n: Thread, r: nat, response: TokenResponse, later: real)
      returns (t: State)
    requires Run(steps) == Some(s) && n in s.stages && s.stages[n] == Exchanging(r) && s.now <= later
    ensures r < |s.caches.records|
    ensures Run(steps + MergeSteps(n, response, later)) == Some(t)
    ensures t.caches == s.caches && t.now == later
    ensures t.stages == s.stages[n := Writing(r, Merged(s.caches.records[r].refreshToken, response), response, |s.log|)]
  {
    var answer, go := Go(n, Answers(response), later), Go(n, Nothing, later);
    hide Run, FreshState, FreshResult, Next, Enabled, Steady;
    var s1 := Extended(steps, s, n, Answers(response), later);
    t := Extended(steps + [answer], s1, n, Nothing, later);
    assert steps + [answer] + [go] == steps + ([answer] + [go]);
    assert s.log + [] == s.log;
  }

  lemma RefreshWrites(steps: seq<Step>, s: State, n: Thread, r: nat, token: Option<string>, later: real)
      returns (t: State)
    requires Run(steps) == Some(s) && n in s.stages && s.stages[n].Writing? && s.now <= later
    requires s.stages[n].record == r && s.stages[n].token == token
    ensures r < |s.caches.records|
    ensures Run(steps + WriteSteps(n, later)) == Some(t)
    ensures t.caches == WithStamp(WithToken(s.caches, r, token), r, later)
    ensures t.stages == s.stages[n := Done] && t.now == later
  {
    var go := Go(n, Nothing, later);
    hide Run, FreshState, FreshResult, Next, Enabled, Steady;
    var s1 := Extended(steps, s, n, Nothing, later);
    t := Extended(steps + [go], s1, n, Nothing, later);
    assert steps + [go] + [go] == steps + ([go] + [go]);
  }

  lemma PrunedOnly(c: CacheView, cutoff: real, id: Id)
    requires Sound(c)
    ensures Pruned(c, cutoff).records == c.records
    ensures id in Pruned(c, cutoff).results ==>
              && id in c.results && Pruned(c, cutoff).results[id] == c.results[id]
              && c.records[c.results[id]].createdAt >= cutoff
  {
  }

  // A refresh of a result that is unknown, that its prune removes or that has no usable token ends
  // there: nothing changes but what is pruned, and no exchange is made.
  lemma RefreshRefused(steps: seq<Step>, s: State, n: Thread, id: Id, at: real) returns (t: State)
    requires Run(steps) == Some(s) && n !in s.stages && s.now <= at
    requires id in s.caches.results && s.caches.records[s.caches.results[id]].createdAt >= at - 900.0 ==>
               !HasText(s.caches.records[s.caches.results[id]].refreshToken)
    ensures var found := id in Pruned(s.caches, at - 900.0).results;
            Run(steps + (PruneSteps(n, Refresh(Some(id)), at) + [Go(n, Nothing, at)] +
                         if found then [Go(n, Nothing, at)] else [])) == Some(t)
    ensures t.caches == Pruned(s.caches, at - 900.0)
    ensures t.stages == s.stages[n := Done]
  {
    hide Run, FreshState, FreshResult, HasText;
    assert Steady(s);
    PrunedOnly(s.caches, at - 900.0, id);
    hide Pruned;
    var pruned := Pruned(s.caches, at - 900.0);
    var s3 := PruneAlone(steps, s, n, Refresh(Some(id)), at);
    hide Next, Enabled, Steady, PruneSteps;
    var prune, go := PruneSteps(n, Refresh(Some(id)), at), Go(n, Nothing, at);
    t := FindRefused(steps + prune, s3, n, id, at);
    assert steps + prune + ([go] + if id in pruned.results then [go] else []) ==
           steps + (prune + [go] + if id in pruned.results then [go] else []);
  }

  lemma FindRefused(steps: seq<Step>, s: State, n: Thread, id: Id, at: real) returns (t: State)
    requires Run(steps) == Some(s) && n in s.stages && s.stages[n] == Finding(Some(id)) && s.now <= at
    requires id in s.caches.results ==> !HasText(s.caches.records[s.caches.results[id]].refreshToken)
    ensures Run(steps + ([Go(n, Nothing, at)] + if id in s.caches.results then [Go(n, Nothing, at)] else [])) == Some(t)
    ensures t.caches == s.caches && t.stages == s.stages[n := Done]
  {
    hide Run, FreshState, FreshResult, Next, Enabled, HasText;
    var go := Go(n, Nothing, at);
    var s4 := Extended(steps, s, n, Nothing, at);
    if id in s.caches.results {
      t := Extended(steps + [go], s4, n, Nothing, at);
      assert steps + [go] + [go] == steps + ([go] + [go]);
    } else {
      t := s4;
      assert [go] + [] == [go];
    }
    assert t.stages == s.stages[n := Done];
  }

  // A callback without a state, or with one that is not pending, changes no cache.
  lemma CallbackRefused(steps: seq<Step>, s: State, n: Thread, state: Option<Id>, at: real) returns (t: State)
    requires Run(steps) == Some(s) && n !in s.stages && s.now <= at
    requires state.Some? ==> state.value == "" || state.value !in s.caches.authorizations
    ensures Run(steps + ([Begin(n, Callback(state), at)] + [Go(n, Nothing, at)])) == Some(t)
    ensures t.caches == s.caches && t.stages == s.stages[n := Done]
  {
    hide Run, FreshState, FreshResult;
    assert Steady(s);
    var begin, go := Begin(n, Callback(state), at), Go(n, Nothing, at);
    RunSnoc(steps, begin, s);
    var s1 := Next(s, begin);
    hide Next, Enabled, Steady;
    t := Extended(steps + [begin], s1, n, Nothing, at);
    assert steps + [begin] + [go] == steps + ([begin] + [go]);
    assert t.stages == s.stages[n := Done];
    assert state.Some? ==> s.caches.authorizations - {state.value} == s.caches.authorizations || state.value == "";
  }

  // ---------------------------------------------------------------- two refreshes at once

  // Two refreshes of one result: the first reads the token and gets no new one, the second is
  // answered with a new token and writes it, then the first writes the old one back.
  lemma RotationLost(steps: seq<Step>, s: State, n: Thread, m: Thread, id: Id, rotated: string, at: real)
      returns (before: State, after: State)
    requires Run(steps) == Some(s) && n !in s.stages && m !in s.stages && n != m && s.now <= at
    requires id in s.caches.results && s.caches.records[s.caches.results[id]].createdAt >= at - 900.0
    requires HasText(s.caches.records[s.caches.results[id]].refreshToken)
    ensures var overlap := FindSteps(n, id, at) + MergeSteps(n, Silent, at) +
                           RefreshSteps(m, id, Says(Some(rotated)), at, at);
            && Run(steps + overlap) == Some(before)
            && Run(steps + overlap + [Go(n, Nothing, at)]) == Some(after)
    ensures var r := s.caches.results[id];
            && r < |before.caches.records| && before.caches.records[r].refreshToken == Some(rotated)
            && r < |after.caches.records| && after.caches.records[r].refreshToken == s.caches.records[r].refreshToken
            && id in after.caches.results && after.caches.results[id] == r
  {
    hide Run, Next, Act, Enabled, Pruned, FindSteps, MergeSteps, RefreshSteps, WithStamp;
    assert Steady(s);
    PrunedKeeps(s.caches, at - 900.0, id);
    var r := s.caches.results[id];
    var token := s.caches.records[r].refreshToken;
    var finds, merges := FindSteps(n, id, at), MergeSteps(n, Silent, at);
    var refresh := RefreshSteps(m, id, Says(Some(rotated)), at, at);
    var found := RefreshFinds(steps, s, n, id, at);
    var merged := RefreshMerges(steps + finds, found, n, r, Silent, at);
    assert merged.caches.records == s.caches.records && id in merged.caches.results && merged.caches.results[id] == r;
    before := RefreshAlone(steps + finds + merges, merged, m, id, Says(Some(rotated)), at, at);
    assert Steady(merged);
    PrunedKeeps(merged.caches, at - 900.0, id);
    assert before.stages[n] == Writing(r, token, Silent, |found.log|);
    after := LastStep(steps + finds + merges + refresh, before, n, r, token, at);
    assert steps + finds + merges + refresh == steps + (finds + merges + refresh);
  }

  lemma LastStep(steps: seq<Step>, s: State, n: Thread, r: nat, token: Option<string>, at: real) returns (t: State)
    requires Run(steps) == Some(s) && n in s.stages && s.stages[n].Writing? && s.now <= at
    requires s.stages[n].record == r && s.stages[n].token == token
    ensures r < |s.caches.records| && Run(steps + [Go(n, Nothing, at)]) == Some(t)
    ensures t.caches == WithToken(s.caches, r, token)
  {
    hide Run, FreshState, FreshResult, Next, Enabled;
    t := Extended(steps, s, n, Nothing, at);
  }

  // Such a run exists from the start: a login, its callback with the token "old", then the overlap.
  lemma RotationLostFromStart(claims: Json, nonce: string)
      returns (steps: seq<Step>, before: State, after: State)
    ensures Run(steps) == Some(before) && Run(steps + [Go(2, Nothing, 0.0)]) == Some(after)
    ensures "result" in after.caches.results && after.caches.results["result"] == 0
    ensures |before.caches.records| > 0 && before.caches.records[0].refreshToken == Some("new")
    ensures |after.caches.records| > 0 && after.caches.records[0].refreshToken == Some("old")
  {
    var login := LoginSteps(0, claims, nonce, "state", 0.0);
    var callback := CallbackSteps(1, "state", Some("old"), "result", 0.0);
    var pending := LoginAlone([], INITIAL, 0, claims, nonce, "state", 0.0);
    assert pending.caches.results == map[] && pending.caches.records == [];
    assert [] + login == login;
    var open := CallbackAlone(login, pending, 1, "state", Some("old"), "result", 0.0);
    assert open.caches.results["result"] == 0 && open.caches.records == [Record(Some("old"), claims, 0.0)];
    hide Run, LoginSteps, CallbackSteps;
    before, after := RotationLost(login + callback, open, 2, 3, "result", "new", 0.0);
    steps := login + callback
             + (FindSteps(2, "result", 0.0) + MergeSteps(2, Silent, 0.0)
                + RefreshSteps(3, "result", Says(Some("new")), 0.0, 0.0));
  }
}
