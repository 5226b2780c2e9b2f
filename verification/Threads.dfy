// What each request did, read off the steps of a run: every entry of the log belongs to one thread
// that began with the right request and took the right steps in the right order, each in the state
// that the earlier steps of all threads had led to.
module Threads {
  import opened Wrappers
  import opened Json
  import opened Caches
  import opened RelyingParty
  import Redemption

  // One step of a thread and the state it was taken in.
  datatype Turn = Turn(before: State, step: Step)

  // The turns of one thread in a run, in order.
  function Turns(steps: seq<Step>, n: Thread): seq<Turn> {
    if steps == [] then []
    else
      var last := |steps| - 1;
      var before := Run(steps[..last]);
      Turns(steps[..last], n)
      + if before.Some? && steps[last].thread == n then [Turn(before.value, steps[last])] else []
  }

  // The thread began with a request and has taken k steps, the first included; none of them failed.
  predicate Took(ts: seq<Turn>, k: nat, request: Request) {
    && |ts| == k > 0 && ts[0].step.Begin? && ts[0].step.request == request
    && forall i :: 0 < i < k ==> ts[i].step.Go? && ts[i].step.outcome != Fails
  }

  // A callback whose second step found a context under its state, when the log had `popped` entries.
  predicate TookContext(ts: seq<Turn>, k: nat, context: Context, popped: nat) {
    && k > 1 && |ts| == k && ts[0].step.Begin? && ts[0].step.request.Callback? && ts[0].step.request.state.Some?
    && var state := ts[0].step.request.state.value;
       var prior := ts[1].before;
       && Took(ts, k, Callback(Some(state))) && state != ""
       && state in prior.caches.authorizations && prior.caches.authorizations[state] == context
       && popped == |prior.log|
  }

  // A refresh whose fourth step found a record under its result.
  predicate TookRecord(ts: seq<Turn>, k: nat, record: nat) {
    && k > 3 && |ts| == k && ts[0].step.Begin? && ts[0].step.request.Refresh? && ts[0].step.request.result.Some?
    && var id := ts[0].step.request.result.value;
       var prior := ts[3].before;
       && Took(ts, k, Refresh(Some(id))) && id in prior.caches.results && prior.caches.results[id] == record
  }

  // Its fifth step saw a token to exchange.
  predicate HadToken(ts: seq<Turn>, record: nat) {
    |ts| > 4 && record < |ts[4].before.caches.records| && HasText(ts[4].before.caches.records[record].refreshToken)
  }

  // Its exchange was answered in the sixth step.
  predicate Answered(ts: seq<Turn>, response: TokenResponse) {
    |ts| > 5 && ts[5].step.Go? && ts[5].step.outcome == Answers(response)
  }

  // The token is the answer's, or else the one its seventh step read off the record.
  predicate TokenRead(ts: seq<Turn>, record: nat, token: Option<string>) {
    && |ts| > 6 && ts[5].step.Go? && ts[5].step.outcome.Answers? && record < |ts[6].before.caches.records|
    && token == match ts[5].step.outcome.response
                case Says(t) => t
                case Silent => ts[6].before.caches.records[record].refreshToken
  }

  // What a thread has done when it stands at a stage.
  predicate Stands(ts: seq<Turn>, stage: Stage) {
    match stage
    case Reading(request) => Took(ts, 1, request) && !request.Callback?
    case Sweeping(request, cutoff) =>
      Took(ts, 2, request) && !request.Callback? && cutoff == ts[1].step.at - 900.0
    case Storing(claims, nonce) => Took(ts, 3, Login(claims, nonce))
    case Popping(state) => Took(ts, 1, Callback(state))
    case Redeeming(context, popped) => TookContext(ts, 2, context, popped)
    case Opening(context, popped, token) =>
      TookContext(ts, 3, context, popped) && ts[2].step.outcome == Grants(token)
    case Finding(result) => Took(ts, 3, Refresh(result))
    case Checking(r) => TookRecord(ts, 4, r)
    case Exchanging(r) => TookRecord(ts, 5, r) && HadToken(ts, r)
    case Merging(r, response) => TookRecord(ts, 6, r) && HadToken(ts, r) && Answered(ts, response)
    case Writing(r, token, response, seen) =>
      && TookRecord(ts, 7, r) && HadToken(ts, r) && Answered(ts, response) && TokenRead(ts, r, token)
      && seen == |ts[6].before.log|
    case Stamping(r) => TookRecord(ts, 8, r) && HadToken(ts, r)
    case Done => ts != []
  }

  ghost predicate AllStand(steps: seq<Step>, s: State) {
    && (forall n :: n in s.stages ==> Stands(Turns(steps, n), s.stages[n]))
    && (forall n :: n !in s.stages ==> Turns(steps, n) == [])
  }

  // The last turn of a thread added an entry to the log.
  predicate Made(ts: seq<Turn>, e: Event) {
    match e
    case Stored(state, context) =>
      && Took(ts, 4, Login(context.claims, context.nonce))
      && ts[3].step.outcome == Draws(state) && context.createdAt == ts[3].step.at
    case Popped(state, found) =>
      && Took(ts, 2, Callback(Some(state))) && state != ""
      && var prior := ts[1].before.caches.authorizations;
         found == if state in prior then Some(prior[state]) else None
    case Swept(cutoff, at) =>
      && |ts| == 3 && ts[0].step.Begin? && !ts[0].step.request.Callback? && Took(ts, 3, ts[0].step.request)
      && cutoff == ts[1].step.at - 900.0 && at == ts[2].step.at
    case Opened(result, record, written, popped) =>
      && |ts| == 4
      && ts[0].step.Begin? && ts[0].step.request.Callback? && ts[0].step.request.state.Some?
      && var state := ts[0].step.request.state.value;
         var prior := ts[1].before.caches.authorizations;
         && Took(ts, 4, Callback(Some(state))) && state in prior && popped == |ts[1].before.log|
         && written == Record(written.refreshToken, prior[state].claims, ts[3].step.at)
         && ts[2].step.outcome == Grants(written.refreshToken) && ts[3].step.outcome == Draws(result)
         && record == |ts[3].before.caches.records|
    case Wrote(r, token) => TookRecord(ts, 8, r) && HadToken(ts, r) && TokenRead(ts, r, token)
    case Stamped(r, at) => TookRecord(ts, 9, r) && HadToken(ts, r) && at == ts[8].step.at
  }

  // Which turn of a request adds an entry: the prune, the store of a login, the pop and the opening of
  // a callback, the write and the stamp of a refresh.
  predicate Logs(ts: seq<Turn>) {
    && ts != [] && ts[0].step.Begin?
    && match ts[0].step.request
       case Home => |ts| == 3
       case Login(_, _) => |ts| == 3 || |ts| == 4
       case Callback(state) => (|ts| == 2 && state.Some? && state.value != "") || |ts| == 4
       case Refresh(_) => |ts| == 3 || |ts| == 8 || |ts| == 9
  }

  // ---------------------------------------------------------------- one step

  lemma TurnsSnoc(steps: seq<Step>, step: Step, s: State, n: Thread)
    requires Run(steps) == Some(s)
    ensures Turns(steps + [step], n) == if step.thread == n then Turns(steps, n) + [Turn(s, step)] else Turns(steps, n)
  {
    hide Run;
    assert (steps + [step])[..|steps|] == steps;
  }

  // A turn of a thread at a stage: where it stands then, and what it logged.
  lemma TurnStands(ts: seq<Turn>, s: State, step: Step)
    requires Steady(s) && Enabled(s, step) && step.Go? && Stands(ts, s.stages[step.thread])
    ensures var m := Act(s, s.stages[step.thread], step.outcome, step.at);
            var all := ts + [Turn(s, step)];
            && Stands(all, m.stage)
            && (m.events == [] <==> !Logs(all)) && (m.events == [] ==> m.caches == s.caches)
            && (forall e :: e in m.events ==> m.events == [e] && Made(all, e))
  {
    var stage := s.stages[step.thread];
    if HoldsRecord(stage) { RefreshTurn(ts, s, step); }
    else { EarlyTurn(ts, s, step); }
    hide Stands, Act, Made, Logs, Fits;
  }

  lemma RefreshTurn(ts: seq<Turn>, s: State, step: Step)
    requires Steady(s) && Enabled(s, step) && step.Go? && Stands(ts, s.stages[step.thread])
    requires HoldsRecord(s.stages[step.thread])
    ensures var m := Act(s, s.stages[step.thread], step.outcome, step.at);
            var all := ts + [Turn(s, step)];
            && Stands(all, m.stage)
            && (m.events == [] <==> !Logs(all)) && (m.events == [] ==> m.caches == s.caches)
            && (forall e :: e in m.events ==> m.events == [e] && Made(all, e))
  {
    hide FreshState, FreshResult, Run, Turns;
  }

  lemma EarlyTurn(ts: seq<Turn>, s: State, step: Step)
    requires Steady(s) && Enabled(s, step) && step.Go? && Stands(ts, s.stages[step.thread])
    requires !HoldsRecord(s.stages[step.thread])
    ensures var m := Act(s, s.stages[step.thread], step.outcome, step.at);
            var all := ts + [Turn(s, step)];
            && Stands(all, m.stage)
            && (m.events == [] <==> !Logs(all)) && (m.events == [] ==> m.caches == s.caches)
            && (forall e :: e in m.events ==> m.events == [e] && Made(all, e))
  {
    hide FreshState, FreshResult, Run, Turns, HadToken, Answered, TokenRead;
  }

  lemma FirstTurn(ts: seq<Turn>, s: State, step: Step)
    requires Steady(s) && Enabled(s, step) && step.Begin? && ts == []
    ensures var all := ts + [Turn(s, step)];
            Stands(all, FirstStage(step.request)) && !Logs(all)
  {
  }

  lemma AllStandStep(steps: seq<Step>, s: State, step: Step)
    requires Run(steps) == Some(s) && Enabled(s, step) && AllStand(steps, s)
    ensures AllStand(steps + [step], Next(s, step))
    ensures var all := Turns(steps + [step], step.thread);
            var t := Next(s, step);
            if Logs(all) then |t.log| == |s.log| + 1 && t.log[..|s.log|] == s.log && Made(all, t.log[|s.log|])
            else t.log == s.log && t.caches == s.caches
  {
    hide Stands, Made, Logs, Run, Turns;
    assert Steady(s);
    var ts, t := Turns(steps, step.thread), Next(s, step);
    TurnsSnoc(steps, step, s, step.thread);
    if step.Begin? {
      FirstTurn(ts, s, step);
    } else {
      TurnStands(ts, s, step);
      ActApplies(s, s.stages[step.thread], step.outcome, step.at);
      var m := Act(s, s.stages[step.thread], step.outcome, step.at);
      hide Act, Fits, Possible, Applied, Steady;
      if m.events != [] {
        assert m.events[0] in m.events;
      }
    }
    forall n: Thread
      ensures n in t.stages ==> Stands(Turns(steps + [step], n), t.stages[n])
      ensures n !in t.stages ==> Turns(steps + [step], n) == []
    {
      TurnsSnoc(steps, step, s, n);
    }
  }

  lemma {:induction false} RunStands(steps: seq<Step>)
    requires Run(steps).Some?
    ensures AllStand(steps, Run(steps).value)
  {
    if steps == [] {
    } else {
      var last := |steps| - 1;
      RunStands(steps[..last]);
      assert steps[..last] + [steps[last]] == steps;
      AllStandStep(steps[..last], Run(steps[..last]).value, steps[last]);
      hide AllStand, Turns, Next, Enabled;
    }
  }

  // ---------------------------------------------------------------- whole runs

  lemma StepTaken(steps: seq<Step>, p: nat)
    requires Run(steps).Some? && p < |steps|
    ensures Run(steps[..p]).Some? && Enabled(Run(steps[..p]).value, steps[p])
    ensures Run(steps[..p + 1]) == Some(Next(Run(steps[..p]).value, steps[p]))
    ensures Run(steps[..p + 1]).value.log <= Run(steps).value.log
  {
    hide Act, Fits, Enabled;
    Redemption.LogGrows(steps, p + 1);
    assert steps[..p + 1][..p] == steps[..p] && steps[..p + 1][p] == steps[p];
  }

  // Each step of a run adds the entry that its thread's request calls for at that turn, made of what
  // the thread's turns so far were given and saw, or adds none and leaves the caches alone.
  lemma StepLogs(steps: seq<Step>, p: nat)
    requires Run(steps).Some? && p < |steps|
    ensures Run(steps[..p]).Some? && Run(steps[..p + 1]).Some?
    ensures var ts := Turns(steps[..p + 1], steps[p].thread);
            var s, t := Run(steps[..p]).value, Run(steps[..p + 1]).value;
            if Logs(ts) then |t.log| == |s.log| + 1 && t.log[..|s.log|] == s.log && Made(ts, t.log[|s.log|])
            else t.log == s.log && t.caches == s.caches
  {
    hide AllStand, Turns, Run, Act, Enabled, Logs, Made;
    StepTaken(steps, p);
    RunStands(steps[..p]);
    assert steps[..p] + [steps[p]] == steps[..p + 1];
    AllStandStep(steps[..p], Run(steps[..p]).value, steps[p]);
  }

  // Every entry of the log was added by one step, and it tells that step's thread: which request it
  // had begun with, how often and with which outcomes it had stepped, and what it had seen.
  lemma EntryHasItsRequest(steps: seq<Step>, j: nat) returns (p: nat)
    requires Run(steps).Some? && j < |Run(steps).value.log|
    ensures p < |steps| && Run(steps[..p]).Some? && Run(steps[..p]).value.log == Run(steps).value.log[..j]
    ensures Made(Turns(steps[..p + 1], steps[p].thread), Run(steps).value.log[j])
  {
    var s;
    p, s := Redemption.EntryMade(steps, j);
    StepLogs(steps, p);
    StepTaken(steps, p);
    hide Made, Turns, Logs, Run, Act, Enabled;
  }

  // A request whose exchange failed is over: its thread takes no further step.
  lemma NothingAfterFailure(steps: seq<Step>, p: nat, q: nat)
    requires Run(steps).Some? && p < q < |steps|
    requires steps[p].Go? && steps[p].outcome == Fails
    ensures steps[q].thread != steps[p].thread
  {
    if steps[q].thread == steps[p].thread {
      var n := steps[p].thread;
      StepTaken(steps, q);
      var s := Run(steps[..q]).value;
      RunStands(steps[..q]);
      var places := TurnsExact(steps[..q], n);
      assert steps[..q][p] == steps[p] && p in places;
      var i :| 0 <= i < |places| && places[i] == p;
      hide Run, Fits, Turns;
      NoFailure(Turns(steps[..q], n), s.stages[n], i);
    }
  }

  // A thread that is not done has not failed.
  lemma NoFailure(ts: seq<Turn>, stage: Stage, i: nat)
    requires Stands(ts, stage) && !stage.Done? && i < |ts|
    ensures ts[i].step.Go? ==> ts[i].step.outcome != Fails
  {
  }

  // The turns of a thread are its steps, in order, each with the state the run had reached.
  lemma {:induction false} TurnsExact(steps: seq<Step>, n: Thread) returns (places: seq<nat>)
    requires Run(steps).Some?
    ensures |places| == |Turns(steps, n)|
    ensures forall i, j :: 0 <= i < j < |places| ==> places[i] < places[j]
    ensures forall p :: p in places <==> 0 <= p < |steps| && steps[p].thread == n
    ensures forall i :: 0 <= i < |places| ==>
              places[i] < |steps| && Run(steps[..places[i]]).Some? &&
              Turns(steps, n)[i] == Turn(Run(steps[..places[i]]).value, steps[places[i]])
  {
    if steps == [] {
      places := [];
    } else {
      var last := |steps| - 1;
      var shorter := steps[..last];
      Redemption.LogGrows(steps, last);
      var before := TurnsExact(shorter, n);
      forall i | 0 <= i < |before| ensures shorter[..before[i]] == steps[..before[i]] {
        assert before[i] in before;
      }
      places := before + if steps[last].thread == n then [last] else [];
      hide Run;
    }
  }
}
