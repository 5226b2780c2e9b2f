// The relying party's requests as threads that interleave one step at a time: a step is one clock
// reading, one section under the lock, one unlocked access to a shared record, or one exchange
// with the identity provider. The log records what the steps did to the caches.
module RelyingParty {
  import opened Wrappers
  import opened Json
  import opened Caches

  type Thread = nat

  // A login whose claims cannot be parsed prunes and shows the home page; a callback that carries
  // an error touches no cache.
  datatype Request =
    | Home
    | Login(claims: Json, nonce: string)
    | Callback(state: Option<Id>)
    | Refresh(result: Option<Id>)

  // What a thread does next. `popped` is the log position of the redemption it acts for, `seen`
  // the length of the log when it read the token it may write back.
  datatype Stage =
    | Reading(request: Request)
    | Sweeping(request: Request, cutoff: real)
    | Storing(claims: Json, nonce: string)
    | Popping(state: Option<Id>)
    | Redeeming(context: Context, popped: nat)
    | Opening(context: Context, popped: nat, token: Option<string>)
    | Finding(result: Option<Id>)
    | Checking(record: nat)
    | Exchanging(record: nat)
    | Merging(record: nat, response: TokenResponse)
    | Writing(record: nat, token: Option<string>, response: TokenResponse, seen: nat)
    | Stamping(record: nat)
    | Done

  // What a step gets from outside: an exchange fails or answers, a random identifier is drawn.
  datatype Outcome = Nothing | Fails | Grants(token: Option<string>) | Answers(response: TokenResponse) | Draws(id: Id)

  datatype Event =
    | Stored(state: Id, context: Context)
    | Popped(state: Id, found: Option<Context>)
    | Swept(cutoff: real, at: real)
    | Opened(result: Id, record: nat, written: Record, popped: nat)
    | Wrote(record: nat, token: Option<string>)
    | Stamped(record: nat, at: real)

  datatype State = State(caches: CacheView, stages: map<Thread, Stage>, now: real, log: seq<Event>)

  datatype Step = Begin(thread: Thread, request: Request, at: real) | Go(thread: Thread, outcome: Outcome, at: real)

  const INITIAL: State := State(CacheView(map[], map[], []), map[], 0.0, [])

  predicate HoldsRecord(stage: Stage) {
    stage.Checking? || stage.Exchanging? || stage.Merging? || stage.Writing? || stage.Stamping?
  }

  predicate Steady(s: State) {
    && Sound(s.caches)
    && forall n :: n in s.stages && HoldsRecord(s.stages[n]) ==> s.stages[n].record < |s.caches.records|
  }

  // Drawn identifiers are fresh: a state value no login stored before, a result id never used before.
  predicate FreshState(log: seq<Event>, id: Id) {
    id != "" && forall i :: 0 <= i < |log| && log[i].Stored? ==> log[i].state != id
  }

  predicate FreshResult(log: seq<Event>, id: Id) {
    forall i :: 0 <= i < |log| && log[i].Opened? ==> log[i].result != id
  }

  predicate Fits(log: seq<Event>, stage: Stage, outcome: Outcome) {
    match stage
    case Storing(_, _) => outcome.Draws? && FreshState(log, outcome.id)
    case Redeeming(_, _) => outcome.Fails? || outcome.Grants?
    case Opening(_, _, _) => outcome.Draws? && FreshResult(log, outcome.id)
    case Exchanging(_) => outcome.Fails? || outcome.Answers?
    case Done => false
    case _ => outcome.Nothing?
  }

  predicate Enabled(s: State, step: Step) {
    && step.at >= s.now
    && match step
       case Begin(n, _, _) => n !in s.stages
       case Go(n, outcome, _) => n in s.stages && Fits(s.log, s.stages[n], outcome)
  }

  function FirstStage(request: Request): Stage {
    match request
    case Callback(state) => Popping(state)
    case _ => Reading(request)
  }

  function AfterPrune(request: Request): Stage {
    match request
    case Login(claims, nonce) => Storing(claims, nonce)
    case Refresh(result) => Finding(result)
    case _ => Done
  }

  datatype Move = Move(caches: CacheView, stage: Stage, events: seq<Event>)

  function Act(s: State, stage: Stage, outcome: Outcome, at: real): (m: Move)
    requires Steady(s) && Fits(s.log, stage, outcome)
    requires HoldsRecord(stage) ==> stage.record < |s.caches.records|
  {
    var c := s.caches;
    match stage
    case Reading(request) => Move(c, Sweeping(request, at - CACHE_TTL_SECONDS), [])
    case Sweeping(request, cutoff) => Move(Pruned(c, cutoff), AfterPrune(request), [Swept(cutoff, at)])
    case Storing(claims, nonce) =>
      Move(WithAuthorization(c, outcome.id, claims, nonce, at), Done, [Stored(outcome.id, Context(claims, nonce, at))])
    case Popping(state) =>
      if state.None? || state.value == "" then Move(c, Done, []) else
        var found := Caches.Popped(c, state);
        Move(WithoutAuthorization(c, state),
             if found.Some? then Redeeming(found.value, |s.log|) else Done,
             [Event.Popped(state.value, found)])
    case Redeeming(context, popped) =>
      Move(c, if outcome.Fails? then Done else Opening(context, popped, outcome.token), [])
    case Opening(context, popped, token) =>
      Move(WithResult(c, outcome.id, token, context.claims, at), Done,
           [Opened(outcome.id, |c.records|, Record(token, context.claims, at), popped)])
    case Finding(result) =>
      Move(c, if result.Some? && result.value in c.results then Checking(c.results[result.value]) else Done, [])
    case Checking(r) => Move(c, if HasText(c.records[r].refreshToken) then Exchanging(r) else Done, [])
    case Exchanging(r) => Move(c, if outcome.Fails? then Done else Merging(r, outcome.response), [])
    case Merging(r, response) =>
      Move(c, Writing(r, Merged(c.records[r].refreshToken, response), response, |s.log|), [])
    case Writing(r, token, _, _) => Move(WithToken(c, r, token), Stamping(r), [Wrote(r, token)])
    case Stamping(r) => Move(WithStamp(c, r, at), Done, [Stamped(r, at)])
    case Done => assert false; Move(c, stage, [])
  }

  function Next(s: State, step: Step): (t: State)
    requires Steady(s) && Enabled(s, step)
    ensures Steady(t)
  {
    match step
    case Begin(n, request, at) => State(s.caches, s.stages[n := FirstStage(request)], at, s.log)
    case Go(n, outcome, at) =>
      var m := Act(s, s.stages[n], outcome, at);
      State(m.caches, s.stages[n := m.stage], at, s.log + m.events)
  }

  // Every interleaving: None when some step was not enabled where it was taken.
  function Run(steps: seq<Step>): (s: Option<State>)
    ensures s.Some? ==> Steady(s.value)
  {
    if steps == [] then Some(INITIAL) else
      var before := Run(steps[..|steps| - 1]);
      var step := steps[|steps| - 1];
      if before.Some? && Enabled(before.value, step) then Some(Next(before.value, step)) else None
  }

  // ---------------------------------------------------------------- the caches read off the log

  // Entry `i` of the log stored context `c` under `k`, no later pop took it, no later prune reached it.
  predicate Pending(log: seq<Event>, k: Id, c: Context, i: nat) {
    && i < |log| && log[i] == Stored(k, c)
    && forall j :: i < j < |log| ==> !Ends(log[j], k, c)
  }

  predicate Ends(e: Event, k: Id, c: Context) {
    (e.Popped? && e.state == k) || (e.Swept? && c.createdAt < e.cutoff)
  }

  // Record `r` from the entry that opened it and the later writes to it.
  function RecordFrom(log: seq<Event>, r: nat): Option<Record> {
    if log == [] then None else
      var before := RecordFrom(log[..|log| - 1], r);
      match log[|log| - 1]
      case Opened(_, r', written, _) => if r' == r then Some(written) else before
      case Wrote(r', token) =>
        if r' == r && before.Some? then Some(before.value.(refreshToken := token)) else before
      case Stamped(r', at) => if r' == r && before.Some? then Some(before.value.(createdAt := at)) else before
      case _ => before
  }

  predicate Stale(record: Option<Record>, cutoff: real) { record.Some? && record.value.createdAt < cutoff }

  // Entry `i` opened result `id` on record `r`, and no later prune came with a cutoff after the
  // record's creation stamp at that moment.
  predicate Held(log: seq<Event>, id: Id, r: nat, i: nat) {
    && i < |log| && log[i].Opened? && log[i].result == id && log[i].record == r
    && forall j :: i < j < |log| && log[j].Swept? ==> !Stale(RecordFrom(log[..j], r), log[j].cutoff)
  }

  lemma PendingSnoc(log: seq<Event>, e: Event, k: Id, c: Context, i: nat)
    ensures Pending(log + [e], k, c, i) <==>
            (i < |log| && Pending(log, k, c, i) && !Ends(e, k, c)) || (i == |log| && e == Stored(k, c))
  {
    var all := log + [e];
    assert all[|log|] == e && forall j :: 0 <= j < |log| ==> all[j] == log[j];
  }

  lemma HeldSnoc(log: seq<Event>, e: Event, id: Id, r: nat, i: nat)
    ensures Held(log + [e], id, r, i) <==>
            || (i < |log| && Held(log, id, r, i) && !(e.Swept? && Stale(RecordFrom(log, r), e.cutoff)))
            || (i == |log| && e.Opened? && e.result == id && e.record == r)
  {
    hide RecordFrom, Stale;
    var all := log + [e];
    assert all[|log|] == e && all[..|log|] == log;
    assert forall j :: 0 <= j < |log| ==> all[j] == log[j] && all[..j] == log[..j];
  }

  ghost predicate StillPending(log: seq<Event>, k: Id, c: Context) { exists i: nat :: Pending(log, k, c, i) }

  ghost predicate StillHeld(log: seq<Event>, id: Id, r: nat) { exists i: nat :: Held(log, id, r, i) }

  ghost predicate AuthorizationsRead(c: CacheView, log: seq<Event>) {
    forall k, v :: StillPending(log, k, v) <==> k in c.authorizations && c.authorizations[k] == v
  }

  ghost predicate RecordsRead(c: CacheView, log: seq<Event>) {
    forall r: nat :: RecordFrom(log, r) == if r < |c.records| then Some(c.records[r]) else None
  }

  ghost predicate ResultsRead(c: CacheView, log: seq<Event>) {
    forall id, r: nat :: StillHeld(log, id, r) <==> id in c.results && c.results[id] == r
  }

  // The caches after one event, and what the event needs of the caches before it.
  ghost predicate Possible(c: CacheView, log: seq<Event>, e: Event) {
    && Sound(c)
    && match e
       case Stored(k, _) => FreshState(log, k)
       case Popped(k, _) => k != ""
       case Swept(_, _) => true
       case Opened(id, r, _, _) => FreshResult(log, id) && r == |c.records|
       case Wrote(r, _) => r < |c.records|
       case Stamped(r, _) => r < |c.records|
  }

  ghost function Applied(c: CacheView, log: seq<Event>, e: Event): (d: CacheView)
    requires Possible(c, log, e)
    ensures Sound(d)
  {
    match e
    case Stored(k, v) => WithAuthorization(c, k, v.claims, v.nonce, v.createdAt)
    case Popped(k, _) => WithoutAuthorization(c, Some(k))
    case Swept(cutoff, _) => Pruned(c, cutoff)
    case Opened(id, _, w, _) => WithResult(c, id, w.refreshToken, w.claims, w.createdAt)
    case Wrote(r, token) => WithToken(c, r, token)
    case Stamped(r, at) => WithStamp(c, r, at)
  }

  lemma ActApplies(s: State, stage: Stage, outcome: Outcome, at: real)
    requires Steady(s) && Fits(s.log, stage, outcome)
    requires HoldsRecord(stage) ==> stage.record < |s.caches.records|
    ensures var m := Act(s, stage, outcome, at);
            || (m.events == [] && m.caches == s.caches)
            || (|m.events| == 1 && Possible(s.caches, s.log, m.events[0]) &&
                m.caches == Applied(s.caches, s.log, m.events[0]))
  {
    hide FreshState, FreshResult;
  }

  // ---------------------------------------------------------------- one event at a time

  lemma StillPendingSnoc(log: seq<Event>, e: Event, k: Id, c: Context)
    ensures StillPending(log + [e], k, c) <==> (StillPending(log, k, c) && !Ends(e, k, c)) || e == Stored(k, c)
  {
    forall i: nat { PendingSnoc(log, e, k, c, i); }
    if StillPending(log, k, c) {
      var i: nat :| Pending(log, k, c, i);
      PendingSnoc(log, e, k, c, i);
    }
    PendingSnoc(log, e, k, c, |log|);
  }

  lemma AuthorizationsStep(c: CacheView, log: seq<Event>, e: Event)
    requires AuthorizationsRead(c, log) && Possible(c, log, e)
    ensures AuthorizationsRead(Applied(c, log, e), log + [e])
  {
    var d := Applied(c, log, e);
    forall k, v
      ensures StillPending(log + [e], k, v) <==> k in d.authorizations && d.authorizations[k] == v
    {
      StillPendingSnoc(log, e, k, v);
      if e.Stored? { NonePending(log, e.state, v); }
      hide StillPending;
    }
  }

  lemma NonePending(log: seq<Event>, k: Id, c: Context)
    requires FreshState(log, k)
    ensures !StillPending(log, k, c)
  {
  }

  lemma RecordsStep(c: CacheView, log: seq<Event>, e: Event)
    requires RecordsRead(c, log) && Possible(c, log, e)
    ensures RecordsRead(Applied(c, log, e), log + [e])
  {
    var d := Applied(c, log, e);
    forall r: nat
      ensures RecordFrom(log + [e], r) == if r < |d.records| then Some(d.records[r]) else None
    {
      assert (log + [e])[..|log|] == log;
      assert RecordFrom(log, r) == if r < |c.records| then Some(c.records[r]) else None;
    }
  }

  lemma StillHeldSnoc(log: seq<Event>, e: Event, id: Id, r: nat)
    ensures StillHeld(log + [e], id, r) <==>
            || (StillHeld(log, id, r) && !(e.Swept? && Stale(RecordFrom(log, r), e.cutoff)))
            || (e.Opened? && e.result == id && e.record == r)
  {
    hide RecordFrom, Stale;
    forall i: nat { HeldSnoc(log, e, id, r, i); }
    if StillHeld(log, id, r) {
      var i: nat :| Held(log, id, r, i);
      HeldSnoc(log, e, id, r, i);
    }
    HeldSnoc(log, e, id, r, |log|);
  }

  lemma NoneHeld(log: seq<Event>, id: Id, r: nat)
    requires FreshResult(log, id)
    ensures !StillHeld(log, id, r)
  {
  }

  lemma ResultsStep(c: CacheView, log: seq<Event>, e: Event)
    requires RecordsRead(c, log) && ResultsRead(c, log) && Possible(c, log, e)
    ensures ResultsRead(Applied(c, log, e), log + [e])
  {
    hide StillHeld, RecordFrom;
    var d := Applied(c, log, e);
    forall id, r: nat
      ensures StillHeld(log + [e], id, r) <==> id in d.results && d.results[id] == r
    {
      StillHeldSnoc(log, e, id, r);
      if e.Opened? { NoneHeld(log, e.result, r); }
      assert StillHeld(log, id, r) <==> id in c.results && c.results[id] == r;
      assert RecordFrom(log, r) == if r < |c.records| then Some(c.records[r]) else None;
    }
  }

  // ---------------------------------------------------------------- whole runs

  // In every reachable state the log alone decides both caches: which authorizations are pending,
  // which results are held, and what each record contains.
  lemma {:induction false} CachesFromLog(steps: seq<Step>)
    requires Run(steps).Some?
    ensures AuthorizationsRead(Run(steps).value.caches, Run(steps).value.log)
    ensures RecordsRead(Run(steps).value.caches, Run(steps).value.log)
    ensures ResultsRead(Run(steps).value.caches, Run(steps).value.log)
  {
    if steps == [] {
    } else {
      var before := Run(steps[..|steps| - 1]).value;
      var step := steps[|steps| - 1];
      CachesFromLog(steps[..|steps| - 1]);
      hide AuthorizationsRead, RecordsRead, ResultsRead;
      if step.Go? {
        var m := Act(before, before.stages[step.thread], step.outcome, step.at);
        ActApplies(before, before.stages[step.thread], step.outcome, step.at);
        if m.events == [] {
          assert before.log + m.events == before.log;
        } else {
          assert m.events == [m.events[0]];
          AuthorizationsStep(before.caches, before.log, m.events[0]);
          RecordsStep(before.caches, before.log, m.events[0]);
          ResultsStep(before.caches, before.log, m.events[0]);
        }
      }
    }
  }
}
