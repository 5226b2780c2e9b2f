// What every interleaving of the relying party's requests keeps: a state value is redeemed at most
// once and with what its own login stored, a result keeps its claims, entries leave the caches only
// by expiry or by their own redemption and never return, and refreshes touch one record.
module Redemption {
  import opened Wrappers
  import opened Json
  import opened Caches
  import opened RelyingParty

  // ---------------------------------------------------------------- runs and their logs

  lemma {:induction false} LogGrows(steps: seq<Step>, p: nat)
    requires Run(steps).Some? && p <= |steps|
    ensures Run(steps[..p]).Some? && Run(steps[..p]).value.log <= Run(steps).value.log
    ensures Run(steps[..p]).value.now <= Run(steps).value.now
  {
    hide Act, Fits;
    if p == |steps| {
      assert steps[..p] == steps;
    } else {
      var shorter := steps[..|steps| - 1];
      LogGrows(shorter, p);
      assert shorter[..p] == steps[..p];
      var before, step := Run(shorter).value, steps[|steps| - 1];
      assert before.log <= Next(before, step).log;
    }
  }

  // The step that added an entry to the log, and the state it was taken in.
  ghost predicate Makes(s: State, step: Step, e: Event) {
    && Steady(s) && Enabled(s, step) && step.Go?
    && Act(s, s.stages[step.thread], step.outcome, step.at).events == [e]
  }

  lemma {:induction false} EntryMade(steps: seq<Step>, i: nat) returns (p: nat, s: State)
    requires Run(steps).Some? && i < |Run(steps).value.log|
    ensures p < |steps| && Run(steps[..p]) == Some(s) && s.log == Run(steps).value.log[..i]
    ensures Makes(s, steps[p], Run(steps).value.log[i])
  {
    var last := |steps| - 1;
    var before, step := Run(steps[..last]).value, steps[last];
    var log := Run(steps).value.log;
    if i < |before.log| {
      p, s := EntryMade(steps[..last], i);
      assert steps[..last][..p] == steps[..p];
    } else {
      p, s := last, before;
      if step.Go? {
        ActApplies(before, before.stages[step.thread], step.outcome, step.at);
        hide Act;
        var m := Act(before, before.stages[step.thread], step.outcome, step.at);
        assert log == before.log + m.events && |m.events| == 1;
        assert m.events == [log[i]];
      }
    }
  }

  lemma EntryPossible(s: State, step: Step, e: Event)
    requires Makes(s, step, e)
    ensures Possible(s.caches, s.log, e)
  {
    ActApplies(s, s.stages[step.thread], step.outcome, step.at);
    hide Act, Possible;
  }

  lemma EntryFresh(steps: seq<Step>, j: nat)
    requires Run(steps).Some? && j < |Run(steps).value.log|
    ensures var log := Run(steps).value.log;
            && (log[j].Stored? ==> FreshState(log[..j], log[j].state))
            && (log[j].Opened? ==> FreshResult(log[..j], log[j].result) && RecordFrom(log[..j], log[j].record).None?)
            && (log[j].Popped? ==> log[j].state != "")
  {
    var p, s := EntryMade(steps, j);
    EntryPossible(s, steps[p], Run(steps).value.log[j]);
    CachesFromLog(steps[..p]);
    hide AuthorizationsRead, ResultsRead, Makes, RecordFrom, FreshState, FreshResult;
  }

  // ---------------------------------------------------------------- redemption

  lemma StoredOnce(steps: seq<Step>, i: nat, j: nat)
    requires Run(steps).Some? && i < j < |Run(steps).value.log|
    ensures var log := Run(steps).value.log;
            log[i].Stored? && log[j].Stored? ==> log[i].state != log[j].state
  {
    hide RecordFrom, FreshResult;
    EntryFresh(steps, j);
    var log := Run(steps).value.log;
    assert log[..j][i] == log[i];
  }

  // A callback finds the context exactly when the login that drew its state stored that context,
  // nothing redeemed the state since, and no prune since then had a cutoff past its creation.
  lemma FoundIffPending(steps: seq<Step>, j: nat, v: Context)
    requires Run(steps).Some? && j < |Run(steps).value.log| && Run(steps).value.log[j].Popped?
    ensures var log := Run(steps).value.log;
            log[j].found == Some(v) <==> StillPending(log[..j], log[j].state, v)
  {
    var p, s := EntryMade(steps, j);
    CachesFromLog(steps[..p]);
    PopRead(s, steps[p], Run(steps).value.log[j]);
    hide RecordsRead, ResultsRead, Makes, StillPending;
  }

  lemma PopRead(s: State, step: Step, e: Event)
    requires Makes(s, step, e) && e.Popped?
    ensures e.found == if e.state in s.caches.authorizations then Some(s.caches.authorizations[e.state]) else None
    ensures s.stages[step.thread] == Popping(Some(e.state)) && e.state != ""
  {
    hide FreshState, FreshResult;
  }

  // Each state value is redeemed at most once.
  lemma RedeemedOnce(steps: seq<Step>, i: nat, j: nat)
    requires Run(steps).Some? && i < j < |Run(steps).value.log|
    ensures var log := Run(steps).value.log;
            log[i].Popped? && log[i].found.Some? && log[j].Popped? && log[j].found.Some? ==>
              log[i].state != log[j].state
  {
    var log := Run(steps).value.log;
    if log[i].Popped? && log[i].found.Some? && log[j].Popped? && log[j].found.Some? && log[i].state == log[j].state {
      FoundIffPending(steps, i, log[i].found.value);
      FoundIffPending(steps, j, log[j].found.value);
      var a: nat :| Pending(log[..i], log[i].state, log[i].found.value, a);
      var b: nat :| Pending(log[..j], log[j].state, log[j].found.value, b);
      assert log[..j][i] == log[i] && Ends(log[..j][i], log[j].state, log[j].found.value);
      assert i <= b;
      assert log[..i][a] == log[a] && log[..j][b] == log[b];
      StoredOnce(steps, a, b);
      assert false;
    }
  }

  // ---------------------------------------------------------------- from login to result

  ghost predicate Consumed(log: seq<Event>, popped: nat) {
    exists i :: 0 <= i < |log| && log[i].Opened? && log[i].popped == popped
  }

  predicate FromPop(log: seq<Event>, popped: nat, context: Context) {
    popped < |log| && log[popped].Popped? && log[popped].found == Some(context)
  }

  predicate HoldsContext(stage: Stage) { stage.Redeeming? || stage.Opening? }

  // A thread that holds a context took it in a redemption that no result used.
  ghost predicate Unused(s: State) {
    && (forall i :: 0 <= i < |s.log| && s.log[i].Opened? ==> s.log[i].popped < i)
    && (forall n :: n in s.stages && HoldsContext(s.stages[n]) ==>
          FromPop(s.log, s.stages[n].popped, s.stages[n].context) && !Consumed(s.log, s.stages[n].popped))
  }

  // No two threads act for the same redemption.
  ghost predicate Apart(s: State) {
    forall n, m ::
      n in s.stages && m in s.stages && n != m && HoldsContext(s.stages[n]) && HoldsContext(s.stages[m]) ==>
        s.stages[n].popped != s.stages[m].popped
  }

  lemma ConsumedSnoc(log: seq<Event>, e: Event, popped: nat)
    ensures Consumed(log + [e], popped) <==> Consumed(log, popped) || (e.Opened? && e.popped == popped)
  {
    var all := log + [e];
    assert all[|log|] == e && forall j :: 0 <= j < |log| ==> all[j] == log[j];
    if Consumed(log, popped) {
      var i :| 0 <= i < |log| && log[i].Opened? && log[i].popped == popped;
      assert all[i].popped == popped;
    }
  }

  // The context side of one step: who holds a context after it.
  lemma ContextMoves(s: State, step: Step)
    requires Steady(s) && Enabled(s, step) && step.Go?
    ensures var stage := s.stages[step.thread];
            var m := Act(s, stage, step.outcome, step.at);
            && (HoldsContext(m.stage) ==>
                  || (HoldsContext(stage) && m.events == [] &&
                      m.stage.popped == stage.popped && m.stage.context == stage.context)
                  || (m.stage.popped == |s.log| && |m.events| == 1 && m.events[0].Popped? &&
                      m.events[0].found == Some(m.stage.context)))
            && (forall e :: e in m.events && e.Opened? ==>
                  stage.Opening? && m.events == [e] &&
                  e.popped == stage.popped && e.written.claims == stage.context.claims)
  {
    hide FreshState, FreshResult;
  }

  lemma ApartStep(s: State, step: Step)
    requires Steady(s) && Enabled(s, step) && Unused(s) && Apart(s)
    ensures Apart(Next(s, step))
  {
    hide FreshState, FreshResult;
    if step.Go? {
      ContextMoves(s, step);
      hide Act, Consumed;
    }
  }

  lemma UnusedStep(s: State, step: Step)
    requires Steady(s) && Enabled(s, step) && Unused(s) && Apart(s)
    ensures Unused(Next(s, step))
  {
    hide FreshState, FreshResult;
    if step.Go? {
      var stage := s.stages[step.thread];
      ContextMoves(s, step);
      ActApplies(s, stage, step.outcome, step.at);
      var m := Act(s, stage, step.outcome, step.at);
      hide Act, Possible, Applied, Steady;
      if m.events == [] {
        assert s.log + m.events == s.log;
      } else {
        assert m.events == [m.events[0]] && m.events[0] in m.events;
        UnusedEntry(s, step, m.events[0]);
      }
    }
  }

  lemma UnusedEntry(s: State, step: Step, e: Event)
    requires Steady(s) && Enabled(s, step) && Unused(s) && Apart(s) && Makes(s, step, e)
    ensures Unused(Next(s, step))
  {
    hide FreshState, FreshResult;
    ContextMoves(s, step);
    var m := Act(s, s.stages[step.thread], step.outcome, step.at);
    assert m.events == [e] && e in m.events;
    var t := Next(s, step);
    assert t.log == s.log + [e] && t.stages == s.stages[step.thread := m.stage];
    hide Act;
    forall n | n in t.stages && HoldsContext(t.stages[n])
      ensures FromPop(t.log, t.stages[n].popped, t.stages[n].context) && !Consumed(t.log, t.stages[n].popped)
    {
      ConsumedSnoc(s.log, e, t.stages[n].popped);
      if n == step.thread {
        assert FromPop(t.log, m.stage.popped, m.stage.context);
      } else {
        assert FromPop(s.log, s.stages[n].popped, s.stages[n].context);
      }
    }
  }

  lemma {:induction false} ContextsClaimed(steps: seq<Step>)
    requires Run(steps).Some?
    ensures Unused(Run(steps).value) && Apart(Run(steps).value)
  {
    if steps == [] {
    } else {
      ContextsClaimed(steps[..|steps| - 1]);
      UnusedStep(Run(steps[..|steps| - 1]).value, steps[|steps| - 1]);
      ApartStep(Run(steps[..|steps| - 1]).value, steps[|steps| - 1]);
      hide Unused, Apart, Next;
    }
  }

  // Every result comes from one redemption, which found what one login stored under that state;
  // the result keeps exactly those claims.
  lemma ResultHasItsLogin(steps: seq<Step>, j: nat) returns (popped: nat, stored: nat)
    requires Run(steps).Some? && j < |Run(steps).value.log| && Run(steps).value.log[j].Opened?
    ensures var log := Run(steps).value.log;
            && stored < popped < j && popped == log[j].popped && log[popped].Popped? && log[stored].Stored?
            && log[popped].state == log[stored].state && log[popped].found == Some(log[stored].context)
            && log[j].written.claims == log[stored].context.claims
  {
    var log := Run(steps).value.log;
    var p, s := EntryMade(steps, j);
    ContextsClaimed(steps[..p]);
    ContextMoves(s, steps[p]);
    hide Act, Next, Run, Consumed, FreshState, FreshResult;
    popped := log[j].popped;
    var stage := s.stages[steps[p].thread];
    assert log[j] in [log[j]] && stage.Opening?;
    assert FromPop(s.log, popped, stage.context) && s.log[popped] == log[popped];
    FoundIffPending(steps, popped, stage.context);
    stored :| Pending(log[..popped], log[popped].state, stage.context, stored);
    assert log[..popped][stored] == log[stored];
  }

  // Two results come from different redemptions, of different state values.
  lemma ResultsApart(steps: seq<Step>, i: nat, j: nat)
    requires Run(steps).Some? && i < j < |Run(steps).value.log|
    requires Run(steps).value.log[i].Opened? && Run(steps).value.log[j].Opened?
    ensures var log := Run(steps).value.log;
            && log[i].result != log[j].result && log[i].record != log[j].record && log[i].popped != log[j].popped
            && log[i].popped < |log| && log[j].popped < |log|
            && log[log[i].popped].Popped? && log[log[j].popped].Popped?
            && log[log[i].popped].state != log[log[j].popped].state
  {
    var log := Run(steps).value.log;
    var a, _ := ResultHasItsLogin(steps, i);
    var b, _ := ResultHasItsLogin(steps, j);
    OpenedOnce(steps, i, j);
    var p, s := EntryMade(steps, j);
    ContextsClaimed(steps[..p]);
    ContextMoves(s, steps[p]);
    hide Act, Next, Run, FreshState, FreshResult, FromPop;
    assert log[j] in [log[j]];
    assert s.log[i] == log[i];
    assert a != b;
    if a < b { RedeemedOnce(steps, a, b); } else { RedeemedOnce(steps, b, a); }
  }

  lemma OpenedOnce(steps: seq<Step>, i: nat, j: nat)
    requires Run(steps).Some? && i < j < |Run(steps).value.log|
    ensures var log := Run(steps).value.log;
            log[i].Opened? && log[j].Opened? ==> log[i].result != log[j].result && log[i].record != log[j].record
  {
    var log := Run(steps).value.log;
    EntryFresh(steps, j);
    assert log[..j][i] == log[i];
    if log[i].Opened? {
      OpenedRecord(log, i);
      assert log[..j][..i + 1] == log[..i + 1];
      RecordPersists(log[..j], i + 1, log[i].record);
    }
  }

  lemma {:induction false} RecordPersists(log: seq<Event>, n: nat, r: nat)
    requires n <= |log| && RecordFrom(log[..n], r).Some?
    ensures RecordFrom(log, r).Some?
  {
    if n == |log| {
      assert log[..n] == log;
    } else {
      var shorter := log[..|log| - 1];
      assert shorter[..n] == log[..n];
      RecordPersists(shorter, n, r);
    }
  }

  lemma OpenedRecord(log: seq<Event>, i: nat)
    requires i < |log| && log[i].Opened?
    ensures RecordFrom(log[..i + 1], log[i].record) == Some(log[i].written)
  {
    var shorter := log[..i + 1];
    assert shorter[|shorter| - 1] == log[i];
  }

  // A record keeps its claims through every later write and stamp.
  lemma {:induction false} RecordStays(log: seq<Event>, n: nat, r: nat)
    requires n <= |log| && RecordFrom(log[..n], r).Some?
    requires forall i :: n <= i < |log| && log[i].Opened? ==> log[i].record != r
    ensures RecordFrom(log, r).Some? && RecordFrom(log, r).value.claims == RecordFrom(log[..n], r).value.claims
  {
    if n == |log| {
      assert log[..n] == log;
    } else {
      var shorter := log[..|log| - 1];
      assert shorter[..n] == log[..n];
      RecordStays(shorter, n, r);
    }
  }

  // ---------------------------------------------------------------- results over a run

  // While a result stays in the cache it names the same record, with the same claims, whatever
  // refreshes and prunes come between.
  lemma ClaimsFixed(steps: seq<Step>, p: nat, id: Id)
    requires Run(steps).Some? && p <= |steps| && Run(steps[..p]).Some?
    requires id in Run(steps[..p]).value.caches.results && id in Run(steps).value.caches.results
    ensures var c, d := Run(steps[..p]).value.caches, Run(steps).value.caches;
            && c.results[id] == d.results[id]
            && c.records[c.results[id]].claims == d.records[d.results[id]].claims
  {
    var c, d := Run(steps[..p]).value.caches, Run(steps).value.caches;
    var early, log := Run(steps[..p]).value.log, Run(steps).value.log;
    LogGrows(steps, p);
    CachesFromLog(steps[..p]);
    CachesFromLog(steps);
    assert StillHeld(early, id, c.results[id]) && StillHeld(log, id, d.results[id]);
    assert RecordFrom(early, c.results[id]) == Some(c.records[c.results[id]]);
    assert RecordFrom(log, d.results[id]) == Some(d.records[d.results[id]]);
    hide Run, AuthorizationsRead, RecordsRead, ResultsRead;
    SameHolding(steps, early, id, c.results[id], d.results[id]);
  }

  lemma SameHolding(steps: seq<Step>, early: seq<Event>, id: Id, r: nat, r': nat)
    requires Run(steps).Some? && early <= Run(steps).value.log
    requires StillHeld(early, id, r) && StillHeld(Run(steps).value.log, id, r')
    ensures r == r'
    ensures RecordFrom(early, r).Some? && RecordFrom(Run(steps).value.log, r).Some?
    ensures RecordFrom(early, r).value.claims == RecordFrom(Run(steps).value.log, r).value.claims
  {
    var log := Run(steps).value.log;
    var i: nat :| Held(early, id, r, i);
    var i': nat :| Held(log, id, r', i');
    hide Run, Held;
    assert log[i] == early[i];
    if i < i' { OpenedOnce(steps, i, i'); }
    if i' < i { OpenedOnce(steps, i', i); }
    OpenedRecord(log, i);
    forall j | i + 1 <= j < |log| && log[j].Opened?
      ensures log[j].record != r
    {
      OpenedOnce(steps, i, j);
    }
    RecordStays(log, i + 1, r);
    assert early[..i + 1] == log[..i + 1];
    assert forall j :: i + 1 <= j < |early| ==> early[j] == log[j];
    RecordStays(early, i + 1, r);
  }

  // A result that left the cache never returns.
  lemma ResultNeverReturns(steps: seq<Step>, p: nat, q: nat, id: Id)
    requires Run(steps).Some? && p <= q <= |steps| && Run(steps[..p]).Some? && Run(steps[..q]).Some?
    requires id in Run(steps[..p]).value.caches.results && id !in Run(steps[..q]).value.caches.results
    ensures id !in Run(steps).value.caches.results
  {
    LogGrows(steps, p);
    LogGrows(steps, q);
    LogGrows(steps[..q], p);
    assert steps[..q][..p] == steps[..p];
    CachesFromLog(steps[..p]);
    CachesFromLog(steps[..q]);
    CachesFromLog(steps);
    var early, middle, log := Run(steps[..p]).value.log, Run(steps[..q]).value.log, Run(steps).value.log;
    var c, d := Run(steps[..p]).value.caches, Run(steps).value.caches;
    assert !StillHeld(middle, id, c.results[id]);
    if id in d.results {
      assert StillHeld(early, id, c.results[id]) && StillHeld(log, id, d.results[id]);
      SameHolding(steps, early, id, c.results[id], d.results[id]);
      HeldBefore(steps, early, middle, id, c.results[id]);
    }
  }

  lemma HeldBefore(steps: seq<Step>, early: seq<Event>, middle: seq<Event>, id: Id, r: nat)
    requires Run(steps).Some? && early <= middle <= Run(steps).value.log
    requires StillHeld(early, id, r) && StillHeld(Run(steps).value.log, id, r)
    ensures StillHeld(middle, id, r)
  {
    var log := Run(steps).value.log;
    var i: nat :| Held(early, id, r, i);
    var i': nat :| Held(log, id, r, i');
    assert log[i] == early[i];
    hide Run, RecordFrom, Stale;
    if i < i' { OpenedOnce(steps, i, i'); }
    if i' < i { OpenedOnce(steps, i', i); }
    assert forall j :: 0 <= j < |middle| ==> middle[j] == log[j] && middle[..j] == log[..j];
    assert Held(middle, id, r, i);
  }

  // Nor does a state value that was redeemed or pruned.
  lemma StateNeverReturns(steps: seq<Step>, p: nat, q: nat, k: Id)
    requires Run(steps).Some? && p <= q <= |steps| && Run(steps[..p]).Some? && Run(steps[..q]).Some?
    requires k in Run(steps[..p]).value.caches.authorizations && k !in Run(steps[..q]).value.caches.authorizations
    ensures k !in Run(steps).value.caches.authorizations
  {
    LogGrows(steps, p);
    LogGrows(steps, q);
    LogGrows(steps[..q], p);
    assert steps[..q][..p] == steps[..p];
    CachesFromLog(steps[..p]);
    CachesFromLog(steps[..q]);
    CachesFromLog(steps);
    var early, middle, log := Run(steps[..p]).value.log, Run(steps[..q]).value.log, Run(steps).value.log;
    var c, d := Run(steps[..p]).value.caches, Run(steps).value.caches;
    assert forall v :: !StillPending(middle, k, v);
    if k in d.authorizations {
      assert StillPending(early, k, c.authorizations[k]) && StillPending(log, k, d.authorizations[k]);
      PendingBefore(steps, early, middle, k, c.authorizations[k], d.authorizations[k]);
    }
  }

  lemma PendingBefore(steps: seq<Step>, early: seq<Event>, middle: seq<Event>, k: Id, v: Context, w: Context)
    requires Run(steps).Some? && early <= middle <= Run(steps).value.log
    requires StillPending(early, k, v) && StillPending(Run(steps).value.log, k, w)
    ensures StillPending(middle, k, w)
  {
    var log := Run(steps).value.log;
    var i: nat :| Pending(early, k, v, i);
    var i': nat :| Pending(log, k, w, i');
    assert log[i] == early[i];
    hide Run, Ends;
    if i < i' { StoredOnce(steps, i, i'); }
    if i' < i { StoredOnce(steps, i', i); }
    assert forall j :: 0 <= j < |middle| ==> middle[j] == log[j];
    assert Pending(middle, k, w, i);
  }

  // ---------------------------------------------------------------- expiry

  // Every prune, waiting or done, works with a cutoff at least fifteen minutes in the past.
  ghost predicate Timely(s: State) {
    forall n :: n in s.stages && s.stages[n].Sweeping? ==> s.stages[n].cutoff + CACHE_TTL_SECONDS <= s.now
  }

  lemma {:induction false} CutoffsTimely(steps: seq<Step>)
    requires Run(steps).Some?
    ensures Timely(Run(steps).value)
  {
    if steps == [] {
    } else {
      CutoffsTimely(steps[..|steps| - 1]);
      hide FreshState, FreshResult;
    }
  }

  // An entry leaves a cache in one step only if that step is a prune more than 900 seconds after
  // the entry's latest creation stamp, or the redemption of that very state; the prune leaves
  // nothing older than its own cutoff; an entry that stays names the same context or record.
  lemma EntriesLeaveByExpiry(steps: seq<Step>, step: Step)
    requires Run(steps).Some? && Enabled(Run(steps).value, step)
    ensures var s, t := Run(steps).value, Next(Run(steps).value, step);
            && (forall k :: k in s.caches.authorizations ==>
                  if k in t.caches.authorizations then t.caches.authorizations[k] == s.caches.authorizations[k]
                  else
                    || (step.Go? && s.stages[step.thread] == Popping(Some(k)))
                    || (step.Go? && s.stages[step.thread].Sweeping? &&
                        step.at - s.caches.authorizations[k].createdAt > 900.0))
            && (forall id :: id in s.caches.results ==>
                  if id in t.caches.results then t.caches.results[id] == s.caches.results[id]
                  else step.Go? && s.stages[step.thread].Sweeping? &&
                       step.at - s.caches.records[s.caches.results[id]].createdAt > 900.0)
            && (step.Go? && s.stages[step.thread].Sweeping? ==>
                  (forall k :: k in t.caches.authorizations ==>
                     t.caches.authorizations[k].createdAt >= s.stages[step.thread].cutoff) &&
                  (forall id :: id in t.caches.results ==>
                     t.caches.records[t.caches.results[id]].createdAt >= s.stages[step.thread].cutoff))
  {
    CutoffsTimely(steps);
    CachesFromLog(steps);
    var s := Run(steps).value;
    if step.Go? && s.stages[step.thread].Storing? {
      NothingPending(s.caches, s.log, step.outcome.id);
    }
    if step.Go? && s.stages[step.thread].Opening? {
      NothingHeld(s.caches, s.log, step.outcome.id);
    }
    hide Run, FreshState, FreshResult, AuthorizationsRead, RecordsRead, ResultsRead;
  }

  lemma NothingPending(c: CacheView, log: seq<Event>, k: Id)
    requires AuthorizationsRead(c, log) && FreshState(log, k)
    ensures k !in c.authorizations
  {
    if k in c.authorizations {
      assert StillPending(log, k, c.authorizations[k]);
      NonePending(log, k, c.authorizations[k]);
    }
  }

  lemma NothingHeld(c: CacheView, log: seq<Event>, id: Id)
    requires ResultsRead(c, log) && FreshResult(log, id)
    ensures id !in c.results
  {
    if id in c.results {
      assert StillHeld(log, id, c.results[id]);
      NoneHeld(log, id, c.results[id]);
    }
  }

  // ---------------------------------------------------------------- refresh

  // No two results share a record, so the writes of a refresh reach one result at most.
  lemma RecordsUnshared(steps: seq<Step>, id: Id, id': Id)
    requires Run(steps).Some?
    requires id in Run(steps).value.caches.results && id' in Run(steps).value.caches.results && id != id'
    ensures Run(steps).value.caches.results[id] != Run(steps).value.caches.results[id']
  {
    var c, log := Run(steps).value.caches, Run(steps).value.log;
    CachesFromLog(steps);
    assert StillHeld(log, id, c.results[id]) && StillHeld(log, id', c.results[id']);
    var i: nat :| Held(log, id, c.results[id], i);
    var i': nat :| Held(log, id', c.results[id'], i');
    hide Run, AuthorizationsRead, RecordsRead, ResultsRead;
    if i < i' { OpenedOnce(steps, i, i'); } else { OpenedOnce(steps, i', i); }
  }

  // Every step but a prune, a login or a callback leaves both tables alone, and whatever it does
  // to records it does to the one its thread holds: every other result reads the same.
  lemma RefreshTouchesOne(steps: seq<Step>, step: Step)
    requires Run(steps).Some? && Enabled(Run(steps).value, step) && step.Go?
    requires HoldsRecord(Run(steps).value.stages[step.thread])
    ensures var s, t := Run(steps).value, Next(Run(steps).value, step);
            && t.caches.authorizations == s.caches.authorizations && t.caches.results == s.caches.results
            && (forall id ::
                  id in s.caches.results &&
                  t.caches.records[t.caches.results[id]] != s.caches.records[s.caches.results[id]] ==>
                    s.caches.results[id] == s.stages[step.thread].record)
            && (forall id, id' :: id in s.caches.results && id' in s.caches.results && id != id' ==>
                  || t.caches.records[t.caches.results[id]] == s.caches.records[s.caches.results[id]]
                  || t.caches.records[t.caches.results[id']] == s.caches.records[s.caches.results[id']])
  {
    var s, t := Run(steps).value, Next(Run(steps).value, step);
    hide FreshState, FreshResult, Run;
    forall id, id' | id in s.caches.results && id' in s.caches.results && id != id'
      ensures s.caches.results[id] != s.caches.results[id']
    {
      RecordsUnshared(steps, id, id');
    }
  }

  // ---------------------------------------------------------------- refresh tokens

  function TokenFrom(log: seq<Event>, r: nat): Option<string> {
    var record := RecordFrom(log, r);
    if record.Some? then record.value.refreshToken else None
  }

  // Entry `j` is the last write to a record at or after position `n` of the log.
  ghost predicate LastWrite(log: seq<Event>, n: nat, r: nat, j: nat) {
    && n <= j < |log| && log[j].Wrote? && log[j].record == r
    && forall i :: j < i < |log| && log[i].Wrote? ==> log[i].record != r
  }

  ghost predicate Rewritten(log: seq<Event>, n: nat, r: nat) { exists j: nat :: LastWrite(log, n, r, j) }

  // A record's token is that of the last write since some moment, or else the one it had then.
  lemma {:induction false} TokenSince(log: seq<Event>, n: nat, r: nat)
    requires n <= |log| && RecordFrom(log[..n], r).Some?
    requires forall i :: n <= i < |log| && log[i].Opened? ==> log[i].record != r
    ensures forall j: nat :: LastWrite(log, n, r, j) ==> TokenFrom(log, r) == log[j].token
    ensures !Rewritten(log, n, r) ==> TokenFrom(log, r) == TokenFrom(log[..n], r)
  {
    if n == |log| {
      assert log[..n] == log;
    } else {
      var last := |log| - 1;
      var shorter := log[..last];
      assert shorter[..n] == log[..n];
      TokenSince(shorter, n, r);
      RecordPersists(shorter, n, r);
      if log[last].Wrote? && log[last].record == r {
        assert LastWrite(log, n, r, last);
      } else {
        forall j: nat ensures LastWrite(log, n, r, j) <==> LastWrite(shorter, n, r, j) {
          assert forall i :: 0 <= i < last ==> shorter[i] == log[i];
        }
        if Rewritten(shorter, n, r) {
          var j: nat :| LastWrite(shorter, n, r, j);
          assert LastWrite(log, n, r, j);
        }
      }
    }
  }

  // A thread about to write a token back read it off an existing record when the log had `seen` entries.
  ghost predicate ReadBack(s: State) {
    forall n :: n in s.stages && s.stages[n].Writing? ==> ReadAt(s.log, s.stages[n])
  }

  ghost predicate ReadAt(log: seq<Event>, stage: Stage)
    requires stage.Writing?
  {
    && stage.seen <= |log| && RecordFrom(log[..stage.seen], stage.record).Some?
    && stage.token == Merged(TokenFrom(log[..stage.seen], stage.record), stage.response)
  }

  lemma {:induction false} TokensReadBack(steps: seq<Step>)
    requires Run(steps).Some?
    ensures ReadBack(Run(steps).value)
  {
    if steps == [] {
    } else {
      var s, step := Run(steps[..|steps| - 1]).value, steps[|steps| - 1];
      TokensReadBack(steps[..|steps| - 1]);
      CachesFromLog(steps[..|steps| - 1]);
      ReadBackStep(s, step);
      hide Run, Next, ReadBack;
    }
  }

  lemma ReadBackStep(s: State, step: Step)
    requires Steady(s) && Enabled(s, step) && ReadBack(s) && RecordsRead(s.caches, s.log)
    ensures ReadBack(Next(s, step))
  {
    hide FreshState, FreshResult, RecordFrom;
    var t := Next(s, step);
    assert s.log <= t.log;
    assert forall n: nat :: n <= |s.log| ==> t.log[..n] == s.log[..n];
    if step.Go? && s.stages[step.thread].Merging? {
      assert t.log == s.log && t.log[..|s.log|] == s.log;
      assert RecordFrom(s.log, s.stages[step.thread].record) == Some(s.caches.records[s.stages[step.thread].record]);
    }
  }

  // The unlocked read and write back of a refresh token. A response that names a token is written
  // whatever happened meanwhile. A response that names none changes the record's token exactly when
  // some refresh wrote the record since this one read it and the last such write put a different
  // token there: the older token then replaces the newer one.
  lemma WriteBack(steps: seq<Step>, step: Step)
    requires Run(steps).Some? && Enabled(Run(steps).value, step) && step.Go?
    requires Run(steps).value.stages[step.thread].Writing?
    ensures var s, t := Run(steps).value, Next(Run(steps).value, step);
            var stage := s.stages[step.thread];
            var before := s.caches.records[stage.record].refreshToken;
            var after := t.caches.records[stage.record].refreshToken;
            && after == stage.token && ReadAt(s.log, stage)
            && (stage.response.Says? ==> after == stage.response.token)
            && (stage.response.Silent? ==>
                  (after != before <==>
                   exists j: nat :: LastWrite(s.log, stage.seen, stage.record, j) && s.log[j].token != stage.token))
  {
    var s := Run(steps).value;
    var stage := s.stages[step.thread];
    TokensReadBack(steps);
    CachesFromLog(steps);
    NotReopened(steps, stage.seen, stage.record);
    assert RecordFrom(s.log, stage.record) == Some(s.caches.records[stage.record]);
    hide Run, RecordFrom, AuthorizationsRead, RecordsRead, ResultsRead, FreshState, FreshResult;
    TokenSince(s.log, stage.seen, stage.record);
    hide LastWrite;
  }

  lemma NotReopened(steps: seq<Step>, n: nat, r: nat)
    requires Run(steps).Some? && n <= |Run(steps).value.log| && RecordFrom(Run(steps).value.log[..n], r).Some?
    ensures var log := Run(steps).value.log;
            forall i :: n <= i < |log| && log[i].Opened? ==> log[i].record != r
  {
    var log := Run(steps).value.log;
    forall i | n <= i < |log| && log[i].Opened?
      ensures log[i].record != r
    {
      EntryFresh(steps, i);
      assert log[..i][..n] == log[..n];
      RecordPersists(log[..i], n, r);
    }
  }
}
