// The relying party's two in-memory caches: pending authorizations by state value, and results
// by result id. A result's record is shared between the cache and the requests that refresh it.
module Caches {
  import opened Wrappers
  import opened Json

  const CACHE_TTL_SECONDS: real := 900.0

  type Id = string

  datatype Context = Context(claims: Json, nonce: string, createdAt: real)

  datatype Record = Record(refreshToken: Option<string>, claims: Json, createdAt: real)

  // What a token response says of the refresh token: nothing, or a value that may be null.
  datatype TokenResponse = Silent | Says(token: Option<string>)

  // The caches as values: results name records by their place among all records ever made, so
  // that a record which left the cache can still be written by a request that holds it.
  datatype CacheView = CacheView(authorizations: map<Id, Context>, results: map<Id, nat>, records: seq<Record>)

  predicate Sound(c: CacheView) { forall k :: k in c.results ==> c.results[k] < |c.records| }

  // ---------------------------------------------------------------- steps on values

  function Living(authorizations: map<Id, Context>, cutoff: real): map<Id, Context> {
    map k | k in authorizations && authorizations[k].createdAt >= cutoff :: authorizations[k]
  }

  function LivingResults(c: CacheView, cutoff: real): map<Id, nat>
    requires Sound(c)
  {
    map k | k in c.results && c.records[c.results[k]].createdAt >= cutoff :: c.results[k]
  }

  function Pruned(c: CacheView, cutoff: real): CacheView
    requires Sound(c)
  {
    c.(authorizations := Living(c.authorizations, cutoff), results := LivingResults(c, cutoff))
  }

  // Part way through a prune: the living entries and those still waiting to be popped.
  ghost function Kept(authorizations: map<Id, Context>, cutoff: real, waiting: set<Id>): map<Id, Context> {
    map k | k in authorizations && (k in waiting || authorizations[k].createdAt >= cutoff) :: authorizations[k]
  }

  ghost function KeptResults(c: CacheView, cutoff: real, waiting: set<Id>): map<Id, nat>
    requires Sound(c)
  {
    map k | k in c.results && (k in waiting || c.records[c.results[k]].createdAt >= cutoff) :: c.results[k]
  }

  function WithAuthorization(c: CacheView, state: Id, claims: Json, nonce: string, now: real): CacheView {
    c.(authorizations := c.authorizations[state := Context(claims, nonce, now)])
  }

  // AUTHORIZATION_CACHE.pop(context_id, None) if context_id else None
  function Popped(c: CacheView, state: Option<Id>): Option<Context> {
    if state.Some? && state.value != "" && state.value in c.authorizations then Some(c.authorizations[state.value])
    else None
  }

  function WithoutAuthorization(c: CacheView, state: Option<Id>): CacheView {
    if state.Some? && state.value != "" then c.(authorizations := c.authorizations - {state.value}) else c
  }

  function WithResult(c: CacheView, result: Id, token: Option<string>, claims: Json, now: real): CacheView {
    c.(results := c.results[result := |c.records|], records := c.records + [Record(token, claims, now)])
  }

  // token.get("refresh_token", cached["refresh_token"]): what a refresh is about to write.
  function Merged(token: Option<string>, response: TokenResponse): Option<string> {
    match response
    case Silent => token
    case Says(t) => t
  }

  function WithToken(c: CacheView, record: nat, token: Option<string>): CacheView
    requires record < |c.records|
  {
    c.(records := c.records[record := c.records[record].(refreshToken := token)])
  }

  function WithStamp(c: CacheView, record: nat, now: real): CacheView
    requires record < |c.records|
  {
    c.(records := c.records[record := c.records[record].(createdAt := now)])
  }

  // ---------------------------------------------------------------- in place

  // One entry of TOKEN_CACHE, an object that refreshes write to.
  class TokenRecord {
    var refreshToken: Option<string>
    const claims: Json
    var createdAt: real

    constructor (token: Option<string>, claims: Json, now: real)
      ensures View() == Record(token, claims, now)
    {
      this.refreshToken := token;
      this.claims := claims;
      this.createdAt := now;
    }

    function View(): Record
      reads this
    {
      Record(refreshToken, claims, createdAt)
    }
  }

  ghost function RecordsOf(made: seq<TokenRecord>): (rs: seq<Record>)
    reads made
    ensures |rs| == |made| && forall i :: 0 <= i < |rs| ==> rs[i] == made[i].View()
  {
    seq(|made|, i requires 0 <= i < |made| reads made => made[i].View())
  }

  // Every record was made once.
  ghost predicate Distinct(made: seq<TokenRecord>) {
    forall i, j :: 0 <= i < j < |made| ==> made[i] != made[j]
  }

  // Each cached record is the one at its key's place.
  ghost predicate Placed(tokens: map<Id, TokenRecord>, place: map<Id, nat>, made: seq<TokenRecord>) {
    tokens.Keys == place.Keys && forall k :: k in tokens ==> place[k] < |made| && made[place[k]] == tokens[k]
  }

  lemma PlacedWithout(tokens: map<Id, TokenRecord>, place: map<Id, nat>, made: seq<TokenRecord>, key: Id)
    requires Placed(tokens, place, made)
    ensures Placed(tokens - {key}, place - {key}, made)
  {
  }

  lemma KeptWithout(c: CacheView, cutoff: real, waiting: set<Id>, key: Id)
    requires Sound(c) && key in waiting && key in c.results && c.records[c.results[key]].createdAt < cutoff
    ensures KeptResults(c, cutoff, waiting) - {key} == KeptResults(c, cutoff, waiting - {key})
  {
  }

  lemma KeptNone(c: CacheView, cutoff: real)
    requires Sound(c)
    ensures KeptResults(c, cutoff, {}) == LivingResults(c, cutoff)
  {
  }

  class CacheStore {
    var authorizations: map<Id, Context>
    var tokens: map<Id, TokenRecord>
    ghost var made: seq<TokenRecord>
    ghost var place: map<Id, nat>

    ghost predicate Valid()
      reads this
    {
      Distinct(made) && Placed(tokens, place, made)
    }

    ghost function View(): (c: CacheView)
      requires Valid()
      reads this, made
      ensures Sound(c)
    {
      CacheView(authorizations, place, RecordsOf(made))
    }

    constructor ()
      ensures Valid() && View() == CacheView(map[], map[], [])
    {
      authorizations, tokens := map[], map[];
      made, place := [], map[];
    }

    // prune_caches under the lock: the expired keys of a cache are listed, then popped one by one.
    method Prune(cutoff: real)
      requires Valid()
      modifies this`authorizations, this`tokens, this`place
      ensures Valid() && View() == Pruned(old(View()), cutoff)
    {
      PruneAuthorizations(cutoff);
      PruneTokens(cutoff);
    }

    method PruneAuthorizations(cutoff: real)
      modifies this`authorizations
      ensures authorizations == Living(old(authorizations), cutoff)
    {
      var expired := set k | k in authorizations && authorizations[k].createdAt < cutoff;
      ghost var before := authorizations;
      while expired != {}
        invariant authorizations == Kept(before, cutoff, expired)
        invariant forall k :: k in expired ==> k in before && before[k].createdAt < cutoff
        decreases |expired|
      {
        var k :| k in expired;
        expired := expired - {k};
        authorizations := authorizations - {k};
      }
    }

    method PruneTokens(cutoff: real)
      requires Valid()
      modifies this`tokens, this`place
      ensures Valid()
      ensures View() == old(View()).(results := LivingResults(old(View()), cutoff))
    {
      hide Distinct;
      ghost var before := View();
      var expired := set k | k in tokens && tokens[k].createdAt < cutoff;
      assert forall k :: k in tokens ==> tokens[k].createdAt == before.records[before.results[k]].createdAt;
      ghost var all := expired;
      assert place == KeptResults(before, cutoff, expired);
      hide Placed, KeptResults;
      while expired != {}
        invariant Distinct(made) && Placed(tokens, place, made)
        invariant place == KeptResults(before, cutoff, expired)
        invariant expired <= all
        decreases |expired|
      {
        var k :| k in expired;
        PlacedWithout(tokens, place, made, k);
        KeptWithout(before, cutoff, expired, k);
        expired := expired - {k};
        tokens := tokens - {k};
        place := place - {k};
      }
      KeptNone(before, cutoff);
    }

    method StoreAuthorization(state: Id, claims: Json, nonce: string, now: real)
      requires Valid()
      modifies this`authorizations
      ensures Valid() && View() == WithAuthorization(old(View()), state, claims, nonce, now)
    {
      authorizations := authorizations[state := Context(claims, nonce, now)];
    }

    method PopAuthorization(state: Option<Id>) returns (context: Option<Context>)
      requires Valid()
      modifies this`authorizations
      ensures Valid() && View() == WithoutAuthorization(old(View()), state)
      ensures context == Popped(old(View()), state)
    {
      context := None;
      if state.Some? && state.value != "" {
        if state.value in authorizations { context := Some(authorizations[state.value]); }
        authorizations := authorizations - {state.value};
      }
    }

    method StoreResult(result: Id, token: Option<string>, claims: Json, now: real)
      requires Valid()
      modifies this`tokens, this`made, this`place
      ensures Valid() && View() == WithResult(old(View()), result, token, claims, now)
    {
      var record := new TokenRecord(token, claims, now);
      tokens := tokens[result := record];
      place := place[result := |made|];
      made := made + [record];
      assert View().records == WithResult(old(View()), result, token, claims, now).records;
    }

    // TOKEN_CACHE.get(result_id): the record itself, not a copy.
    method FindResult(result: Option<Id>) returns (record: TokenRecord?)
      requires Valid()
      ensures record == null <==> result.None? || result.value !in View().results
      ensures record != null ==> record == made[View().results[result.value]]
    {
      record := null;
      if result.Some? && result.value in tokens { record := tokens[result.value]; }
    }

    // The write of a refreshed token, outside the lock, through a record found earlier.
    method WriteToken(record: TokenRecord, ghost i: nat, token: Option<string>)
      requires Valid() && i < |made| && made[i] == record
      modifies record`refreshToken
      ensures Valid() && View() == WithToken(old(View()), i, token)
    {
      record.refreshToken := token;
      assert View().records == WithToken(old(View()), i, token).records;
    }

    method Stamp(record: TokenRecord, ghost i: nat, now: real)
      requires Valid() && i < |made| && made[i] == record
      modifies record`createdAt
      ensures Valid() && View() == WithStamp(old(View()), i, now)
    {
      record.createdAt := now;
      assert View().records == WithStamp(old(View()), i, now).records;
    }
  }
}
