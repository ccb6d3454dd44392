/** The per-key token cache with its self-rescheduling refresh tasks, as a
    sequential state machine. Every network call is an input: the transitions
    take the record the fetch produced (`None` for a failed fetch). */
module Provider {
  import opened Options
  import opened JavaInt
  import opened Tokens
  import opened Fetcher

  /** Seconds by which a refresh precedes the declared expiry. */
  const ClockSkew: int32 := 60
  /** Seconds before a failed fetch is retried. */
  const DelayOnFail: int32 := 10

  /** A pending one-shot refresh: the credentials of the flow that armed it
      and the delay, in seconds, it was scheduled with. */
  datatype Task = Task(creds: Credentials, delay: int32) {
    function Key(): string { creds.Key() }
  }

  datatype Origin = CacheMiss | Refresh

  /** One network exchange: who issued it, the credentials the issuing call
      or task captured (and so the key it was for), the request sent, and the
      record it produced. */
  datatype Exchange = Exchange(origin: Origin, creds: Credentials, request: Request, result: Option<CSPTokens>) {
    function Key(): string { creds.Key() }
  }

  /** The provider: the cache (which never stores `null`), the refresh tasks
      waiting in the scheduler, and the history of exchanges so far. */
  datatype State = State(cache: map<string, CSPTokens>, tasks: seq<Task>, log: seq<Exchange>)

  /** What `getToken` returns, with the state it leaves behind. */
  datatype Answer = Answer(state: State, tokens: Option<CSPTokens>)

  const Initial: State := State(map[], [], [])

  // ---------------------------------------------------------------------------
  // Delay rule and scheduling

  /** The delay armed after a fetch: `delayOnFail` after a failure, otherwise
      `expiresIn - clockSkew` computed in Java `int` arithmetic. */
  function NextDelay(fetched: Option<CSPTokens>): (d: int32)
    ensures fetched.None? ==> d == DelayOnFail
    ensures fetched.Some? && fetched.value.expiresIn as int >= MinInt + ClockSkew as int ==>
              d as int == fetched.value.expiresIn as int - ClockSkew as int
    ensures fetched.Some? && fetched.value.expiresIn as int < MinInt + ClockSkew as int ==>
              d as int == fetched.value.expiresIn as int - ClockSkew as int + Modulus
  {
    match fetched
    case None => DelayOnFail
    case Some(t) => Sub(t.expiresIn, ClockSkew)
  }

  /** Seconds until a task armed with `delay` runs: the scheduler runs a task
      with a zero or negative delay at once. */
  function SecondsUntilRun(delay: int32): (secs: nat)
    ensures secs == 0 <==> delay <= 0
    ensures delay > 0 ==> secs == delay as int
    ensures secs <= MaxInt
  {
    if delay <= 0 then 0 else delay as int
  }

  /** The refresh timing the provider promises: retry after 10 s on failure;
      on success, refresh 60 s before the declared expiry, and at once when
      the token lives 60 s or less. */
  lemma DelayRule(fetched: Option<CSPTokens>)
    ensures fetched.None? ==> SecondsUntilRun(NextDelay(fetched)) == 10
    ensures fetched.Some? && fetched.value.expiresIn > 60 ==>
              SecondsUntilRun(NextDelay(fetched)) == fetched.value.expiresIn as int - 60 > 0
    ensures fetched.Some? && MinInt + 60 <= fetched.value.expiresIn as int <= 60 ==>
              NextDelay(fetched) <= 0 && SecondsUntilRun(NextDelay(fetched)) == 0
  {
  }

  /** A declared lifetime so negative that `expiresIn - 60` overflows wraps
      round to a delay of about 68 years instead of an immediate refresh. */
  lemma DelayWrapsOnHugeNegativeExpiry(t: CSPTokens)
    requires t.expiresIn as int < MinInt + 60
    ensures NextDelay(Some(t)) as int > MaxInt - 60
    ensures SecondsUntilRun(NextDelay(Some(t))) > 0x7fff_0000
  {
  }

  // ---------------------------------------------------------------------------
  // Counting over the task queue and the exchange log

  /** The number of pending tasks that refresh key `k`. */
  function TasksFor(ts: seq<Task>, k: string): nat {
    if |ts| == 0 then 0
    else TasksFor(ts[..|ts| - 1], k) + (if ts[|ts| - 1].Key() == k then 1 else 0)
  }

  /** The number of cache misses on key `k` in the log: each armed one
      refresh task for `k`. */
  function MissesFor(log: seq<Exchange>, k: string): nat {
    if |log| == 0 then 0
    else
      var e := log[|log| - 1];
      MissesFor(log[..|log| - 1], k)
      + (if e.origin == CacheMiss && e.Key() == k then 1 else 0)
  }

  /** The record of the most recent successful exchange for key `k`. */
  function LastSuccess(log: seq<Exchange>, k: string): Option<CSPTokens> {
    if |log| == 0 then None
    else
      var e := log[|log| - 1];
      if e.Key() == k && e.result.Some? then e.result
      else LastSuccess(log[..|log| - 1], k)
  }

  lemma {:induction false} TasksForConcat(a: seq<Task>, b: seq<Task>, k: string)
    ensures TasksFor(a + b, k) == TasksFor(a, k) + TasksFor(b, k)
    decreases |b|
  {
    if |b| == 0 {
      assert a + b == a;
    } else {
      var b' := b[..|b| - 1];
      assert (a + b)[..|a + b| - 1] == a + b';
      TasksForConcat(a, b', k);
    }
  }

  /** Taking task `i` out of the queue lowers the count of its own key by
      one and leaves every other key's count alone. */
  lemma TasksForRemove(ts: seq<Task>, i: int, k: string)
    requires 0 <= i < |ts|
    ensures TasksFor(ts[..i] + ts[i + 1..], k) == TasksFor(ts, k) - (if ts[i].Key() == k then 1 else 0)
    ensures ts[i].Key() == k ==> TasksFor(ts, k) >= 1
  {
    assert ts == ts[..i] + [ts[i]] + ts[i + 1..];
    TasksForConcat(ts[..i] + [ts[i]], ts[i + 1..], k);
    TasksForConcat(ts[..i], [ts[i]], k);
    TasksForConcat(ts[..i], ts[i + 1..], k);
    assert [ts[i]][..0] == [];
  }

  lemma TasksForAppend(ts: seq<Task>, t: Task, k: string)
    ensures TasksFor(ts + [t], k) == TasksFor(ts, k) + (if t.Key() == k then 1 else 0)
  {
    assert (ts + [t])[..|ts|] == ts;
  }

  lemma LogAppend(log: seq<Exchange>, e: Exchange, k: string)
    ensures MissesFor(log + [e], k)
              == MissesFor(log, k) + (if e.origin == CacheMiss && e.Key() == k then 1 else 0)
    ensures LastSuccess(log + [e], k)
              == if e.Key() == k && e.result.Some? then e.result else LastSuccess(log, k)
  {
    assert (log + [e])[..|log|] == log;
  }

  // ---------------------------------------------------------------------------
  // Transitions

  /** `getToken` for any principal, as `computeIfAbsent` runs it: on a hit,
      the stored record with no fetch and no new task; on a miss, exactly one
      fetch and exactly one refresh task armed with the computed delay, the
      fetched record stored only when it is not `null`. */
  function GetToken(s: State, c: Credentials, fetched: Option<CSPTokens>): (a: Answer)
    ensures c.Key() in s.cache ==> a.state == s && a.tokens == Some(s.cache[c.Key()])
    ensures c.Key() !in s.cache ==>
              && a.tokens == fetched
              && a.state.log == s.log + [Exchange(CacheMiss, c, BuildRequest(c), fetched)]
              && a.state.tasks == s.tasks + [Task(c, NextDelay(fetched))]
              && Lookup(a.state.cache, c.Key()) == fetched
    ensures forall k :: k != c.Key() ==> Lookup(a.state.cache, k) == Lookup(s.cache, k)
    ensures s.cache.Keys <= a.state.cache.Keys
    ensures a.tokens.Some? <==> c.Key() in a.state.cache
    ensures a.tokens.Some? ==> a.tokens.value == a.state.cache[c.Key()]
  {
    var k := c.Key();
    if k in s.cache then
      Answer(s, Some(s.cache[k]))
    else
      var cache := if fetched.Some? then s.cache[k := fetched.value] else s.cache;
      var tasks := s.tasks + [Task(c, NextDelay(fetched))];
      var log := s.log + [Exchange(CacheMiss, c, BuildRequest(c), fetched)];
      Answer(State(cache, tasks, log), fetched)
  }

  /** `getToken(apiToken)`: the entry under the API token itself. */
  function GetTokenApi(s: State, apiToken: string, fetched: Option<CSPTokens>): (a: Answer)
    ensures apiToken in s.cache ==> a == Answer(s, Some(s.cache[apiToken]))
    ensures apiToken !in s.cache ==>
              && a.tokens == fetched
              && a.state.log == s.log + [Exchange(CacheMiss, ApiToken(apiToken), ApiTokenRequest(apiToken), fetched)]
              && a.state.tasks == s.tasks + [Task(ApiToken(apiToken), NextDelay(fetched))]
              && Lookup(a.state.cache, apiToken) == fetched
    ensures forall k :: k != apiToken ==> Lookup(a.state.cache, k) == Lookup(s.cache, k)
  {
    GetToken(s, ApiToken(apiToken), fetched)
  }

  /** `getToken(appId, appSecret, orgId)`: the entry under the application id,
      whatever the secret and organization id. */
  function GetTokenOAuth(s: State, appId: string, appSecret: string, orgId: JString,
                         fetched: Option<CSPTokens>): (a: Answer)
    ensures appId in s.cache ==> a == Answer(s, Some(s.cache[appId]))
    ensures appId !in s.cache ==>
              && a.tokens == fetched
              && a.state.log == s.log + [Exchange(CacheMiss, ClientCredentials(appId, appSecret, orgId), ClientCredentialsRequest(appId, appSecret, orgId), fetched)]
              && a.state.tasks == s.tasks + [Task(ClientCredentials(appId, appSecret, orgId), NextDelay(fetched))]
              && Lookup(a.state.cache, appId) == fetched
    ensures forall k :: k != appId ==> Lookup(a.state.cache, k) == Lookup(s.cache, k)
  {
    GetToken(s, ClientCredentials(appId, appSecret, orgId), fetched)
  }

  /** The body of the scheduled task at position `i`, for either flow: fetch
      again with its credentials, overwrite the entry on success and keep it
      (or its absence) on failure, then re-arm one task with the same
      credentials and the newly computed delay in place of the one that ran. */
  function RunRefresh(s: State, i: nat, fetched: Option<CSPTokens>): (s': State)
    requires i < |s.tasks|
    ensures s'.log == s.log + [Exchange(Refresh, s.tasks[i].creds, BuildRequest(s.tasks[i].creds), fetched)]
    ensures s'.tasks == s.tasks[..i] + s.tasks[i + 1..] + [Task(s.tasks[i].creds, NextDelay(fetched))]
    ensures |s'.tasks| == |s.tasks|
    ensures fetched.None? ==> s'.cache == s.cache
    ensures fetched.Some? ==> Lookup(s'.cache, s.tasks[i].Key()) == fetched
    ensures forall k :: k != s.tasks[i].Key() ==> Lookup(s'.cache, k) == Lookup(s.cache, k)
    ensures s.cache.Keys <= s'.cache.Keys
  {
    var t := s.tasks[i];
    var cache := if fetched.Some? then s.cache[t.Key() := fetched.value] else s.cache;
    var tasks := s.tasks[..i] + s.tasks[i + 1..] + [Task(t.creds, NextDelay(fetched))];
    var log := s.log + [Exchange(Refresh, t.creds, BuildRequest(t.creds), fetched)];
    State(cache, tasks, log)
  }

  // ---------------------------------------------------------------------------
  // Invariant

  /** Every cache entry is the record of the most recent successful fetch for
      its key (absent when there has been none); each key has exactly as many
      pending refresh tasks as there were cache misses on it; and a key that
      was ever fetched successfully has had a miss. */
  ghost predicate Inv(s: State) {
    && (forall k :: Lookup(s.cache, k) == LastSuccess(s.log, k))
    && (forall k :: TasksFor(s.tasks, k) == MissesFor(s.log, k))
    && (forall k :: LastSuccess(s.log, k).Some? ==> MissesFor(s.log, k) >= 1)
  }

  lemma InitialInv()
    ensures Inv(Initial)
  {
  }

  lemma GetTokenPreservesInv(s: State, c: Credentials, fetched: Option<CSPTokens>)
    requires Inv(s)
    ensures Inv(GetToken(s, c, fetched).state)
  {
    var s' := GetToken(s, c, fetched).state;
    if c.Key() !in s.cache {
      var e := Exchange(CacheMiss, c, BuildRequest(c), fetched);
      forall k
        ensures Lookup(s'.cache, k) == LastSuccess(s'.log, k)
        ensures TasksFor(s'.tasks, k) == MissesFor(s'.log, k)
        ensures LastSuccess(s'.log, k).Some? ==> MissesFor(s'.log, k) >= 1
      {
        LogAppend(s.log, e, k);
        TasksForAppend(s.tasks, Task(c, NextDelay(fetched)), k);
      }
    }
  }

  lemma RunRefreshPreservesInv(s: State, i: nat, fetched: Option<CSPTokens>)
    requires Inv(s)
    requires i < |s.tasks|
    ensures Inv(RunRefresh(s, i, fetched))
  {
    var s' := RunRefresh(s, i, fetched);
    var t := s.tasks[i];
    var e := Exchange(Refresh, t.creds, BuildRequest(t.creds), fetched);
    TasksForRemove(s.tasks, i, t.Key());
    forall k
      ensures Lookup(s'.cache, k) == LastSuccess(s'.log, k)
      ensures TasksFor(s'.tasks, k) == MissesFor(s'.log, k)
      ensures LastSuccess(s'.log, k).Some? ==> MissesFor(s'.log, k) >= 1
    {
      LogAppend(s.log, e, k);
      TasksForRemove(s.tasks, i, k);
      TasksForAppend(s.tasks[..i] + s.tasks[i + 1..], Task(t.creds, NextDelay(fetched)), k);
    }
  }

  /** A refresh keeps the number of pending tasks of every key: it consumes
      its own task and arms exactly one for the same key. */
  lemma RunRefreshKeepsTaskCounts(s: State, i: nat, fetched: Option<CSPTokens>, k: string)
    requires i < |s.tasks|
    ensures TasksFor(RunRefresh(s, i, fetched).tasks, k) == TasksFor(s.tasks, k)
  {
    var t := s.tasks[i];
    TasksForRemove(s.tasks, i, k);
    TasksForAppend(s.tasks[..i] + s.tasks[i + 1..], Task(t.creds, NextDelay(fetched)), k);
  }

  /** In any state the provider can reach, a cached key is still being
      refreshed: at least one task for it is pending. */
  lemma CachedKeyIsRefreshed(s: State, k: string)
    requires Inv(s)
    requires k in s.cache
    ensures TasksFor(s.tasks, k) >= 1
  {
    assert Lookup(s.cache, k) == LastSuccess(s.log, k);
  }

  /** The key collision between the flows: once the client-credentials flow
      has stored a record under an application id, `getToken` with an API
      token equal to that id returns the same record, with no fetch. */
  lemma SharedKeyspace(s: State, appId: string, appSecret: string, orgId: JString,
                       t: CSPTokens, fetched: Option<CSPTokens>)
    requires appId !in s.cache
    ensures var s1 := GetTokenOAuth(s, appId, appSecret, orgId, Some(t)).state;
            var a := GetTokenApi(s1, appId, fetched);
            a.tokens == Some(t) && a.state == s1
  {
  }
}
