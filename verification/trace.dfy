/** Runs of the provider: sequences of caller requests and scheduler firings. */
module Trace {
  import opened Options
  import opened JavaInt
  import opened Tokens
  import opened Fetcher
  import opened Provider

  /** A caller's `getToken`, or the scheduler running pending task `index`.
      Which pending task runs next is left open. */
  datatype Event =
    | Get(creds: Credentials, fetched: Option<CSPTokens>)
    | Fire(index: nat, fetched: Option<CSPTokens>)

  predicate Enabled(s: State, e: Event) {
    e.Fire? ==> e.index < |s.tasks|
  }

  function Step(s: State, e: Event): State
    requires Enabled(s, e)
  {
    match e
    case Get(c, f) => GetToken(s, c, f).state
    case Fire(i, f) => RunRefresh(s, i, f)
  }

  predicate Runnable(s: State, evs: seq<Event>)
    decreases |evs|
  {
    |evs| == 0 || (Enabled(s, evs[0]) && Runnable(Step(s, evs[0]), evs[1..]))
  }

  function Run(s: State, evs: seq<Event>): State
    requires Runnable(s, evs)
    decreases |evs|
  {
    if |evs| == 0 then s else Run(Step(s, evs[0]), evs[1..])
  }

  /** Along any run the pending tasks never decrease in number, a cached key
      is never evicted, and the exchange log only grows, by at most one
      exchange per event. */
  lemma {:induction false} RunNeverShrinks(s: State, evs: seq<Event>)
    requires Runnable(s, evs)
    ensures |Run(s, evs).tasks| >= |s.tasks|
    ensures s.cache.Keys <= Run(s, evs).cache.Keys
    ensures s.log <= Run(s, evs).log
    ensures |Run(s, evs).log| <= |s.log| + |evs|
    decreases |evs|
  {
    if |evs| > 0 {
      RunNeverShrinks(Step(s, evs[0]), evs[1..]);
    }
  }

  lemma {:induction false} RunPreservesInv(s: State, evs: seq<Event>)
    requires Inv(s)
    requires Runnable(s, evs)
    ensures Inv(Run(s, evs))
    decreases |evs|
  {
    if |evs| > 0 {
      match evs[0] {
        case Get(c, f) => GetTokenPreservesInv(s, c, f);
        case Fire(i, f) => RunRefreshPreservesInv(s, i, f);
      }
      RunPreservesInv(Step(s, evs[0]), evs[1..]);
    }
  }

  /** In every state reachable from the empty provider, each cached record is
      the last one fetched successfully for its key and its key is still
      being refreshed. */
  lemma ReachableCacheIsFresh(evs: seq<Event>, k: string)
    requires Runnable(Initial, evs)
    ensures var s := Run(Initial, evs);
            Lookup(s.cache, k) == LastSuccess(s.log, k)
            && (k in s.cache ==> TasksFor(s.tasks, k) >= 1)
  {
    InitialInv();
    RunPreservesInv(Initial, evs);
    var s := Run(Initial, evs);
    if k in s.cache {
      CachedKeyIsRefreshed(s, k);
    }
  }

  /** `n` successive `getToken` calls for a principal whose fetch keeps
      failing. */
  function FailingCalls(s: State, c: Credentials, n: nat): State
  {
    if n == 0 then s else GetToken(FailingCalls(s, c, n - 1), c, None).state
  }

  /** While a key keeps failing, every `getToken` on it fetches again and arms
      one more refresh task: after `n` calls the key is still absent, `n`
      requests were sent, and `n` more tasks for it are pending. */
  lemma {:induction false} FailingCallsAccumulateTasks(s: State, c: Credentials, n: nat)
    requires c.Key() !in s.cache
    ensures c.Key() !in FailingCalls(s, c, n).cache
    ensures |FailingCalls(s, c, n).log| == |s.log| + n
    ensures TasksFor(FailingCalls(s, c, n).tasks, c.Key()) == TasksFor(s.tasks, c.Key()) + n
    ensures |FailingCalls(s, c, n).tasks| == |s.tasks| + n
  {
    if n > 0 {
      FailingCallsAccumulateTasks(s, c, n - 1);
      var prev := FailingCalls(s, c, n - 1);
      TasksForAppend(prev.tasks, Task(c, NextDelay(None)), c.Key());
    }
  }

  /** A record with the given access token and lifetime, other fields absent. */
  function Issued(access: string, expiresIn: int32): CSPTokens {
    CSPTokens(None, Some("bearer"), expiresIn, None, Some(access), None)
  }

  /** First request for `tok-A` yields `x1` with a 120 s lifetime, so its
      refresh is armed 60 s out; when that refresh brings `x2`, the next
      `getToken` returns `x2` without fetching. */
  lemma ScenarioRefreshReplaces()
    ensures var c := ApiToken("tok-A");
            var a1 := GetToken(Initial, c, Some(Issued("x1", 120)));
            var s2 := RunRefresh(a1.state, 0, Some(Issued("x2", 120)));
            var a3 := GetToken(s2, c, None);
            && a1.tokens == Some(Issued("x1", 120))
            && a1.state.tasks == [Task(c, 60)]
            && a3.tokens == Some(Issued("x2", 120))
            && |a3.state.log| == 2
  {
    var c := ApiToken("tok-A");
    var a1 := GetToken(Initial, c, Some(Issued("x1", 120)));
    assert a1.state.tasks == [Task(c, 60)];
  }

  /** First request for `tok-B` gets HTTP 401: the caller sees `null`, the key
      stays absent and a retry is armed 10 s out; when that retry succeeds,
      later calls are served the new record from the cache. */
  lemma ScenarioRetryAfterFailure(t: CSPTokens)
    ensures var c := ApiToken("tok-B");
            var a1 := GetToken(Initial, c, RequestTokens(Response(401, Some(t))));
            var s2 := RunRefresh(a1.state, 0, RequestTokens(Response(200, Some(t))));
            var a3 := GetToken(s2, c, None);
            && a1.tokens == None
            && "tok-B" !in a1.state.cache
            && a1.state.tasks == [Task(c, 10)]
            && a3.tokens == Some(t)
            && a3.state == s2
  {
  }
}
