# CSP token provider: a Dafny model

This project models `CSPTokensProvider`, a self-refreshing cache of CSP access tokens, as a sequential state machine. The cache maps a principal key to the token record last fetched for it. The key is a user's API token, or an OAuth application's id. On the first `getToken` for a key, the provider fetches synchronously. Inside `computeIfAbsent` it then arms a one-shot refresh task. Each refresh task fetches again, overwrites the entry on success and re-arms itself forever. A failed fetch retries after `delayOnFail` = 10 s. A successful fetch refreshes after `expiresIn - clockSkew` seconds, with `clockSkew` = 60.

Modules:

- `Options`: `Option` stands in for Java's `null`. `Lookup` reads a map entry.
- `JavaInt`: Java `int` as `int32`. `Sub` is its wrapping subtraction.
- `Tokens`: the `CSPTokens` record, one field per JSON property. `Credentials` is the API-token or client-credentials principal. `Key` is its untagged cache key.
- `Fetcher`: builds the request for each flow and classifies the reply. The endpoint URLs are two distinct constants. The Basic authorization value is the ISO-8859-1 text of `appId:appSecret`; only its Base64 encoding stays symbolic.
- `Provider`: the state is the cache map, the pending refresh tasks and the log of network exchanges. The module holds the delay rule, the two `getToken` overloads, the refresh task body, and the invariant that links cache, tasks and log.
- `Trace`: runs of the state machine. It covers the invariant along any run, task accumulation while a key keeps failing, and two concrete scenarios.

Network calls are inputs. Each transition takes the record the fetch produced, or `None` when the fetch failed. `Fetcher.RequestTokens` says which HTTP outcomes produce which of these.

Some behaviours of the code are easy to get wrong, so the model states them explicitly:

- When `expiresIn <= clockSkew`, the delay is not clamped at 0. The code computes a zero or negative `int` delay. `ScheduledExecutorService.schedule` then runs the task at once. `Provider.NextDelay` keeps the negative value. `Provider.SecondsUntilRun` applies the scheduler's clamp.
- A fetch failure carries no HTTP status or cause. The code collapses every failure to `null`, and so does `Fetcher.RequestTokens`.
- The Basic header joins the id and secret with `:` and encodes them as ISO-8859-1. So a client-credentials request does not determine its application id, and two principals with different cache keys can send the same request. `Fetcher.ColonJoinIsAmbiguous` and `Fetcher.NonLatin1SecretsCollide` show this.
- `expiresIn - clockSkew` is Java `int` arithmetic. When `expiresIn` is below `-2147483588`, the subtraction wraps to a large positive delay. `Provider.DelayWrapsOnHugeNegativeExpiry` shows this.

## Model

| member | source | states |
|---|---|---|
| JavaInt.Sub | src/main/java/csp/sample/CSPTokensProvider.java:49 | Java `int` subtraction gives the exact difference when it fits in 32 bits. Otherwise the result is shifted by 2^32 in the direction that brings it back into range. |
| Provider.NextDelay | src/main/java/csp/sample/CSPTokensProvider.java:49 | After a failed fetch the delay is 10. After a success it is `expiresIn - 60`, exact unless `expiresIn < MIN_INT + 60`, where it wraps by 2^32. |
| Provider.DelayRule | src/main/java/csp/sample/CSPTokensProvider.java:84-90 | A failure re-runs after 10 s. A success with `expiresIn > 60` re-runs after `expiresIn - 60 > 0` s. A success with `MIN_INT + 60 <= expiresIn <= 60` gives a delay <= 0, which the scheduler runs at once. |
| Provider.SecondsUntilRun | src/main/java/csp/sample/CSPTokensProvider.java:82-90 | A task armed with a delay <= 0 runs at once. A positive delay is waited out in full, and is at most `MAX_INT` seconds. |
| Provider.DelayWrapsOnHugeNegativeExpiry | src/main/java/csp/sample/CSPTokensProvider.java:87 | A lifetime below `MIN_INT + 60` overflows to a delay above `MAX_INT - 60` instead of an immediate refresh. |
| Fetcher.ApiTokenRequest | src/main/java/csp/sample/CSPTokensProvider.java:123-132 | The API-token request targets the API-token endpoint. It has exactly one form field, `api_token` = the token, and no Authorization header. |
| Fetcher.ClientCredentialsRequest | src/main/java/csp/sample/CSPTokensProvider.java:143-158 | The client-credentials request targets the OAuth endpoint. Its first form field is `grant_type=client_credentials`. A second field `orgId` is present if and only if an orgId is given. Every Authorization header carries the Basic value of the ISO-8859-1 text `appId:appSecret`. |
| Fetcher.BuildRequestInjective | src/main/java/csp/sample/CSPTokensProvider.java:126-155 | Two principals send the same request if and only if they have the same API token, or the same ISO-8859-1 text of `appId:appSecret` and the same orgId. |
| Fetcher.ColonJoinIsAmbiguous | src/main/java/csp/sample/CSPTokensProvider.java:147 | ("a:b", "c") and ("a", "b:c") send the same request although their cache keys differ. |
| Fetcher.NonLatin1SecretsCollide | src/main/java/csp/sample/CSPTokensProvider.java:147 | For any app id and orgId, two secrets of equal length that differ only at positions where both characters lie outside ISO-8859-1 send the same request. |
| Fetcher.FlowsDiffer | src/main/java/csp/sample/CSPTokensProvider.java:126-155 | The request targets the API-token endpoint if and only if the flow is API-token. It carries an Authorization header if and only if the flow is client-credentials. |
| Fetcher.RequestTokens | src/main/java/csp/sample/CSPTokensProvider.java:160-177 | A reply yields a record if and only if it is a 2xx response whose body decoded. The record is the decoded one. |
| Fetcher.FailuresCollapse | src/main/java/csp/sample/CSPTokensProvider.java:164-176 | A non-2xx status, whatever the body, and a transport error all yield the same `null`. |
| Provider.GetToken | src/main/java/csp/sample/CSPTokensProvider.java:46-52 | On a hit it returns the stored record with the state unchanged: no fetch and no task. On a miss it makes one logged fetch and arms one task with the computed delay. The key is then present exactly when the fetch succeeded. Other keys are untouched. The result is non-null exactly when it is the key's entry. |
| Provider.GetTokenApi | src/main/java/csp/sample/CSPTokensProvider.java:45-53 | The same contract, keyed by the API token, with the API-token request and task. |
| Provider.GetTokenOAuth | src/main/java/csp/sample/CSPTokensProvider.java:63-73 | The same contract, keyed by the app id, with the client-credentials request and task. |
| Provider.RunRefresh | src/main/java/csp/sample/CSPTokensProvider.java:81-114 | A refresh makes one logged fetch with the task's credentials. On success it overwrites the entry; on failure it leaves the map unchanged. It replaces its own task with one for the same credentials and the new delay, so the total number of tasks stays the same. Other keys are untouched. |
| Provider.RunRefreshKeepsTaskCounts | src/main/java/csp/sample/CSPTokensProvider.java:82-90 | A refresh keeps every key's number of pending tasks. |
| Provider.InitialInv | src/main/java/csp/sample/CSPTokensProvider.java:35-37 | The empty provider satisfies the invariant. |
| Provider.GetTokenPreservesInv | src/main/java/csp/sample/CSPTokensProvider.java:45-73 | `getToken` preserves the invariant. Each entry is the key's last successful fetch. Each key has as many pending tasks as it had cache misses. |
| Provider.RunRefreshPreservesInv | src/main/java/csp/sample/CSPTokensProvider.java:81-114 | The refresh task body preserves the same invariant. |
| Provider.CachedKeyIsRefreshed | src/main/java/csp/sample/CSPTokensProvider.java:46-52 | Under the invariant, a cached key has at least one pending refresh task. |
| Provider.SharedKeyspace | src/main/java/csp/sample/CSPTokensProvider.java:46-66 | Suppose the OAuth flow stores a record under an app id. An API-token `getToken` with that string then returns that record and fetches nothing. |
| Trace.RunNeverShrinks | src/main/java/csp/sample/CSPTokensProvider.java:81-114 | Along any run, the number of pending tasks never decreases. Cached keys are never evicted. The log only grows, by at most one exchange per event. |
| Trace.RunPreservesInv | src/main/java/csp/sample/CSPTokensProvider.java:45-114 | Every run preserves the invariant. |
| Trace.ReachableCacheIsFresh | src/main/java/csp/sample/CSPTokensProvider.java:37-114 | From the empty provider, every reachable entry is its key's last successful fetch, and a cached key has a pending refresh. |
| Trace.FailingCallsAccumulateTasks | src/main/java/csp/sample/CSPTokensProvider.java:46-52 | Take n `getToken` calls on an absent key whose fetch keeps failing. The key stays absent. The log grows by n. That key gains n more pending tasks. |
| Trace.ScenarioRefreshReplaces | src/main/java/csp/sample/CSPTokensProvider.java:45-91 | `tok-A` first gets `x1` (120 s) and a task armed at 60 s. After the refresh brings `x2`, `getToken` returns `x2` with no further fetch. |
| Trace.ScenarioRetryAfterFailure | src/main/java/csp/sample/CSPTokensProvider.java:45-91 | `tok-B` gets HTTP 401: `null` is returned, the key stays absent and a retry is armed at 10 s. After a successful retry, `getToken` is served from the cache. |

## Left out

- Concurrency: the model makes each transition atomic and sequential. It does not cover the thread safety of `ConcurrentHashMap`, the "one fetch in flight per key" that `computeIfAbsent` provides under contention, or the executor's single thread.
- Trace.Run: does not order firings by delay. Any pending task may fire next, so the model proves nothing about wall-clock timing beyond the delay each task records.
- Time: the model has no clock. `Provider.SecondsUntilRun` gives only the delay the scheduler is asked for.
- OkHttp transport and Jackson decoding are foreign libraries. They appear only as `Fetcher.Outcome`: a transport error, or a status code with a decode result.
- `Credentials.basic` is a library call. Its ISO-8859-1 step is modelled. Its Base64 step is injective and appears only as the symbolic value `Basic(text)`.
- The two endpoint URL strings appear only as two distinct endpoints.
- Fetcher.ApiTokenRequest: its form fields are the raw name/value pairs handed to OkHttp's pre-encoded `FormBody(names, values)` constructor, which applies no percent-encoding. The model does not model form encoding or how the server parses the body. So "exactly one form field" holds for the pairs as written. For a token containing `&`, `=`, `%` or `+`, it does not hold for the fields the server decodes. The same applies to `orgId` in Fetcher.ClientCredentialsRequest.
- Logging, closing the response body and shutting down the executor are not modelled. The provider never shuts its executor down.
- `Main.java` is not part of this model. It is a demo loop that calls a downstream API over HTTP and sleeps.
