# Rate limiter middleware, modelled in Dafny

This project models `RateLimiterMiddleware` (`middleware/rate_limiter.py`). It is the per-request admission gate of a FastAPI backend. The backend's instances share a Redis server, which holds one counter per client and path. For every request, `dispatch`:

- forwards any path that starts with `/metrics` without counting it;
- otherwise builds the key `ratelimit:<client ip>:<path>`, using `unknown` for an empty host;
- sends `INCR` for that key;
- sends `EXPIRE key window` when the increment created the counter (count 1). This gives a fixed window anchored to the first request;
- answers 429 Too Many Requests (section 4 of RFC 6585) with the JSON body `{"detail": ...}` once the count is over the limit;
- forwards the request whenever anything inside its `try` block raises. This makes the gate fail open when Redis is unreachable.

Layout, one module per file:

- `store.dfy`, module `Store`. Redis is modelled as a value (`State`: a map from key to `Entry(count, expiresAt)` plus the store's clock). It has pure `Incremented`, `WithExpiry` and `Advanced`; `Advanced` moves the clock on and drops lapsed keys. The class `CounterStore` holds that state in mutable fields, and its `Incr`, `Expire` and `AdvanceTime` methods update them. `Incr` and `Expire` each take a `Delivery` saying how the round trip ends:
  - `Delivered`: applied and answered;
  - `Dropped`: never reached the store, so nothing was applied;
  - `ReplyLost`: applied, but the answer never came back, for example a read timeout after the server acted.
- `keys.dfy`, module `Keys`. The client identifier, the `/metrics` exemption and the counter key. `SplitKey` is the inverse of the key, proved by a round-trip lemma, which gives injectivity.
- `gate.dfy`, module `Gate`. `Admit` is one dispatch as a function of the store state before it. It returns the response, the new store and how many times the next handler ran. The lemmas cover:
  - the quota boundary;
  - per-key isolation;
  - the anchored expiry;
  - fail-open for each way a round trip can end;
  - the exempt path's double handler call.
- `middleware.dfy`, module `Middleware`. `Downstream` is the `call_next` continuation, which records the requests it is handed. `RateLimiterMiddleware` has the `Dispatch` method, which mirrors the source's `try`/`except` step by step and is proved to do exactly what `Admit` says.
- `window.dfy`, module `Window`. Runs of requests and clock ticks (`Replay`). A run of one counter may mix in any other traffic: exempt requests, client-less requests, requests under other keys, each under any store outcome and handler outcome. The counter's own requests may have a raising handler. The results:
  - the counter lapses exactly, to the second, at the first request's time plus the window. Times are whole seconds, and a counter is gone once the clock reaches its expiry; Redis itself keeps the key until its millisecond clock is strictly past that time;
  - within a window a fresh counter admits exactly `limit` requests and rejects the rest;
  - a tick that brings the clock to the expiry restarts the count.

  The 200, 200, 429, then 200-after-expiry example is derived from these, on `Replay` and through the middleware object. So is the burst that the fixed window allows: four requests forwarded within one second across a boundary.

Inputs that the source takes from outside are parameters here:

- how each Redis round trip ends (`Fault(incr, expire)`, each a `Delivery`);
- whether the next handler raises for a request;
- the client's host, which is `None` when the server reports no client;
- the store's clock, which moves only through `AdvanceTime` / `Tick`.

Behaviours of the code a reader might not expect:

- only the single prefix `/metrics` is exempt, and it is a plain prefix test, so `/metricsX` is exempt too;
- the limit and the window are not validated. A window of 0 or less makes Redis delete the new key at once, so when the limit is at least 1 that key is never rejected. The lemmas that need a positive window state `window > 0`;
- the next handler is not always called at most once. On an exempt path, a handler that raises is called a second time after the `except`;
- a request whose `request.client` is absent raises inside the `try` block. It is forwarded uncounted, even on a `/metrics` path;
- an `INCR` whose reply is lost has still counted the request, which is then forwarded. A dropped `EXPIRE` on the first request, or a lost `INCR` reply that creates the counter, leaves a counter that never lapses. An `EXPIRE` whose reply is lost has still set the time-to-live, so that counter lapses on time, although the request is forwarded.

## Model

| member | source | states |
|---|---|---|
| `Store.Incremented` | middleware/rate_limiter.py:29 | INCR raises the key's counter by exactly one (from 0 when absent), keeps its time-to-live, touches no other key and keeps the store invariant |
| `Store.WithExpiry` | middleware/rate_limiter.py:31 | EXPIRE gives a held key the window from now as its time-to-live, deletes it for a non-positive window, ignores an absent key, touches no other key |
| `Store.Advanced` | middleware/rate_limiter.py:30-31 | the store's clock moves on; exactly the counters whose time-to-live has run out are dropped, the rest are unchanged |
| `Store.LapseExactly` | middleware/rate_limiter.py:30-31 | a counter is dropped exactly when the clock reaches its expiry; one without a time-to-live is never dropped |
| `Store.CounterStore.constructor` | middleware/rate_limiter.py:10-14 | a handle on the shared store, which may already hold counters left by other instances; the handle holds exactly that state and is valid |
| `Store.CounterStore.Incr` | middleware/rate_limiter.py:29 | a delivered INCR returns the post-increment count and updates the store as `Incremented`; a dropped one returns nothing and changes nothing; one whose reply is lost returns nothing but has still incremented |
| `Store.CounterStore.Expire` | middleware/rate_limiter.py:31 | a delivered EXPIRE updates the store as `WithExpiry` and reports whether the key was held; a dropped one changes nothing; one whose reply is lost returns nothing but has still applied |
| `Store.CounterStore.AdvanceTime` | middleware/rate_limiter.py:30-31 | the stored state becomes `Advanced` of the old one and the invariant is kept |
| `Keys.ClientIp` | middleware/rate_limiter.py:18 | the client identifier is the host, or `unknown` when the host is empty; it is never empty |
| `Keys.ExemptExactly` | middleware/rate_limiter.py:22 | a path is exempt if and only if its first eight characters are `/metrics` |
| `Keys.ExemptIsPlainPrefix` | middleware/rate_limiter.py:22 | `/metrics`, `/metrics/x`, `/metricsX` are exempt; `/metric`, `/api/metrics`, `/Metrics` are not |
| `Keys.KeyLayout` | middleware/rate_limiter.py:25 | the key is `ratelimit:`, the client, `:` and the path laid end to end, with the length and every part at its offset |
| `Keys.CounterKeyOf` | middleware/rate_limiter.py:18-25 | the counter key of a request is the key of its host, or of `unknown` when the host is empty, and always starts with `ratelimit:` |
| `Keys.IndexOf` | middleware/rate_limiter.py:25 | the position of the first occurrence of a character, or the length when absent (used to read a key back) |
| `Keys.KeyRoundTrip` | middleware/rate_limiter.py:25 | for an address without `/` and a path starting with `/`, the client and the path are recovered from `ratelimit:<ip>:<path>` |
| `Keys.KeyInjective` | middleware/rate_limiter.py:25 | distinct well-formed (client, path) pairs yield distinct keys |
| `Keys.CounterKeyDistinct` | middleware/rate_limiter.py:18-25 | two requests share a counter if and only if their client identifiers and paths are equal |
| `Gate.Rejection` | middleware/rate_limiter.py:34-37 | the rejection is a JSON response with status 429 whose body has the single field `detail`, holding the fixed message |
| `Gate.Admit` | middleware/rate_limiter.py:16-43 | one dispatch leaves the store's clock alone and keeps the store invariant |
| `Gate.ExemptPassesThrough` | middleware/rate_limiter.py:22-23 | a `/metrics…` path is forwarded whatever the store holds or however its round trips end, and the store is left exactly as it was |
| `Gate.ExemptHandlerRunsTwiceOnError` | middleware/rate_limiter.py:16-43 | on an exempt path the next handler runs once, or twice when it raises (inside the `try`, then again after the `except`) |
| `Gate.RejectedOrForwardedOnce` | middleware/rate_limiter.py:33-43 | a non-exempt request is either rejected with no handler call or handed to the next handler exactly once |
| `Gate.CountsOnce` | middleware/rate_limiter.py:29 | a counted request raises its own counter by exactly one when its INCR reaches the store, answered or not, and by nothing when it is dropped; every other key's count and expiry are unchanged |
| `Gate.OtherKeysUntouched` | middleware/rate_limiter.py:25-31 | however the round trips end, a request changes no counter but its own |
| `Gate.ExpiryAnchoredToFirstHit` | middleware/rate_limiter.py:30-31 | the request that creates the counter sets its expiry to now + window; later requests leave the expiry where it was |
| `Gate.RejectedExactlyWhenOverLimit` | middleware/rate_limiter.py:33-37 | rejected if and only if counted, no round trip raises and the post-increment count exceeds the limit; a rejection is 429 with the single field `detail` and runs no handler |
| `Gate.FailOpen` | middleware/rate_limiter.py:39-43 | when a round trip raises, the request is forwarded once and never rejected; a dropped INCR leaves the store as it was, a lost INCR reply leaves it incremented |
| `Gate.LostExpiryNeverLapses` | middleware/rate_limiter.py:29-31 | a first request whose EXPIRE is dropped, or whose INCR reply is lost, leaves the counter at 1 with no time-to-live, and no passage of time removes it |
| `Gate.LostExpiryReplyStillLapses` | middleware/rate_limiter.py:29-31 | a first request whose EXPIRE is applied but unanswered is forwarded, not rejected, yet its counter holds 1 with the expiry now + window and is gone once the window has passed |
| `Gate.AdmitIsLocal` | middleware/rate_limiter.py:25-33 | the decision depends only on the request's own counter and the clock |
| `Gate.QuotasAreIndependent` | middleware/rate_limiter.py:25-37 | a request under one key does not change the decision on a later request under another key |
| `Middleware.Downstream.Call` | middleware/rate_limiter.py:43 | the next handler records the request it is handed and returns its response or raises |
| `Middleware.RateLimiterMiddleware.constructor` | middleware/rate_limiter.py:8-14 | the middleware holds the next handler, the store handle, the limit and the window |
| `Middleware.RateLimiterMiddleware.Dispatch` | middleware/rate_limiter.py:16-43 | the response, the new store and the requests handed to the next handler are exactly those of `Admit`, and the store invariant is kept |
| `Window.Replay` | middleware/rate_limiter.py:29-37 | a run of requests and ticks yields one response per request and moves the clock by the total elapsed time |
| `Window.OwnStep` | middleware/rate_limiter.py:29-37 | the request after n others in its window is answered as `Expected(limit, n)` and raises the counter to n + 1; the first one sets the expiry to now + window |
| `Window.ElsewhereStep` | middleware/rate_limiter.py:25-31 | a request not counted under the key, however its round trips end, leaves that counter as it was |
| `Window.TickStep` | middleware/rate_limiter.py:30-31 | time short of the expiry leaves the counter alone; time that reaches it removes the counter |
| `Window.WindowCounter` | middleware/rate_limiter.py:29-31 | within one window from a fresh counter, amid any other traffic, the counter holds the number of its requests so far and lapses exactly `window` seconds after the first of them |
| `Window.AnswerAt` | middleware/rate_limiter.py:29-37 | within one window from a fresh counter, the request numbered j under the key is forwarded when j < limit and rejected otherwise |
| `Window.WindowInvariant` | middleware/rate_limiter.py:29-37 | the same for every request of the key in the run |
| `Window.FixedWindow` | middleware/rate_limiter.py:29-37 | with limit L and a fresh counter, a request of the key is rejected if and only if L of its requests came before it in the window; the first L are forwarded |
| `Window.CounterLapses` | middleware/rate_limiter.py:30-31 | a tick that brings the clock to the first request's time plus the window removes the counter, however many requests came in between |
| `Window.RestartAnswerAt` | middleware/rate_limiter.py:29-37 | after such a tick the request numbered j under the key in the next run is again answered as `Expected(limit, j)` |
| `Window.WindowRestarts` | middleware/rate_limiter.py:29-37 | both windows together: the first window's answers are kept, and the next run admits L again and rejects the rest |
| `Window.TestLimitScenario` | middleware/rate_limiter.py:29-37 | limit 2, window 60: three requests get 200, 200, 429; one after 60 seconds gets 200 |
| `Window.BurstAcrossBoundary` | middleware/rate_limiter.py:29-37 | limit 2, window 60: requests at 0 s, 59 s, 60 s and 60 s are all forwarded, four within one second across the boundary |
| `Window.TestLimitThroughMiddleware` | middleware/rate_limiter.py:16-43 | the same four responses as the worked example come out of the middleware object over a fresh store |

## Left out

- Construction of the Redis client from `config.settings` (host, port, `decode_responses`). The store is an injected `CounterStore`, and `config` is not part of this model.
- The per-request reads of `settings.rate_limit` and `settings.rate_limit_window`. They are constructor constants here, since the configuration does not change while the process runs.
- Concurrency and the asynchronous round trips. Requests are handled one after another, so the race between concurrent INCR and EXPIRE calls on a fresh key is not modelled.
- Redis's 64-bit counter range. Counts are unbounded integers, so the INCR overflow error is not modelled.
- The `print` diagnostic on a caught exception.
- The wording of the rejection message, which is a fixed constant.
- The handler's own response contents. They are abstracted to `Passed`, or `Raised` for an exception it lets escape. A handler is assumed to raise on every call for a given request or on none.
- `Window.WindowCounter`, and the window lemmas built on it, take the key's own requests on a store whose round trips are all delivered. What a failed round trip does to the key's own counter is stated request by request in `Gate.FailOpen`, `Gate.CountsOnce` and `Gate.LostExpiryNeverLapses`.
- All of `main.py`: application wiring, authentication, ORM handlers, metrics instrumentation, static files and database start-up.
