/** The middleware object: it holds the store handle and the next handler,
    and runs the admission gate on every request. */
module Middleware {
  import opened Store
  import opened Keys
  import opened Gate

  /** `n` copies of one request. */
  function Copies(req: Request, n: nat): (rs: seq<Request>)
    ensures |rs| == n && forall i :: 0 <= i < n ==> rs[i] == req
  {
    seq(n, _ => req)
  }

  /** The rest of the application, reached through `call_next`. It records
      every request it is handed; whether it raises for a request is up to
      the caller. */
  class Downstream {
    var received: seq<Request>

    constructor ()
      ensures received == []
    {
      received := [];
    }

    method Call(req: Request, fails: bool) returns (response: Response)
      modifies this
      ensures received == old(received) + [req]
      ensures response == Handler(fails)
    {
      received := received + [req];
      response := Handler(fails);
    }
  }

  class RateLimiterMiddleware {
    const app: Downstream
    const redis: CounterStore
    /** Requests allowed per key and window. */
    const limit: int
    /** The window, in seconds. */
    const window: int

    /** Holds the next handler, the store handle and the configured quota. */
    constructor (app: Downstream, redis: CounterStore, limit: int, window: int)
      ensures this.app == app && this.redis == redis
      ensures this.limit == limit && this.window == window
    {
      this.app := app;
      this.redis := redis;
      this.limit := limit;
      this.window := window;
    }

    /** Handles one request: `fault` says how its store round trips end, and
        `handlerFails` whether the next handler raises for this request. */
    method Dispatch(request: Request, fault: Fault, handlerFails: bool) returns (response: Response)
      requires redis.Valid()
      modifies redis, app
      ensures redis.Valid()
      ensures var step := Admit(old(redis.Snapshot()), limit, window, request, fault, handlerFails);
              response == step.response
              && redis.Snapshot() == step.store
              && app.received == old(app.received) + Copies(request, step.handlerCalls)
    {
      // The try block: `caught` is set where an exception leaves it.
      var caught := false;
      if request.client.None? {
        // reading the host of an absent client raises
        caught := true;
      } else {
        var ip := ClientIp(request.client.value);
        var path := request.path;
        if IsExempt(path) {
          response := app.Call(request, fails := handlerFails);
          if response != Raised {
            return;
          }
          caught := true;
        } else {
          var key := Key(ip, path);
          var current := redis.Incr(key, fault.incr);
          if current.None? {
            caught := true;
          } else {
            if current.value == 1 {
              var held := redis.Expire(key, window, fault.expire);
              caught := held.None?;
            }
            if !caught && current.value > limit {
              return Rejection();
            }
          }
        }
      }
      // After the try block, whether or not an exception was caught (the
      // diagnostic printed on a caught one is not modelled).
      response := app.Call(request, fails := handlerFails);
    }
  }
}
