/** The admission decision of one request, as a function of the store's
    state before it: what the client gets back, what the store holds
    afterwards and how many times the next handler ran. The middleware's
    Dispatch method is proved to do exactly this. */
module Gate {
  import opened Store
  import opened Keys

  /** Too Many Requests (section 4 of RFC 6585). */
  const TooManyRequests: int := 429

  /** The text of the rejection; only its presence matters to the model. */
  const RejectDetail: string := "Сұраныс шегі асқан. Кейінірек қайталап көріңіз."

  /** What the gate sees of a request: the client's host (None when the
      server reports no client address) and the URL path. */
  datatype Request = Request(client: Option<string>, path: string)

  /** How each of the request's two round trips to the store ends (the
      EXPIRE one only matters when it is sent). */
  datatype Fault = Fault(incr: Delivery, expire: Delivery)

  /** Both round trips delivered and answered. */
  const Healthy: Fault := Fault(Delivered, Delivered)

  /** Passed: the next handler's own response. Raised: the next handler's
      exception, propagated out of the middleware. Json: a response the
      gate builds itself. */
  datatype Response = Passed | Raised | Json(status: int, content: map<string, string>)

  /** One request's effect. */
  datatype Step = Step(response: Response, store: State, handlerCalls: nat)

  /** What a call of the next handler gives back. */
  function Handler(fails: bool): Response {
    if fails then Raised else Passed
  }

  /** The rejection: 429 with the JSON body {"detail": ...}. */
  function Rejection(): (r: Response)
    ensures r.Json? && r.status == TooManyRequests
    ensures r.content.Keys == {"detail"} && r.content["detail"] == RejectDetail
  {
    Json(TooManyRequests, map["detail" := RejectDetail])
  }

  /** The key a request is counted under. */
  function KeyOf(req: Request): string
    requires req.client.Some?
  {
    CounterKey(req.client.value, req.path)
  }

  /** The requests the gate counts: a client is known and the path is not exempt. */
  predicate Counted(req: Request) {
    req.client.Some? && !IsExempt(req.path)
  }

  /** A store round trip raises while `req` is handled: INCR is not
      answered, or EXPIRE is not answered when it is sent, which is when
      INCR created the counter. */
  predicate StoreFails(s: State, req: Request, fault: Fault)
    requires req.client.Some?
  {
    fault.incr != Delivered || (fault.expire != Delivered && CountOf(s, KeyOf(req)) + 1 == 1)
  }

  /** One dispatch. An absent client makes reading its host fail, which
      the catch-all turns into forwarding; an exempt path goes to the next
      handler (and, when that raises inside the try block, a second time
      after it); otherwise the counter is incremented, given the window as
      its time-to-live when the increment created it, and the request is
      rejected when the new count is over the limit. A failed store round
      trip forwards the request. */
  function Admit(s: State, limit: int, window: int, req: Request, fault: Fault, handlerFails: bool): (r: Step)
    ensures r.store.now == s.now
    ensures Live(s) ==> Live(r.store)
  {
    if req.client.None? then Step(Handler(handlerFails), s, 1)
    else if IsExempt(req.path) then
      if handlerFails then Step(Raised, s, 2) else Step(Passed, s, 1)
    else
      var key := KeyOf(req);
      var counted := if fault.incr == Dropped then s else Incremented(s, key);
      if fault.incr != Delivered then Step(Handler(handlerFails), counted, 1)
      else
        var current := CountOf(counted, key);
        var after := if current == 1 && fault.expire != Dropped then WithExpiry(counted, key, window) else counted;
        if current == 1 && fault.expire != Delivered then Step(Handler(handlerFails), after, 1)
        else if current > limit then Step(Rejection(), after, 0)
        else Step(Handler(handlerFails), after, 1)
  }

  /** An exempt path is forwarded whatever the store holds and whatever
      fails, and the store is left exactly as it was. */
  lemma ExemptPassesThrough(s: State, limit: int, window: int, req: Request, fault: Fault, handlerFails: bool)
    requires IsExempt(req.path)
    ensures var r := Admit(s, limit, window, req, fault, handlerFails);
            r.store == s && r.handlerCalls >= 1 && r.response == Handler(handlerFails)
  {
  }

  /** On an exempt path a raising handler is called twice: once inside the
      try block and once more after the catch-all swallowed its exception. */
  lemma ExemptHandlerRunsTwiceOnError(s: State, limit: int, window: int, req: Request, fault: Fault, handlerFails: bool)
    requires req.client.Some? && IsExempt(req.path)
    ensures Admit(s, limit, window, req, fault, handlerFails).handlerCalls == if handlerFails then 2 else 1
  {
  }

  /** A request that is not exempt is either rejected without reaching the
      next handler, or handed to it exactly once. */
  lemma RejectedOrForwardedOnce(s: State, limit: int, window: int, req: Request, fault: Fault, handlerFails: bool)
    requires req.client.None? || !IsExempt(req.path)
    ensures var r := Admit(s, limit, window, req, fault, handlerFails);
            (r.response == Rejection() && r.handlerCalls == 0)
            || (r.response == Handler(handlerFails) && r.handlerCalls == 1)
  {
  }

  /** A counted request whose INCR reaches the store raises its own counter
      by exactly one (whether or not the answer comes back) and leaves every
      other counter, with its time-to-live, as it was. */
  lemma CountsOnce(s: State, limit: int, window: int, req: Request, fault: Fault, handlerFails: bool)
    requires Counted(req) && window > 0
    ensures var r := Admit(s, limit, window, req, fault, handlerFails);
            CountOf(r.store, KeyOf(req)) == CountOf(s, KeyOf(req)) + (if fault.incr == Dropped then 0 else 1)
            && forall k :: k != KeyOf(req) ==> SameOn(s.entries, r.store.entries, k)
  {
  }

  /** Whatever fails, a request touches no counter but its own. */
  lemma OtherKeysUntouched(s: State, limit: int, window: int, req: Request, fault: Fault, handlerFails: bool, k: string)
    requires req.client.Some? ==> k != KeyOf(req)
    ensures SameOn(s.entries, Admit(s, limit, window, req, fault, handlerFails).store.entries, k)
  {
  }

  /** The window is anchored to the first hit: the request that creates the
      counter gives it the window as its time-to-live, and later requests
      never move it. */
  lemma ExpiryAnchoredToFirstHit(s: State, limit: int, window: int, req: Request, handlerFails: bool)
    requires Live(s) && Counted(req) && window > 0
    ensures var r := Admit(s, limit, window, req, Healthy, handlerFails);
            KeyOf(req) in r.store.entries
            && r.store.entries[KeyOf(req)].expiresAt
               == if KeyOf(req) in s.entries then s.entries[KeyOf(req)].expiresAt
                  else Some(s.now + window)
  {
  }

  /** A request is rejected exactly when it is counted, no store round trip
      fails, and its post-increment count is over the limit; the rejection
      is 429 with a body whose only field is "detail", and the next handler
      is not run. */
  lemma RejectedExactlyWhenOverLimit(s: State, limit: int, window: int, req: Request, fault: Fault, handlerFails: bool)
    ensures var r := Admit(s, limit, window, req, fault, handlerFails);
            r.response.Json?
            <==> Counted(req) && !StoreFails(s, req, fault) && CountOf(s, KeyOf(req)) + 1 > limit
    ensures var r := Admit(s, limit, window, req, fault, handlerFails);
            r.response.Json? ==>
              r.response.status == TooManyRequests
              && r.response.content.Keys == {"detail"}
              && r.response.content["detail"] == RejectDetail
              && r.handlerCalls == 0
  {
  }

  /** Fail-open: when a store round trip raises the request is forwarded,
      never rejected. An INCR that never reached the store leaves it as it
      was; one whose answer was lost has still counted the request. */
  lemma FailOpen(s: State, limit: int, window: int, req: Request, fault: Fault, handlerFails: bool)
    requires Counted(req) && StoreFails(s, req, fault)
    ensures var r := Admit(s, limit, window, req, fault, handlerFails);
            r.response == Handler(handlerFails) && r.handlerCalls == 1
            && (fault.incr == Dropped ==> r.store == s)
            && (fault.incr == ReplyLost ==> r.store == Incremented(s, KeyOf(req)))
  {
  }

  /** A first hit whose EXPIRE never reaches the store, or whose INCR goes
      unanswered (so that no EXPIRE is sent), leaves the new counter without
      a time-to-live: the store never drops it and the client's count for
      that path only grows. */
  lemma LostExpiryNeverLapses(s: State, limit: int, window: int, req: Request, fault: Fault, handlerFails: bool, dt: nat)
    requires Counted(req) && KeyOf(req) !in s.entries
    requires fault.incr == ReplyLost || (fault.incr == Delivered && fault.expire == Dropped)
    ensures var r := Admit(s, limit, window, req, fault, handlerFails);
            KeyOf(req) in r.store.entries
            && r.store.entries[KeyOf(req)] == Entry(1, None)
            && KeyOf(req) in Advanced(r.store, dt).entries
  {
  }

  /** A first hit whose EXPIRE was applied but went unanswered is forwarded
      like any failed round trip, yet its counter has the window as its
      time-to-live and is gone once the window has passed. */
  lemma LostExpiryReplyStillLapses(s: State, limit: int, window: int, req: Request, handlerFails: bool)
    requires Counted(req) && KeyOf(req) !in s.entries && window > 0
    ensures var r := Admit(s, limit, window, req, Fault(Delivered, ReplyLost), handlerFails);
            r.response == Handler(handlerFails) && r.handlerCalls == 1
            && KeyOf(req) in r.store.entries
            && r.store.entries[KeyOf(req)] == Entry(1, Some(s.now + window))
            && KeyOf(req) !in Advanced(r.store, window).entries
  {
  }

  /** The decision on a request depends on nothing but its own counter and
      the clock. */
  lemma AdmitIsLocal(s: State, t: State, limit: int, window: int, req: Request, fault: Fault, handlerFails: bool)
    requires s.now == t.now
    requires req.client.Some? ==> SameOn(s.entries, t.entries, KeyOf(req))
    ensures Admit(s, limit, window, req, fault, handlerFails).response
            == Admit(t, limit, window, req, fault, handlerFails).response
    ensures Admit(s, limit, window, req, fault, handlerFails).handlerCalls
            == Admit(t, limit, window, req, fault, handlerFails).handlerCalls
  {
  }

  /** Exhausting one (client, path) quota does not change the decision on a
      request counted under another key. */
  lemma QuotasAreIndependent(s: State, limit: int, window: int,
                             first: Request, f1: Fault, h1: bool,
                             second: Request, f2: Fault, h2: bool)
    requires first.client.Some? && second.client.Some? ==> KeyOf(first) != KeyOf(second)
    ensures var mid := Admit(s, limit, window, first, f1, h1).store;
            Admit(mid, limit, window, second, f2, h2).response == Admit(s, limit, window, second, f2, h2).response
  {
    var mid := Admit(s, limit, window, first, f1, h1).store;
    if second.client.Some? {
      OtherKeysUntouched(s, limit, window, first, f1, h1, KeyOf(second));
    }
    AdmitIsLocal(mid, s, limit, window, second, f2, h2);
  }
}
