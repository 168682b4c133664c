/** The fixed window over a run of requests: with limit L, a fresh counter
    admits L requests and rejects every later one until its time-to-live
    runs out, after which the count starts again at 1. */
module Window {
  import opened Store
  import opened Keys
  import opened Gate
  import opened Middleware

  /** A request reaching the gate, or the store's clock moving on. */
  datatype Event = Hit(req: Request, fault: Fault, handlerFails: bool) | Tick(seconds: nat)

  /** The store after a run of events, and the responses to its requests in order. */
  datatype Run = Run(store: State, responses: seq<Response>)

  /** The number of requests in a run. */
  function Hits(events: seq<Event>): nat {
    if events == [] then 0
    else Hits(events[..|events| - 1]) + (if events[|events| - 1].Hit? then 1 else 0)
  }

  /** The time that passes over a run. */
  function Elapsed(events: seq<Event>): nat {
    if events == [] then 0
    else Elapsed(events[..|events| - 1]) + (if events[|events| - 1].Tick? then events[|events| - 1].seconds else 0)
  }

  /** One event on top of a run. */
  function Apply(r: Run, limit: int, window: int, e: Event): Run {
    match e
    case Tick(dt) => Run(Advanced(r.store, dt), r.responses)
    case Hit(req, fault, fails) =>
      var step := Admit(r.store, limit, window, req, fault, fails);
      Run(step.store, r.responses + [step.response])
  }

  /** Events one after the other, each request handled by the gate. */
  function Replay(s: State, limit: int, window: int, events: seq<Event>): (r: Run)
    ensures |r.responses| == Hits(events)
    ensures r.store.now == s.now + Elapsed(events)
    ensures Live(s) ==> Live(r.store)
  {
    if events == [] then Run(s, [])
    else Apply(Replay(s, limit, window, events[..|events| - 1]), limit, window, events[|events| - 1])
  }

  /** A request counted under `key` on a healthy store; its handler may raise. */
  predicate Own(e: Event, key: string) {
    e.Hit? && Counted(e.req) && KeyOf(e.req) == key && e.fault == Healthy
  }

  /** An event that cannot touch the counter `key`: a clock tick, an exempt
      or client-less request, or a request counted under another key, each
      under any store fault and handler outcome. */
  predicate Elsewhere(e: Event, key: string) {
    e.Tick? || !Counted(e.req) || KeyOf(e.req) != key
  }

  /** Traffic of the counter `key` mixed with anything that leaves it alone. */
  predicate Traffic(events: seq<Event>, key: string) {
    forall i :: 0 <= i < |events| ==> Own(events[i], key) || Elsewhere(events[i], key)
  }

  /** The number of requests counted under `key` in a run. */
  function Mine(events: seq<Event>, key: string): nat {
    if events == [] then 0
    else Mine(events[..|events| - 1], key) + (if Own(events[|events| - 1], key) then 1 else 0)
  }

  /** The time into the run at which the first request counted under `key`
      arrived (meaningful once there is one). */
  function Anchor(events: seq<Event>, key: string): nat {
    if events == [] then 0
    else
      var before := events[..|events| - 1];
      if Mine(before, key) > 0 then Anchor(before, key) else Elapsed(before)
  }

  /** The run ends before the window opened by its first request under
      `key` is over. */
  predicate InWindow(events: seq<Event>, key: string, window: int) {
    Mine(events, key) > 0 ==> Elapsed(events) < Anchor(events, key) + window
  }

  /** The answer the fixed window gives to the request numbered `j` (from 0)
      of a window: forwarded up to the limit, rejected after it. */
  function Expected(limit: int, j: nat, handlerFails: bool): Response {
    if j < limit then Handler(handlerFails) else Rejection()
  }

  /** Replaying a run in two parts is replaying it whole. */
  lemma {:induction false} ReplayAppend(s: State, limit: int, window: int, a: seq<Event>, b: seq<Event>)
    ensures var first := Replay(s, limit, window, a);
            var second := Replay(first.store, limit, window, b);
            Replay(s, limit, window, a + b) == Run(second.store, first.responses + second.responses)
    decreases |b|
  {
    if b == [] {
      assert a + b == a;
    } else {
      var b' := b[..|b| - 1];
      assert (a + b)[..|a + b| - 1] == a + b';
      assert (a + b)[|a + b| - 1] == b[|b| - 1];
      ReplayAppend(s, limit, window, a, b');
    }
  }

  /** An event adds the answer to its request, if it is one, and nothing else. */
  lemma {:induction false} ApplyResponses(r: Run, limit: int, window: int, e: Event)
    ensures e.Tick? ==> Apply(r, limit, window, e).responses == r.responses
    ensures e.Hit? ==> Apply(r, limit, window, e).responses
                       == r.responses + [Admit(r.store, limit, window, e.req, e.fault, e.handlerFails).response]
  {
  }

  /** The store holds under `key` the counter of `n` requests, lapsing at
      `expiry`; or nothing, when `n` is 0. */
  predicate CounterAt(st: State, key: string, n: nat, expiry: nat) {
    if n == 0 then key !in st.entries else key in st.entries && st.entries[key] == Entry(n, Some(expiry))
  }

  /** A request counted under `key` after `n` others in its window gets
      Expected(limit, n, ...) and counts; the first one sets the expiry. */
  lemma {:induction false} OwnStep(st: State, limit: int, window: int, key: string, n: nat, expiry: nat, e: Event)
    requires window > 0 && Own(e, key) && CounterAt(st, key, n, expiry)
    ensures var step := Admit(st, limit, window, e.req, e.fault, e.handlerFails);
            step.response == Expected(limit, n, e.handlerFails)
            && CounterAt(step.store, key, n + 1, if n == 0 then st.now + window else expiry)
  {
  }

  /** A request that is not counted under `key` leaves its counter alone. */
  lemma {:induction false} ElsewhereStep(st: State, limit: int, window: int, key: string, n: nat, expiry: nat, e: Event)
    requires e.Hit? && Elsewhere(e, key) && CounterAt(st, key, n, expiry)
    ensures CounterAt(Admit(st, limit, window, e.req, e.fault, e.handlerFails).store, key, n, expiry)
  {
    if Counted(e.req) {
      OtherKeysUntouched(st, limit, window, e.req, e.fault, e.handlerFails, key);
    }
  }

  /** Time that stops short of the expiry leaves the counter alone; time
      that reaches it removes the counter. */
  lemma {:induction false} TickStep(st: State, key: string, n: nat, expiry: nat, dt: nat)
    requires CounterAt(st, key, n, expiry)
    ensures n > 0 && st.now + dt < expiry ==> CounterAt(Advanced(st, dt), key, n, expiry)
    ensures n == 0 || st.now + dt >= expiry ==> key !in Advanced(st, dt).entries
  {
    if n > 0 {
      LapseExactly(st, key, dt);
    }
  }

  /** One more event on top of a run that holds the counter of `key`
      within its window keeps it so. */
  lemma {:induction false} CounterStep(s: State, limit: int, window: int, key: string, events: seq<Event>)
    requires window > 0 && events != []
    requires Own(events[|events| - 1], key) || Elsewhere(events[|events| - 1], key)
    requires InWindow(events, key, window)
    requires var prefix := events[..|events| - 1];
             CounterAt(Replay(s, limit, window, prefix).store, key, Mine(prefix, key), s.now + Anchor(prefix, key) + window)
    ensures CounterAt(Replay(s, limit, window, events).store, key, Mine(events, key), s.now + Anchor(events, key) + window)
  {
    var n := |events| - 1;
    var prefix := events[..n];
    var before := Replay(s, limit, window, prefix).store;
    var expiry := s.now + Anchor(prefix, key) + window;
    var last := events[n];
    if last.Tick? {
      TickStep(before, key, Mine(prefix, key), expiry, last.seconds);
    } else if Own(last, key) {
      OwnStep(before, limit, window, key, Mine(prefix, key), expiry, last);
    } else {
      ElsewhereStep(before, limit, window, key, Mine(prefix, key), expiry, last);
    }
  }

  /** The counter of a run within one window from a fresh counter, whatever
      other traffic is mixed in: it holds the number of its requests so far
      and lapses exactly `window` seconds after the first of them. */
  lemma {:induction false} WindowCounter(s: State, limit: int, window: int, key: string, events: seq<Event>)
    requires window > 0 && key !in s.entries
    requires Traffic(events, key) && InWindow(events, key, window)
    ensures CounterAt(Replay(s, limit, window, events).store, key, Mine(events, key), s.now + Anchor(events, key) + window)
    decreases |events|
  {
    if events != [] {
      DropLast(events, key, window);
      WindowCounter(s, limit, window, key, events[..|events| - 1]);
      CounterStep(s, limit, window, key, events);
    }
  }

  /** Dropping the last event keeps a run mixed traffic of `key` within its window. */
  lemma {:induction false} DropLast(events: seq<Event>, key: string, window: int)
    requires events != [] && Traffic(events, key) && InWindow(events, key, window)
    ensures Traffic(events[..|events| - 1], key) && InWindow(events[..|events| - 1], key, window)
  {
    var prefix := events[..|events| - 1];
    forall i | 0 <= i < |prefix| ensures Own(prefix[i], key) || Elsewhere(prefix[i], key) {
      assert prefix[i] == events[i];
    }
  }

  /** An event leaves every answer already given where it was. */
  lemma {:induction false} ApplyKeeps(r: Run, limit: int, window: int, e: Event, k: nat)
    requires k < |r.responses|
    ensures k < |Apply(r, limit, window, e).responses|
            && Apply(r, limit, window, e).responses[k] == r.responses[k]
  {
    ApplyResponses(r, limit, window, e);
  }

  /** The answer to the last event of a run within one window from a fresh
      counter, when it is a request counted under `key`. */
  lemma {:induction false} LastAnswer(s: State, limit: int, window: int, key: string, events: seq<Event>)
    requires window > 0 && key !in s.entries
    requires Traffic(events, key) && InWindow(events, key, window)
    requires events != [] && Own(events[|events| - 1], key)
    ensures var r := Replay(s, limit, window, events);
            var prefix := events[..|events| - 1];
            Hits(prefix) < |r.responses|
            && r.responses[Hits(prefix)] == Expected(limit, Mine(prefix, key), events[|events| - 1].handlerFails)
  {
    var n := |events| - 1;
    var prefix := events[..n];
    DropLast(events, key, window);
    WindowCounter(s, limit, window, key, prefix);
    var before := Replay(s, limit, window, prefix);
    OwnStep(before.store, limit, window, key, Mine(prefix, key), s.now + Anchor(prefix, key) + window, events[n]);
    ApplyResponses(before, limit, window, events[n]);
  }

  /** The answer to one request of a run within one window from a fresh
      counter: the request numbered j under `key` gets Expected(limit, j, ...). */
  lemma {:induction false} AnswerAt(s: State, limit: int, window: int, key: string, events: seq<Event>, i: nat)
    requires window > 0 && key !in s.entries
    requires Traffic(events, key) && InWindow(events, key, window)
    requires i < |events| && Own(events[i], key)
    ensures var r := Replay(s, limit, window, events);
            Hits(events[..i]) < |r.responses|
            && r.responses[Hits(events[..i])] == Expected(limit, Mine(events[..i], key), events[i].handlerFails)
    decreases |events|
  {
    var n := |events| - 1;
    var prefix := events[..n];
    if i < n {
      DropLast(events, key, window);
      assert events[..i] == prefix[..i];
      assert prefix[i] == events[i];
      AnswerAt(s, limit, window, key, prefix, i);
      ApplyKeeps(Replay(s, limit, window, prefix), limit, window, events[n], Hits(prefix[..i]));
    } else {
      assert events[..i] == prefix;
      LastAnswer(s, limit, window, key, events);
    }
  }

  /** The answers within one window from a fresh counter: the request
      numbered j under `key` got Expected(limit, j, ...). */
  lemma {:induction false} WindowInvariant(s: State, limit: int, window: int, key: string, events: seq<Event>)
    requires window > 0 && key !in s.entries
    requires Traffic(events, key) && InWindow(events, key, window)
    ensures var r := Replay(s, limit, window, events);
            forall i :: 0 <= i < |events| && Own(events[i], key) ==>
              Hits(events[..i]) < |r.responses|
              && r.responses[Hits(events[..i])] == Expected(limit, Mine(events[..i], key), events[i].handlerFails)
  {
    forall i | 0 <= i < |events| && Own(events[i], key)
      ensures var r := Replay(s, limit, window, events);
              Hits(events[..i]) < |r.responses|
              && r.responses[Hits(events[..i])] == Expected(limit, Mine(events[..i], key), events[i].handlerFails)
    {
      AnswerAt(s, limit, window, key, events, i);
    }
  }

  /** With limit L, a fresh counter forwards its first L requests and
      rejects every later one until its window is over, whatever traffic
      for other keys is mixed in. */
  lemma {:induction false} FixedWindow(s: State, limit: int, window: int, key: string, events: seq<Event>)
    requires window > 0 && key !in s.entries
    requires Traffic(events, key) && InWindow(events, key, window)
    ensures var r := Replay(s, limit, window, events);
            forall i :: 0 <= i < |events| && Own(events[i], key) ==>
              Hits(events[..i]) < |r.responses|
              && (r.responses[Hits(events[..i])] == Rejection() <==> Mine(events[..i], key) + 1 > limit)
              && (Mine(events[..i], key) + 1 <= limit ==> r.responses[Hits(events[..i])] == Handler(events[i].handlerFails))
  {
    WindowInvariant(s, limit, window, key, events);
  }

  /** Events added after a run leave the answers already given alone. */
  lemma {:induction false} AnswerKept(s: State, limit: int, window: int, a: seq<Event>, b: seq<Event>, k: nat)
    requires k < Hits(a)
    ensures var r := Replay(s, limit, window, a + b);
            k < |r.responses| && r.responses[k] == Replay(s, limit, window, a).responses[k]
  {
    ReplayAppend(s, limit, window, a, b);
  }

  /** An answer given within the first window stays as it was whatever
      follows. */
  lemma {:induction false} FirstAnswerAt(s: State, limit: int, window: int, key: string,
                                         first: seq<Event>, later: seq<Event>, i: nat)
    requires window > 0 && key !in s.entries
    requires Traffic(first, key) && InWindow(first, key, window)
    requires i < |first| && Own(first[i], key)
    ensures var r := Replay(s, limit, window, first + later);
            Hits(first[..i]) < |r.responses|
            && r.responses[Hits(first[..i])] == Expected(limit, Mine(first[..i], key), first[i].handlerFails)
  {
    AnswerAt(s, limit, window, key, first, i);
    AnswerKept(s, limit, window, first, later, Hits(first[..i]));
  }

  /** The counter lapses exactly at the first request's time plus the
      window: a tick that brings the clock to it removes the counter,
      however many requests came in between, and adds no answer. */
  lemma {:induction false} CounterLapses(s: State, limit: int, window: int, key: string,
                                         first: seq<Event>, dt: nat)
    requires window > 0 && key !in s.entries
    requires Traffic(first, key) && InWindow(first, key, window)
    requires Mine(first, key) > 0 ==> Elapsed(first) + dt >= Anchor(first, key) + window
    ensures var mid := Replay(s, limit, window, first + [Tick(dt)]);
            key !in mid.store.entries && |mid.responses| == Hits(first)
  {
    var one := Replay(s, limit, window, first);
    WindowCounter(s, limit, window, key, first);
    TickStep(one.store, key, Mine(first, key), s.now + Anchor(first, key) + window, dt);
    ReplayAppend(s, limit, window, first, [Tick(dt)]);
    assert [Tick(dt)][..0] == [];
  }

  /** After the clock has reached the expiry the first request of `first`
      set, the request numbered j under `key` in `second` gets
      Expected(limit, j, ...) again: the count has started over. */
  lemma {:induction false} RestartAnswerAt(s: State, limit: int, window: int, key: string,
                                           first: seq<Event>, dt: nat, second: seq<Event>, i: nat)
    requires window > 0 && key !in s.entries
    requires Traffic(first, key) && InWindow(first, key, window)
    requires Traffic(second, key) && InWindow(second, key, window)
    requires Mine(first, key) > 0 ==> Elapsed(first) + dt >= Anchor(first, key) + window
    requires i < |second| && Own(second[i], key)
    ensures var r := Replay(s, limit, window, first + [Tick(dt)] + second);
            Hits(first) + Hits(second[..i]) < |r.responses|
            && r.responses[Hits(first) + Hits(second[..i])]
               == Expected(limit, Mine(second[..i], key), second[i].handlerFails)
  {
    var mid := Replay(s, limit, window, first + [Tick(dt)]);
    CounterLapses(s, limit, window, key, first, dt);
    AnswerAt(mid.store, limit, window, key, second, i);
    ReplayAppend(s, limit, window, first + [Tick(dt)], second);
    var rest := Replay(mid.store, limit, window, second);
    var r := Replay(s, limit, window, first + [Tick(dt)] + second);
    assert r.responses[|mid.responses| + Hits(second[..i])] == rest.responses[Hits(second[..i])];
  }

  /** Once the clock reaches the expiry the first request set, the counter
      is gone, even if requests kept coming until then, and the next run
      counts again from 1. */
  lemma {:induction false} WindowRestarts(s: State, limit: int, window: int, key: string,
                                          first: seq<Event>, dt: nat, second: seq<Event>)
    requires window > 0 && key !in s.entries
    requires Traffic(first, key) && InWindow(first, key, window)
    requires Traffic(second, key) && InWindow(second, key, window)
    requires Mine(first, key) > 0 ==> Elapsed(first) + dt >= Anchor(first, key) + window
    ensures var r := Replay(s, limit, window, first + [Tick(dt)] + second);
            && (forall i :: 0 <= i < |first| && Own(first[i], key) ==>
                  Hits(first[..i]) < |r.responses|
                  && r.responses[Hits(first[..i])] == Expected(limit, Mine(first[..i], key), first[i].handlerFails))
            && (forall i :: 0 <= i < |second| && Own(second[i], key) ==>
                  Hits(first) + Hits(second[..i]) < |r.responses|
                  && r.responses[Hits(first) + Hits(second[..i])]
                     == Expected(limit, Mine(second[..i], key), second[i].handlerFails))
  {
    assert first + [Tick(dt)] + second == first + ([Tick(dt)] + second);
    forall i | 0 <= i < |first| && Own(first[i], key)
      ensures var r := Replay(s, limit, window, first + [Tick(dt)] + second);
              Hits(first[..i]) < |r.responses|
              && r.responses[Hits(first[..i])] == Expected(limit, Mine(first[..i], key), first[i].handlerFails)
    {
      FirstAnswerAt(s, limit, window, key, first, [Tick(dt)] + second, i);
    }
    forall i | 0 <= i < |second| && Own(second[i], key)
      ensures var r := Replay(s, limit, window, first + [Tick(dt)] + second);
              Hits(first) + Hits(second[..i]) < |r.responses|
              && r.responses[Hits(first) + Hits(second[..i])]
                 == Expected(limit, Mine(second[..i], key), second[i].handlerFails)
    {
      RestartAnswerAt(s, limit, window, key, first, dt, second, i);
    }
  }

  /** How the run's measures grow by one event. */
  lemma {:induction false} Snoc(events: seq<Event>, e: Event, key: string)
    ensures var ev := events + [e];
            && Hits(ev) == Hits(events) + (if e.Hit? then 1 else 0)
            && Elapsed(ev) == Elapsed(events) + (if e.Tick? then e.seconds else 0)
            && Mine(ev, key) == Mine(events, key) + (if Own(e, key) then 1 else 0)
            && Anchor(ev, key) == if Mine(events, key) > 0 then Anchor(events, key) else Elapsed(events)
  {
    assert (events + [e])[..|events|] == events;
  }

  /** Two runs with a tick between them answer every request of both. */
  lemma {:induction false} RunLength(s: State, limit: int, window: int, first: seq<Event>, dt: nat, second: seq<Event>)
    ensures |Replay(s, limit, window, first + [Tick(dt)] + second).responses| == Hits(first) + Hits(second)
  {
    ReplayAppend(s, limit, window, first, [Tick(dt)]);
    assert [Tick(dt)][..0] == [];
    ReplayAppend(s, limit, window, first + [Tick(dt)], second);
  }

  /** The measures of the worked example's first window: three requests at once. */
  lemma {:induction false} TestLimitFirstMeasures(hit: Event, key: string)
    requires Own(hit, key)
    ensures var first := [hit, hit, hit];
            && Hits(first[..0]) == 0 && Hits(first[..1]) == 1 && Hits(first[..2]) == 2 && Hits(first) == 3
            && Mine(first[..0], key) == 0 && Mine(first[..1], key) == 1 && Mine(first[..2], key) == 2
            && Mine(first, key) == 3 && Elapsed(first) == 0 && Anchor(first, key) == 0
            && Traffic(first, key)
  {
    var one, two, first := [hit], [hit, hit], [hit, hit, hit];
    assert one == [] + [hit] && two == one + [hit] && first == two + [hit];
    Snoc([], hit, key);
    Snoc(one, hit, key);
    Snoc(two, hit, key);
    assert first[..0] == [] && first[..1] == one && first[..2] == two;
  }

  /** The measures of a run of one request. */
  lemma {:induction false} SingleMeasures(hit: Event, key: string)
    requires Own(hit, key)
    ensures var second := [hit];
            && Hits(second[..0]) == 0 && Hits(second) == 1
            && Mine(second[..0], key) == 0 && Mine(second, key) == 1
            && Elapsed(second) == 0 && Anchor(second, key) == 0
            && Traffic(second, key)
  {
    assert [hit] == [] + [hit] && [hit][..0] == [];
    Snoc([], hit, key);
  }

  /** The answers of the worked example, one by one. */
  lemma {:induction false} TestLimitAnswers(s: State, req: Request)
    requires Counted(req) && KeyOf(req) !in s.entries
    ensures var hit := Hit(req, Healthy, false);
            var r := Replay(s, 2, 60, [hit, hit, hit] + [Tick(60)] + [hit]);
            |r.responses| == 4
            && r.responses[0] == Passed && r.responses[1] == Passed
            && r.responses[2] == Rejection() && r.responses[3] == Passed
  {
    var key := KeyOf(req);
    var hit := Hit(req, Healthy, false);
    assert Own(hit, key);
    var first, second := [hit, hit, hit], [hit];
    TestLimitFirstMeasures(hit, key);
    SingleMeasures(hit, key);
    assert first + [Tick(60)] + second == first + ([Tick(60)] + second);
    RunLength(s, 2, 60, first, 60, second);
    FirstAnswerAt(s, 2, 60, key, first, [Tick(60)] + second, 0);
    FirstAnswerAt(s, 2, 60, key, first, [Tick(60)] + second, 1);
    FirstAnswerAt(s, 2, 60, key, first, [Tick(60)] + second, 2);
    RestartAnswerAt(s, 2, 60, key, first, 60, second, 0);
  }

  /** The worked example, for any counted request whose counter the store
      does not hold: with limit 2 and a 60-second window, three quick
      requests get 200, 200, 429, and a fourth once the counter has lapsed
      gets 200 again. */
  lemma {:induction false} TestLimitScenario(s: State, req: Request)
    requires Counted(req) && KeyOf(req) !in s.entries
    ensures var hit := Hit(req, Healthy, false);
            Replay(s, 2, 60, [hit, hit, hit, Tick(60), hit]).responses
            == [Passed, Passed, Rejection(), Passed]
  {
    var hit := Hit(req, Healthy, false);
    TestLimitAnswers(s, req);
    assert [hit, hit, hit] + [Tick(60)] + [hit] == [hit, hit, hit, Tick(60), hit];
  }

  /** The measures of the burst's first window: a request, 59 seconds,
      another request. */
  lemma {:induction false} BurstFirstMeasures(hit: Event, key: string)
    requires Own(hit, key)
    ensures var first := [hit, Tick(59), hit];
            && Hits(first[..0]) == 0 && Hits(first[..2]) == 1 && Hits(first) == 2
            && Mine(first[..0], key) == 0 && Mine(first[..2], key) == 1 && Mine(first, key) == 2
            && Elapsed(first) == 59 && Anchor(first, key) == 0 && Traffic(first, key)
  {
    var one, wait, first := [hit], [hit, Tick(59)], [hit, Tick(59), hit];
    assert one == [] + [hit] && wait == one + [Tick(59)] && first == wait + [hit];
    Snoc([], hit, key);
    Snoc(one, Tick(59), key);
    Snoc(wait, hit, key);
    assert first[..0] == [] && first[..2] == wait;
    forall i | 0 <= i < |first| ensures Own(first[i], key) || Elsewhere(first[i], key) {
      if i == 1 {
        assert first[i] == Tick(59);
      } else {
        assert first[i] == hit;
      }
    }
  }

  /** The measures of the burst's second window: two requests at once. */
  lemma {:induction false} BurstSecondMeasures(hit: Event, key: string)
    requires Own(hit, key)
    ensures var second := [hit, hit];
            && Hits(second[..0]) == 0 && Hits(second[..1]) == 1 && Hits(second) == 2
            && Mine(second[..0], key) == 0 && Mine(second[..1], key) == 1 && Mine(second, key) == 2
            && Elapsed(second) == 0 && Anchor(second, key) == 0 && Traffic(second, key)
  {
    var one, second := [hit], [hit, hit];
    assert one == [] + [hit] && second == one + [hit];
    Snoc([], hit, key);
    Snoc(one, hit, key);
    assert second[..0] == [] && second[..1] == one;
  }

  /** The answers of the burst, one by one. */
  lemma {:induction false} BurstAnswers(s: State, req: Request)
    requires Counted(req) && KeyOf(req) !in s.entries
    ensures var hit := Hit(req, Healthy, false);
            var r := Replay(s, 2, 60, [hit, Tick(59), hit] + [Tick(1)] + [hit, hit]);
            |r.responses| == 4
            && r.responses[0] == Passed && r.responses[1] == Passed
            && r.responses[2] == Passed && r.responses[3] == Passed
  {
    var key := KeyOf(req);
    var hit := Hit(req, Healthy, false);
    assert Own(hit, key);
    var first, second := [hit, Tick(59), hit], [hit, hit];
    BurstFirstMeasures(hit, key);
    BurstSecondMeasures(hit, key);
    assert first + [Tick(1)] + second == first + ([Tick(1)] + second);
    RunLength(s, 2, 60, first, 1, second);
    FirstAnswerAt(s, 2, 60, key, first, [Tick(1)] + second, 0);
    FirstAnswerAt(s, 2, 60, key, first, [Tick(1)] + second, 2);
    RestartAnswerAt(s, 2, 60, key, first, 1, second, 0);
    RestartAnswerAt(s, 2, 60, key, first, 1, second, 1);
  }

  /** The fixed window lets through a burst of twice the limit across its
      boundary: with limit 2 and a 60-second window, a request at 0 s, one
      at 59 s and two at 60 s are all forwarded, four within one second. */
  lemma {:induction false} BurstAcrossBoundary(s: State, req: Request)
    requires Counted(req) && KeyOf(req) !in s.entries
    ensures var hit := Hit(req, Healthy, false);
            Replay(s, 2, 60, [hit, Tick(59), hit, Tick(1), hit, hit]).responses
            == [Passed, Passed, Passed, Passed]
  {
    var hit := Hit(req, Healthy, false);
    BurstAnswers(s, req);
    assert [hit, Tick(59), hit] + [Tick(1)] + [hit, hit] == [hit, Tick(59), hit, Tick(1), hit, hit];
  }

  /** The same example through the middleware object: a fresh store, the
      handler of /test-limit, three requests, a minute on the store's
      clock, and one more request. */
  method TestLimitThroughMiddleware() returns (responses: seq<Response>)
    ensures responses == [Passed, Passed, Rejection(), Passed]
  {
    var redis := new CounterStore(State(map[], 0));
    var app := new Downstream();
    var gate := new RateLimiterMiddleware(app, redis, 2, 60);
    var req := Request(Some("1.2.3.4"), "/test-limit");
    assert !IsExempt(req.path) by {
      assert req.path[1] != MetricsPrefix[1];
    }
    var key := KeyOf(req);
    var hit := Hit(req, Healthy, false);
    assert Own(hit, key);
    ghost var s0 := redis.Snapshot();
    var a := gate.Dispatch(req, Healthy, false);
    OwnStep(s0, 2, 60, key, 0, 0, hit);
    ghost var s1 := redis.Snapshot();
    var b := gate.Dispatch(req, Healthy, false);
    OwnStep(s1, 2, 60, key, 1, 60, hit);
    ghost var s2 := redis.Snapshot();
    var c := gate.Dispatch(req, Healthy, false);
    OwnStep(s2, 2, 60, key, 2, 60, hit);
    ghost var s3 := redis.Snapshot();
    redis.AdvanceTime(60);
    TickStep(s3, key, 3, 60, 60);
    ghost var s4 := redis.Snapshot();
    var d := gate.Dispatch(req, Healthy, false);
    OwnStep(s4, 2, 60, key, 0, 0, hit);
    responses := [a, b, c, d];
  }
}
