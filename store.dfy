/** The shared counter store the rate limiter talks to: a key-value store
    with an atomic INCR, an EXPIRE that gives a key a time-to-live, and the
    store's own clock that makes keys lapse. Only what the gate uses is here.
    Times are whole seconds on the store's clock. */
module Store {

  datatype Option<+T> = None | Some(value: T)

  /** How one round trip to the store ends. Delivered: applied and
      answered. Dropped: it never reached the store (refused connection,
      a timeout before sending), so nothing was applied. ReplyLost: the
      store applied it but the answer never came back (the connection
      dropped, a read timed out). Only a delivered command returns a value;
      the other two raise in the caller. */
  datatype Delivery = Delivered | Dropped | ReplyLost

  /** One counter: its value and the absolute time at which it lapses, if any. */
  datatype Entry = Entry(count: int, expiresAt: Option<nat>)

  /** Everything the store holds, and the store's clock. */
  datatype State = State(entries: map<string, Entry>, now: nat)

  /** A counter whose time-to-live has run out by time `t`. Times are whole
      seconds, and a counter counts as lapsed from the second its expiry is
      reached; the store's own millisecond clock keeps it until strictly
      after that instant, which whole seconds do not show. */
  predicate Lapsed(e: Entry, t: nat) {
    e.expiresAt.Some? && e.expiresAt.value <= t
  }

  /** The store invariant: every counter was made by INCR, so it is positive,
      and no counter the store still holds has lapsed. */
  predicate Live(s: State) {
    forall k :: k in s.entries ==> s.entries[k].count >= 1 && !Lapsed(s.entries[k], s.now)
  }

  /** Two key-value maps hold the same thing (or nothing) under `k`. */
  predicate SameOn(a: map<string, Entry>, b: map<string, Entry>, k: string) {
    (k in a <==> k in b) && (k in a ==> a[k] == b[k])
  }

  /** The value a counter reads as: an absent key counts as 0, as INCR sees it. */
  function CountOf(s: State, key: string): int {
    if key in s.entries then s.entries[key].count else 0
  }

  /** INCR key: the counter goes up by one (an absent key starts at 0) and
      keeps whatever time-to-live it had; nothing else changes. */
  function Incremented(s: State, key: string): (r: State)
    ensures r.now == s.now
    ensures key in r.entries && CountOf(r, key) == CountOf(s, key) + 1
    ensures key in s.entries ==> r.entries[key].expiresAt == s.entries[key].expiresAt
    ensures key !in s.entries ==> r.entries[key].expiresAt == None
    ensures forall k :: k != key ==> SameOn(s.entries, r.entries, k)
    ensures Live(s) ==> Live(r)
  {
    var e := if key in s.entries then s.entries[key] else Entry(0, None);
    State(s.entries[key := e.(count := e.count + 1)], s.now)
  }

  /** EXPIRE key seconds: a held key lapses `seconds` from now; a
      non-positive time-to-live deletes it at once; an absent key is left
      absent. Nothing else changes. */
  function WithExpiry(s: State, key: string, seconds: int): (r: State)
    ensures r.now == s.now
    ensures key in r.entries <==> key in s.entries && seconds > 0
    ensures key in r.entries ==> r.entries[key] == Entry(s.entries[key].count, Some(s.now + seconds))
    ensures forall k :: k != key ==> SameOn(s.entries, r.entries, k)
    ensures Live(s) ==> Live(r)
  {
    if key !in s.entries then s
    else if seconds <= 0 then State(s.entries - {key}, s.now)
    else State(s.entries[key := s.entries[key].(expiresAt := Some(s.now + seconds))], s.now)
  }

  /** The store's clock moves on by `dt` seconds and every counter whose
      time-to-live has run out by then is dropped; the others are untouched. */
  function Advanced(s: State, dt: nat): (r: State)
    ensures r.now == s.now + dt
    ensures forall k :: k in r.entries <==> k in s.entries && !Lapsed(s.entries[k], s.now + dt)
    ensures forall k :: k in r.entries ==> r.entries[k] == s.entries[k]
    ensures Live(s) ==> Live(r)
  {
    State(map k | k in s.entries && !Lapsed(s.entries[k], s.now + dt) :: s.entries[k], s.now + dt)
  }

  /** A counter that lapses at time `x` is gone once the clock reaches `x`,
      and one without a time-to-live is never dropped. */
  lemma LapseExactly(s: State, key: string, dt: nat)
    requires key in s.entries
    ensures s.entries[key].expiresAt.None? ==> key in Advanced(s, dt).entries
    ensures s.entries[key].expiresAt.Some? ==>
              (key in Advanced(s, dt).entries <==> s.now + dt < s.entries[key].expiresAt.value)
  {
  }

  /** The store process: one handle shared by every request. */
  class CounterStore {
    var entries: map<string, Entry>
    var now: nat

    function Snapshot(): State
      reads this
    {
      State(entries, now)
    }

    ghost predicate Valid()
      reads this
    {
      Live(Snapshot())
    }

    /** A handle on a store that already holds `initial`, which may be
        counters left by other instances of the application. */
    constructor (initial: State)
      requires Live(initial)
      ensures Valid() && Snapshot() == initial
    {
      entries := initial.entries;
      now := initial.now;
    }

    /** INCR key. Unless the command is delivered and answered, the caller
        gets no count; the store has applied it unless it was dropped. */
    method Incr(key: string, delivery: Delivery) returns (current: Option<int>)
      requires Valid()
      modifies this
      ensures Valid()
      ensures Snapshot() == if delivery == Dropped then old(Snapshot()) else Incremented(old(Snapshot()), key)
      ensures current.Some? <==> delivery == Delivered
      ensures current.Some? ==> current.value == CountOf(Snapshot(), key) && current.value == old(CountOf(Snapshot(), key)) + 1
    {
      if delivery == Dropped {
        return None;
      }
      var e := if key in entries then entries[key] else Entry(0, None);
      entries := entries[key := e.(count := e.count + 1)];
      current := if delivery == Delivered then Some(e.count + 1) else None;
    }

    /** EXPIRE key seconds; answers whether the key was held, unless the
        command is not answered. The store has applied it unless it was
        dropped. */
    method Expire(key: string, seconds: int, delivery: Delivery) returns (held: Option<bool>)
      requires Valid()
      modifies this
      ensures Valid()
      ensures Snapshot() == if delivery == Dropped then old(Snapshot()) else WithExpiry(old(Snapshot()), key, seconds)
      ensures held.Some? <==> delivery == Delivered
      ensures held.Some? ==> held.value == (key in old(entries))
    {
      if delivery == Dropped {
        return None;
      }
      held := if delivery == Delivered then Some(key in entries) else None;
      if key in entries {
        if seconds <= 0 {
          entries := entries - {key};
        } else {
          entries := entries[key := entries[key].(expiresAt := Some(now + seconds))];
        }
      }
    }

    /** The store's clock moves on by `dt` seconds; lapsed counters go. */
    method AdvanceTime(dt: nat)
      requires Valid()
      modifies this
      ensures Valid()
      ensures Snapshot() == Advanced(old(Snapshot()), dt)
    {
      now := now + dt;
      entries := map k | k in entries && !Lapsed(entries[k], now) :: entries[k];
    }
  }
}
