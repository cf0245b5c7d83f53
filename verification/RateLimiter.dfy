/** The in-memory sliding-window limiter of common/rate-limit.go. Times are whole seconds, as
    in the code; the clock is an argument. */
module RateLimiter {

  /** A key as the callers build it: the name of the limit followed by the client's address. */
  type Key(==, !new)

  type Store = map<Key, seq<int>>

  // ---------------------------------------------------------------- the limiter

  /** The queue of one key after a request, and whether the request passes. */
  function Admit(queue: seq<int>, limit: int, window: int, now: int): (r: (seq<int>, bool))
    requires queue != []
  {
    if |queue| < limit then (queue + [now], true)
    else if now - queue[0] >= window then (queue[1..] + [now], true)
    else (queue, false)
  }

  /** A request is let through, turned away, or stopped by a panic: the code cannot make a new queue with a negative
      capacity. */
  datatype Answer = Pass | Refuse | Panic

  function AfterRequest(store: Store, key: Key, limit: int, window: int, now: int): (Store, Answer)
    requires key in store ==> store[key] != []
  {
    if key in store then
      var (queue, ok) := Admit(store[key], limit, window, now);
      (store[key := queue], if ok then Pass else Refuse)
    else if limit < 0 then (store, Panic)
    else (store[key := [now]], Pass)
  }

  predicate Expired(queue: seq<int>, expiry: int, now: int) {
    queue == [] || now - queue[|queue| - 1] > expiry
  }

  function AfterSweep(store: Store, expiry: int, now: int): Store {
    map key | key in store && !Expired(store[key], expiry, now) :: store[key]
  }

  class Limiter {
    var store: Store
    const expiry: int  // expirationDuration in whole seconds

    ghost predicate Valid()
      reads this
    {
      forall key <- store :: store[key] != []
    }

    constructor (expiry: int)
      ensures Valid() && store == map[] && this.expiry == expiry
    {
      this.store := map[];
      this.expiry := expiry;
    }

    method Request(key: Key, limit: int, window: int, now: int) returns (answer: Answer)
      requires Valid()
      modifies this
      ensures Valid()
      ensures (store, answer) == AfterRequest(old(store), key, limit, window, now)
    {
      if key in store {
        var queue := store[key];
        if |queue| < limit {
          store := store[key := queue + [now]];
          return Pass;
        } else if now - queue[0] >= window {
          queue := queue[1..];
          queue := queue + [now];
          store := store[key := queue];
          return Pass;
        } else {
          assert store == store[key := queue];
          return Refuse;
        }
      } else {
        if limit < 0 {
          return Panic;
        }
        store := store[key := [now]];
      }
      return Pass;
    }

    /** One round of clearExpiredItems: visit every key and delete the expired ones. */
    method Sweep(now: int)
      requires Valid()
      modifies this
      ensures Valid()
      ensures store == AfterSweep(old(store), expiry, now)
    {
      var pending := store.Keys;
      while pending != {}
        invariant pending <= store.Keys <= old(store).Keys
        invariant forall key <- store :: store[key] == old(store)[key]
        invariant forall key :: key in old(store) && key !in pending ==>
                    (key in store <==> !Expired(old(store)[key], expiry, now))
        decreases pending
      {
        var key :| key in pending;
        pending := pending - {key};
        var queue := store[key];
        if |queue| == 0 || now - queue[|queue| - 1] > expiry {
          store := store - {key};
        }
      }
    }
  }

  // ---------------------------------------------------------------- runs

  /** How each key is limited. The callers build a limit into the key's prefix, so one key
      always comes with the same limit and window. */
  datatype Policy = Policy(limit: Key -> int, window: Key -> int, expiry: int)

  datatype Event = Request(key: Key, now: int) | Sweep(now: int)

  predicate Ordered(events: seq<Event>) {
    forall i, j :: 0 <= i < j < |events| ==> events[i].now <= events[j].now
  }

  ghost predicate NonEmptyQueues(store: Store) {
    forall key <- store :: store[key] != []
  }

  /** The store after a run, and for each key the times at which it was let through. */
  ghost function Play(p: Policy, events: seq<Event>): (r: (Store, Key -> seq<int>))
    ensures NonEmptyQueues(r.0)
  {
    if events == [] then (map[], key => [])
    else
      var n := |events| - 1;
      var (store, passed) := Play(p, events[..n]);
      match events[n]
      case Sweep(now) => (AfterSweep(store, p.expiry, now), passed)
      case Request(key, now) =>
        var (store', answer) := AfterRequest(store, key, p.limit(key), p.window(key), now);
        (store', if answer.Pass? then (k => if k == key then passed(key) + [now] else passed(k)) else passed)
  }

  /** The answer to request `events[n]`. */
  ghost predicate Accepts(p: Policy, events: seq<Event>, n: nat)
    requires n < |events| && events[n].Request?
  {
    var key := events[n].key;
    AfterRequest(Play(p, events[..n]).0, key, p.limit(key), p.window(key), events[n].now).1.Pass?
  }

  /** How many of the times are younger than the window. */
  function Young(times: seq<int>, window: int, now: int): nat {
    if times == [] then 0
    else Young(times[..|times| - 1], window, now) + if now - times[|times| - 1] < window then 1 else 0
  }

  /** A limit of zero acts as one: a key without a queue is always let through. */
  function Cap(limit: int): int {
    if limit < 1 then 1 else limit
  }

  /** The rule over the whole history, with no queue bound and no eviction. */
  ghost predicate Naive(p: Policy, events: seq<Event>, n: nat)
    requires n < |events| && events[n].Request?
  {
    var key := events[n].key;
    Young(Play(p, events[..n]).1(key), p.window(key), events[n].now) < Cap(p.limit(key))
  }

  // ---------------------------------------------------------------- proof

  predicate Sorted(times: seq<int>) {
    forall i, j :: 0 <= i < j < |times| ==> times[i] <= times[j]
  }

  /** In a sorted history the naive count is decided by a single entry. */
  lemma {:induction false} YoungIsDecidedByOne(times: seq<int>, window: int, now: int, cap: int)
    requires Sorted(times) && cap >= 1
    ensures Young(times, window, now) < cap <==>
            (|times| < cap || now - times[|times| - cap] >= window)
    ensures Young(times, window, now) <= |times|
  {
    if times != [] {
      var front := times[..|times| - 1];
      if cap > 1 {
        YoungIsDecidedByOne(front, window, now, cap - 1);
      } else {
        YoungIsDecidedByOne(front, window, now, 1);
      }
    }
  }

  /** The queue is a suffix of the history; what was forgotten is older than the window. */
  predicate QueueOk(queue: seq<int>, history: seq<int>, cap: int, window: int, now: int) {
    && Sorted(history)
    && (history != [] ==> history[|history| - 1] <= now)
    && |queue| <= |history| && |queue| <= cap
    && queue == history[|history| - |queue|..]
    && (|queue| < cap && |queue| < |history| ==> now - history[|history| - |queue| - 1] >= window)
  }

  function QueueOf(store: Store, key: Key): seq<int> {
    if key in store then store[key] else []
  }

  ghost predicate Inv(p: Policy, events: seq<Event>, key: Key, now: int) {
    var (store, passed) := Play(p, events);
    && QueueOk(QueueOf(store, key), passed(key), Cap(p.limit(key)), p.window(key), now)
    && (p.limit(key) < 0 ==> key !in store)
  }

  lemma TimePasses(queue: seq<int>, history: seq<int>, cap: int, window: int, now: int, later: int)
    requires QueueOk(queue, history, cap, window, now) && now <= later
    ensures QueueOk(queue, history, cap, window, later)
  {
  }

  lemma SortedPush(history: seq<int>, now: int)
    requires Sorted(history) && (history != [] ==> history[|history| - 1] <= now)
    ensures Sorted(history + [now])
  {
    assert forall i | 0 <= i < |history| :: history[i] <= history[|history| - 1];
  }

  lemma PushKeepsQueue(queue: seq<int>, history: seq<int>, cap: int, window: int, now: int)
    requires QueueOk(queue, history, cap, window, now) && |queue| < cap
    ensures QueueOk(queue + [now], history + [now], cap, window, now)
  {
    SortedPush(history, now);
    SuffixPush(queue, history, |history| - |queue|, now);
  }

  lemma SuffixPush(queue: seq<int>, history: seq<int>, start: nat, now: int)
    requires start <= |history| && queue == history[start..]
    ensures queue + [now] == (history + [now])[start..]
  {
  }

  lemma SlideKeepsQueue(queue: seq<int>, history: seq<int>, cap: int, window: int, now: int)
    requires QueueOk(queue, history, cap, window, now) && |queue| == cap >= 1
    ensures QueueOk(queue[1..] + [now], history + [now], cap, window, now)
  {
    SortedPush(history, now);
    var start := |history| - |queue| + 1;
    assert queue[1..] == history[start..];
    SuffixPush(queue[1..], history, start, now);
  }

  lemma SweepKeepsQueue(queue: seq<int>, history: seq<int>, cap: int, window: int, expiry: int, now: int)
    requires QueueOk(queue, history, cap, window, now) && window <= expiry + 1
    requires Expired(queue, expiry, now)
    ensures QueueOk([], history, cap, window, now)
  {
    if queue != [] {
      assert queue[|queue| - 1] == history[|history| - 1];
    }
  }

  /** Either the sweeper is harmless for this key or it never ran. */
  predicate Harmless(p: Policy, events: seq<Event>, key: Key) {
    p.window(key) <= p.expiry + 1 || forall i :: 0 <= i < |events| ==> events[i].Request?
  }

  /** The queue and the history of one key after one event. */
  lemma RequestKeepsQueue(queue: seq<int>, history: seq<int>, limit: int, window: int, now: int)
    requires QueueOk(queue, history, Cap(limit), window, now)
    ensures var (queue', ok) := if queue == [] then ([now], true) else Admit(queue, limit, window, now);
            QueueOk(queue', if ok then history + [now] else history, Cap(limit), window, now)
  {
    if queue == [] {
      PushKeepsQueue(queue, history, Cap(limit), window, now);
      assert [] + [now] == [now];
    } else if |queue| < limit {
      PushKeepsQueue(queue, history, limit, window, now);
    } else if now - queue[0] >= window {
      SlideKeepsQueue(queue, history, Cap(limit), window, now);
    }
  }

  lemma StepKeepsQueue(p: Policy, events: seq<Event>, key: Key)
    requires events != [] && Harmless(p, events, key)
    requires Inv(p, events[..|events| - 1], key, events[|events| - 1].now)
    ensures Inv(p, events, key, events[|events| - 1].now)
  {
    var n := |events| - 1;
    var e := events[n];
    var (store, passed) := Play(p, events[..n]);
    var queue, history := QueueOf(store, key), passed(key);
    if e.Sweep? && Expired(queue, p.expiry, e.now) {
      SweepKeepsQueue(queue, history, Cap(p.limit(key)), p.window(key), p.expiry, e.now);
    } else if e.Request? && e.key == key && p.limit(key) >= 0 {
      RequestKeepsQueue(queue, history, p.limit(key), p.window(key), e.now);
    }
  }

  lemma {:induction false} RunKeepsQueue(p: Policy, events: seq<Event>, key: Key, now: int)
    requires Ordered(events) && Harmless(p, events, key)
    requires forall i :: 0 <= i < |events| ==> events[i].now <= now
    ensures Inv(p, events, key, now)
  {
    if events != [] {
      var n := |events| - 1;
      RunKeepsQueue(p, events[..n], key, events[n].now);
      StepKeepsQueue(p, events, key);
      var (store, passed) := Play(p, events);
      TimePasses(QueueOf(store, key), passed(key), Cap(p.limit(key)), p.window(key), events[n].now, now);
    }
  }

  /** One decision from a queue that fits its history. */
  lemma QueueDecides(queue: seq<int>, history: seq<int>, limit: int, window: int, now: int)
    requires QueueOk(queue, history, Cap(limit), window, now)
    ensures queue == [] || Admit(queue, limit, window, now).1 <==> Young(history, window, now) < Cap(limit)
  {
    var cap := Cap(limit);
    YoungIsDecidedByOne(history, window, now, cap);
    if |queue| == cap {
      assert queue[0] == history[|history| - cap];
    } else if cap <= |history| {
      var forgotten := |history| - |queue| - 1;
      assert |history| - cap <= forgotten;
      assert history[|history| - cap] <= history[forgotten];
    }
  }

  /** The bounded queue and the sweeper decide every request as the full history would; a negative limit lets none
      through. */
  lemma DecidesAsFullHistory(p: Policy, events: seq<Event>, n: nat)
    requires Ordered(events) && n < |events| && events[n].Request?
    requires Harmless(p, events[..n], events[n].key)
    ensures Accepts(p, events, n) <==> Naive(p, events, n) && p.limit(events[n].key) >= 0
  {
    var key, now := events[n].key, events[n].now;
    RunKeepsQueue(p, events[..n], key, now);
    var (store, passed) := Play(p, events[..n]);
    QueueDecides(QueueOf(store, key), passed(key), p.limit(key), p.window(key), now);
  }

  /** Consequence for the caller: any limit + 1 consecutive passes of a key span the window. */
  lemma {:induction false} PassesAreSpaced(p: Policy, events: seq<Event>, key: Key, i: nat)
    requires Ordered(events) && Harmless(p, events, key)
    requires i + Cap(p.limit(key)) < |Play(p, events).1(key)|
    ensures Play(p, events).1(key)[i + Cap(p.limit(key))] - Play(p, events).1(key)[i] >= p.window(key)
  {
    var n := |events| - 1;
    var before, after := Play(p, events[..n]).1(key), Play(p, events).1(key);
    var cap := Cap(p.limit(key));
    if i + cap < |before| {
      PassesAreSpaced(p, events[..n], key, i);
    } else {
      assert events[n].Request? && events[n].key == key && after == before + [events[n].now];
      assert Accepts(p, events, n) by { assert events[..n] + [events[n]] == events; }
      DecidesAsFullHistory(p, events, n);
      RunKeepsQueue(p, events[..n], key, events[n].now);
      YoungIsDecidedByOne(before, p.window(key), events[n].now, cap);
    }
  }

  // ---------------------------------------------------------------- the exact condition

  ghost predicate AlwaysExact(p: Policy, key: Key) {
    forall events: seq<Event>, n: nat |
      Ordered(events) && n < |events| && events[n].Request? && events[n].key == key ::
      (Accepts(p, events, n) <==> Naive(p, events, n))
  }

  function Burst(key: Key, count: nat): seq<Event> {
    seq(count, i => Request(key, 0))
  }

  lemma {:induction false} BurstFillsQueue(p: Policy, key: Key, count: nat)
    requires count <= Cap(p.limit(key)) && p.limit(key) >= 0
    ensures Play(p, Burst(key, count)).1(key) == seq(count, i => 0)
    ensures QueueOf(Play(p, Burst(key, count)).0, key) == seq(count, i => 0)
  {
    if count > 0 {
      BurstFillsQueue(p, key, count - 1);
      assert Burst(key, count)[..count - 1] == Burst(key, count - 1);
      assert seq(count - 1, i => 0) + [0] == seq(count, i => 0);
    }
  }

  lemma {:induction false} AllYoung(count: nat, window: int, now: int)
    requires now < window
    ensures Young(seq(count, i => 0), window, now) == count
  {
    if count > 0 {
      AllYoung(count - 1, window, now);
      assert seq(count, i => 0)[..count - 1] == seq(count - 1, i => 0);
    }
  }

  /** A negative limit stops the very first request. */
  lemma NegativeLimitPanics(p: Policy, key: Key)
    requires p.limit(key) < 0
    ensures !AlwaysExact(p, key)
  {
    var events := [Event.Request(key, 0)];
    assert events[..0] == [] && Ordered(events);
    assert !Accepts(p, events, 0) && Naive(p, events, 0);
  }

  lemma SweptBurst(p: Policy, key: Key, cap: nat, late: int)
    requires cap == Cap(p.limit(key)) && p.limit(key) >= 0 && late > p.expiry
    ensures var swept := Burst(key, cap) + [Sweep(late)];
            key !in Play(p, swept).0 && Play(p, swept).1(key) == seq(cap, i => 0)
  {
    var burst := Burst(key, cap);
    assert (burst + [Sweep(late)])[..cap] == burst;
    BurstFillsQueue(p, key, cap);
    assert Expired(QueueOf(Play(p, burst).0, key), p.expiry, late);
  }

  /** A window longer than the expiry by more than a second: fill the quota at time 0, let
      the sweeper run at expiry + 1, and one request too many passes. */
  lemma SweeperForgets(p: Policy, key: Key) returns (events: seq<Event>, n: nat)
    requires p.expiry >= 0 && p.window(key) > p.expiry + 1 && p.limit(key) >= 0
    ensures Ordered(events) && n < |events| && events[n].Request? && events[n].key == key
    ensures Accepts(p, events, n) && !Naive(p, events, n)
  {
    var cap, late := Cap(p.limit(key)), p.expiry + 1;
    var swept := Burst(key, cap) + [Sweep(late)];
    events, n := swept + [Request(key, late)], cap + 1;
    assert events[..n] == swept;
    SweptBurst(p, key, cap, late);
    AllYoung(cap, p.window(key), late);
  }

  /** With the sweeper running, the limiter is exact on all runs if and only if the limit is not negative and the
      window is at most one second longer than the expiry. */
  lemma ExactIffWindowFits(p: Policy, key: Key)
    requires p.expiry >= 0
    ensures AlwaysExact(p, key) <==> p.limit(key) >= 0 && p.window(key) <= p.expiry + 1
  {
    if p.limit(key) < 0 {
      NegativeLimitPanics(p, key);
    } else if p.window(key) <= p.expiry + 1 {
      forall events: seq<Event>, n: nat |
        Ordered(events) && n < |events| && events[n].Request? && events[n].key == key
        ensures Accepts(p, events, n) <==> Naive(p, events, n)
      {
        DecidesAsFullHistory(p, events, n);
      }
    } else {
      var events, n := SweeperForgets(p, key);
    }
  }
}
