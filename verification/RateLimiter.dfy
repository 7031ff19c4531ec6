/** The in-memory sliding-window rate limiter and its background cleaner. Each key
    keeps a short queue of grant times; the reference limiter keeps every grant. */
module RateLimiter {
  import opened Options

  datatype Key = Key(text: string)

  type Store = map<Key, seq<int>>

  /** What the code does with one key; an absent queue is a first request. The
      effective bound is 1 when maxRequestNum is smaller. */
  function Ask(store: Store, key: Key, max: int, duration: int, now: int): (Store, bool)
    requires key in store ==> store[key] != []
  {
    if key !in store then (store[key := [now]], true)
    else
      var queue := store[key];
      if |queue| < max then (store[key := queue + [now]], true)
      else if now - queue[0] >= duration then (store[key := queue[1..] + [now]], true)
      else (store, false)
  }

  /** A first request with a negative maximum panics: no queue of that capacity can be made. */
  function Serve(store: Store, key: Key, max: int, duration: int, now: int): (Store, Option<bool>)
    requires key in store ==> store[key] != []
  {
    if key !in store && max < 0 then (store, None)
    else
      var (store', granted) := Ask(store, key, max, duration, now);
      (store', Some(granted))
  }

  predicate Stale(queue: seq<int>, expiration: int, now: int) {
    queue == [] || now - queue[|queue| - 1] > expiration
  }

  /** One round of `clearExpiredItems`. */
  function Swept(store: Store, expiration: int, now: int): Store {
    map key | key in store && !Stale(store[key], expiration, now) :: store[key]
  }

  predicate NoEmptyQueue(store: Store) {
    forall key :: key in store ==> store[key] != []
  }

  class InMemoryRateLimiter {
    var store: Store
    var expiration: int // whole seconds

    ghost predicate Valid()
      reads this
    {
      NoEmptyQueue(store)
    }

    constructor (expiration: int)
      ensures Valid() && store == map[] && this.expiration == expiration
    {
      store := map[];
      this.expiration := expiration;
    }

    /** `None` is a panic. */
    method Request(key: Key, maxRequestNum: int, duration: int, now: int) returns (granted: Option<bool>)
      requires Valid()
      modifies this`store
      ensures Valid()
      ensures (store, granted) == Serve(old(store), key, maxRequestNum, duration, now)
    {
      if key in store {
        var queue := store[key];
        if |queue| < maxRequestNum {
          store := store[key := queue + [now]];
          return Some(true);
        } else if now - queue[0] >= duration {
          queue := queue[1..];
          store := store[key := queue + [now]];
          return Some(true);
        } else {
          return Some(false);
        }
      }
      if maxRequestNum < 0 {
        return None;
      }
      store := store[key := []];
      store := store[key := store[key] + [now]];
      assert store[key] == [now] && store == old(store)[key := [now]];
      return Some(true);
    }

    method ClearExpiredItems(now: int)
      requires Valid()
      modifies this`store
      ensures Valid()
      ensures store == Swept(old(store), expiration, now)
    {
      var todo := store.Keys;
      while todo != {}
        invariant todo <= old(store).Keys
        invariant store.Keys == set k | k in old(store) && (k in todo || !Stale(old(store)[k], expiration, now))
        invariant forall k :: k in store ==> store[k] == old(store)[k]
        decreases todo
      {
        var key :| key in todo;
        todo := todo - {key};
        if Stale(store[key], expiration, now) {
          store := store - {key};
        }
      }
    }
  }

  // ----- runs of requests and sweeps, against the full history -----

  /** The limits of a key do not change during a run. */
  datatype Limit = Limit(max: int, duration: int)

  datatype Event = Request(key: Key, now: int) | Sweep(now: int)

  function Bound(limit: Limit): nat {
    if limit.max < 1 then 1 else limit.max
  }

  function Recent(grants: seq<int>, duration: int, now: int): nat {
    if grants == [] then 0
    else Recent(grants[..|grants| - 1], duration, now) + (if now - grants[|grants| - 1] < duration then 1 else 0)
  }

  function Grants(history: Store, key: Key): seq<int> {
    if key in history then history[key] else []
  }

  /** The reference: fewer than the bound were granted within the window. */
  function AskHistory(history: Store, key: Key, limit: Limit, now: int): (Store, bool) {
    if Recent(Grants(history, key), limit.duration, now) < Bound(limit)
    then (history[key := Grants(history, key) + [now]], true)
    else (history, false)
  }

  function ServeHistory(history: Store, key: Key, limit: Limit, now: int): (Store, Option<bool>) {
    if limit.max < 0 then (history, None)
    else
      var (history', granted) := AskHistory(history, key, limit, now);
      (history', Some(granted))
  }

  /** The clock never runs backwards. */
  predicate Ordered(events: seq<Event>, clock: int) {
    events == [] || (clock <= events[0].now && Ordered(events[1..], events[0].now))
  }

  function Answers(store: Store, events: seq<Event>, limits: Key -> Limit, expiration: int): seq<Option<bool>>
    requires NoEmptyQueue(store)
    decreases |events|
  {
    if events == [] then []
    else match events[0]
      case Request(key, now) =>
        var (store', granted) := Serve(store, key, limits(key).max, limits(key).duration, now);
        [granted] + Answers(store', events[1..], limits, expiration)
      case Sweep(now) => Answers(Swept(store, expiration, now), events[1..], limits, expiration)
  }

  function HistoryAnswers(history: Store, events: seq<Event>, limits: Key -> Limit): seq<Option<bool>>
    decreases |events|
  {
    if events == [] then []
    else match events[0]
      case Request(key, now) =>
        var (history', granted) := ServeHistory(history, key, limits(key), now);
        [granted] + HistoryAnswers(history', events[1..], limits)
      case Sweep(_) => HistoryAnswers(history, events[1..], limits)
  }

  // ----- the refinement -----

  predicate Sorted(xs: seq<int>) {
    forall i, j :: 0 <= i < j < |xs| ==> xs[i] <= xs[j]
  }

  predicate AllExpired(xs: seq<int>, duration: int, clock: int) {
    forall i :: 0 <= i < |xs| ==> clock - xs[i] >= duration
  }

  /** The queue is the newest part of the history; what it lacks has expired, or the
      queue is full. */
  predicate Summarizes(queue: seq<int>, grants: seq<int>, limit: Limit, clock: int) {
    Sorted(grants) && (grants != [] ==> grants[|grants| - 1] <= clock) &&
    |queue| <= |grants| && queue == grants[|grants| - |queue|..] && |queue| <= Bound(limit) &&
    (|queue| < Bound(limit) ==> AllExpired(grants[..|grants| - |queue|], limit.duration, clock))
  }

  predicate Refines(store: Store, history: Store, limits: Key -> Limit, clock: int, key: Key) {
    Summarizes(Grants(store, key), Grants(history, key), limits(key), clock)
  }

  lemma {:induction false} RecentOfExpired(grants: seq<int>, duration: int, now: int)
    requires AllExpired(grants, duration, now)
    ensures Recent(grants, duration, now) == 0
  {
    if grants != [] {
      RecentOfExpired(grants[..|grants| - 1], duration, now);
    }
  }

  lemma {:induction false} RecentSplit(grants: seq<int>, k: nat, duration: int, now: int)
    requires k <= |grants|
    ensures Recent(grants, duration, now) == Recent(grants[..k], duration, now) + Recent(grants[k..], duration, now)
  {
    if k == |grants| {
      assert grants[..k] == grants;
    } else {
      var init := grants[..|grants| - 1];
      RecentSplit(init, k, duration, now);
      assert init[..k] == grants[..k] && init[k..] == grants[k..][..|grants| - k - 1];
    }
  }

  lemma {:induction false} RecentBounds(grants: seq<int>, duration: int, now: int)
    ensures Recent(grants, duration, now) <= |grants|
    ensures (forall i :: 0 <= i < |grants| ==> now - grants[i] < duration) ==> Recent(grants, duration, now) == |grants|
  {
    if grants != [] {
      RecentBounds(grants[..|grants| - 1], duration, now);
    }
  }

  /** The window check on the queue agrees with the count over the whole history. */
  lemma QueueDecides(queue: seq<int>, grants: seq<int>, limit: Limit, clock: int, now: int)
    requires Summarizes(queue, grants, limit, clock) && clock <= now
    ensures Recent(grants, limit.duration, now) < Bound(limit)
      <==> |queue| < Bound(limit) || now - queue[0] >= limit.duration
  {
    var k := |grants| - |queue|;
    RecentSplit(grants, k, limit.duration, now);
    RecentBounds(queue, limit.duration, now);
    if |queue| < Bound(limit) {
      RecentOfExpired(grants[..k], limit.duration, now);
    } else if now - queue[0] >= limit.duration {
      assert grants[k] == queue[0];
      RecentOfExpired(grants[..k], limit.duration, now);
      RecentSplit(queue, 1, limit.duration, now);
      RecentBounds(queue[1..], limit.duration, now);
      assert queue[..1] == [queue[0]];
      RecentOfExpired([queue[0]], limit.duration, now);
    }
  }

  /** What a request does to one queue, an absent queue being empty. */
  function AskQueue(queue: seq<int>, limit: Limit, now: int): (seq<int>, bool) {
    if |queue| < Bound(limit) then (queue + [now], true)
    else if now - queue[0] >= limit.duration then (queue[1..] + [now], true)
    else (queue, false)
  }

  lemma AskIsAskQueue(store: Store, key: Key, limit: Limit, now: int)
    requires NoEmptyQueue(store)
    ensures var (store', granted) := Ask(store, key, limit.max, limit.duration, now);
      (Grants(store', key), granted) == AskQueue(Grants(store, key), limit, now) && NoEmptyQueue(store') &&
      forall k :: k != key ==> Grants(store', k) == Grants(store, k)
  {
    var none: seq<int> := [];
    assert none + [now] == [now];
  }

  lemma LaterSummarizes(queue: seq<int>, grants: seq<int>, limit: Limit, clock: int, now: int)
    requires Summarizes(queue, grants, limit, clock) && clock <= now
    ensures Summarizes(queue, grants, limit, now)
  {}

  lemma GrantedLater(grants: seq<int>, now: int)
    requires Sorted(grants) && (grants != [] ==> grants[|grants| - 1] <= now)
    ensures Sorted(grants + [now])
  {}

  lemma PushSummarizes(queue: seq<int>, grants: seq<int>, limit: Limit, now: int)
    requires Summarizes(queue, grants, limit, now) && |queue| < Bound(limit)
    ensures Summarizes(queue + [now], grants + [now], limit, now)
  {
    GrantedLater(grants, now);
    assert (grants + [now])[|grants| - |queue|..] == queue + [now];
    assert (grants + [now])[..|grants| - |queue|] == grants[..|grants| - |queue|];
  }

  lemma ShiftSummarizes(queue: seq<int>, grants: seq<int>, limit: Limit, now: int)
    requires Summarizes(queue, grants, limit, now) && |queue| == Bound(limit)
    ensures Summarizes(queue[1..] + [now], grants + [now], limit, now)
  {
    GrantedLater(grants, now);
    assert (grants + [now])[|grants| - |queue| + 1..] == queue[1..] + [now];
  }

  /** One request: the same answer, and the queue still summarizes the history. */
  lemma AskQueueAgrees(queue: seq<int>, grants: seq<int>, limit: Limit, clock: int, now: int)
    requires Summarizes(queue, grants, limit, clock) && clock <= now
    ensures var granted := Recent(grants, limit.duration, now) < Bound(limit);
      AskQueue(queue, limit, now).1 == granted &&
      Summarizes(AskQueue(queue, limit, now).0, if granted then grants + [now] else grants, limit, now)
  {
    QueueDecides(queue, grants, limit, clock, now);
    LaterSummarizes(queue, grants, limit, clock, now);
    if |queue| < Bound(limit) {
      PushSummarizes(queue, grants, limit, now);
    } else {
      ShiftSummarizes(queue, grants, limit, now);
    }
  }

  lemma AskHistoryAppends(history: Store, key: Key, limit: Limit, now: int)
    ensures var (history', granted) := AskHistory(history, key, limit, now);
      granted == (Recent(Grants(history, key), limit.duration, now) < Bound(limit)) &&
      Grants(history', key) == (if granted then Grants(history, key) + [now] else Grants(history, key)) &&
      forall k :: k != key ==> Grants(history', k) == Grants(history, k)
  {}

  lemma AskKeepsOther(store: Store, history: Store, key: Key, limits: Key -> Limit, clock: int, now: int, k: Key)
    requires NoEmptyQueue(store) && clock <= now && Refines(store, history, limits, clock, k) && k != key
    ensures Refines(Ask(store, key, limits(key).max, limits(key).duration, now).0,
                    AskHistory(history, key, limits(key), now).0, limits, now, k)
  {
    AskIsAskQueue(store, key, limits(key), now);
    AskHistoryAppends(history, key, limits(key), now);
    LaterSummarizes(Grants(store, k), Grants(history, k), limits(k), clock, now);
  }

  lemma AskKeepsOwn(store: Store, history: Store, key: Key, limits: Key -> Limit, clock: int, now: int)
    requires NoEmptyQueue(store) && clock <= now && Refines(store, history, limits, clock, key)
    ensures Refines(Ask(store, key, limits(key).max, limits(key).duration, now).0,
                    AskHistory(history, key, limits(key), now).0, limits, now, key)
  {
    AskIsAskQueue(store, key, limits(key), now);
    AskHistoryAppends(history, key, limits(key), now);
    hide Ask, AskHistory, AskQueue, Grants, Recent, Summarizes, NoEmptyQueue;
    AskQueueAgrees(Grants(store, key), Grants(history, key), limits(key), clock, now);
  }

  lemma AskAgrees(store: Store, history: Store, key: Key, limits: Key -> Limit, clock: int, now: int)
    requires NoEmptyQueue(store) && Refines(store, history, limits, clock, key) && clock <= now
    ensures Ask(store, key, limits(key).max, limits(key).duration, now).1 ==
      AskHistory(history, key, limits(key), now).1
  {
    AskIsAskQueue(store, key, limits(key), now);
    QueueDecides(Grants(store, key), Grants(history, key), limits(key), clock, now);
  }

  /** A swept queue held only expired grants. */
  lemma SweepKeeps(store: Store, history: Store, limits: Key -> Limit, expiration: int, clock: int, now: int, key: Key)
    requires NoEmptyQueue(store) && Refines(store, history, limits, clock, key) && clock <= now
    requires limits(key).duration <= expiration + 1
    ensures Refines(Swept(store, expiration, now), history, limits, now, key)
  {
    var queue, grants, limit := Grants(store, key), Grants(history, key), limits(key);
    if key in store && Stale(queue, expiration, now) {
      assert queue[|queue| - 1] == grants[|grants| - 1];
      assert AllExpired(grants, limit.duration, now);
      assert grants[..|grants|] == grants;
    }
  }

  /** No window that is ever used outlasts the expiration period by more than a second. */
  ghost predicate WindowsFit(limits: Key -> Limit, expiration: int) {
    forall key :: limits(key).max >= 0 ==> limits(key).duration <= expiration + 1
  }

  /** A key with a negative maximum never gets a queue; the others refine the history. */
  ghost predicate Tracks(store: Store, history: Store, limits: Key -> Limit, clock: int) {
    forall key :: if limits(key).max < 0 then key !in store else Refines(store, history, limits, clock, key)
  }

  lemma ServeTracks(store: Store, history: Store, key: Key, limits: Key -> Limit, clock: int, now: int)
    requires NoEmptyQueue(store) && Tracks(store, history, limits, clock) && clock <= now
    ensures var (store', granted) := Serve(store, key, limits(key).max, limits(key).duration, now);
      var (history', expected) := ServeHistory(history, key, limits(key), now);
      NoEmptyQueue(store') && Tracks(store', history', limits, now) && granted == expected
  {
    hide Summarizes, Recent;
    var store' := Serve(store, key, limits(key).max, limits(key).duration, now).0;
    var history' := ServeHistory(history, key, limits(key), now).0;
    if limits(key).max >= 0 {
      AskAgrees(store, history, key, limits, clock, now);
      AskIsAskQueue(store, key, limits(key), now);
    }
    forall k ensures if limits(k).max < 0 then k !in store' else Refines(store', history', limits, now, k) {
      if limits(k).max >= 0 {
        if limits(key).max < 0 {
          LaterSummarizes(Grants(store, k), Grants(history, k), limits(k), clock, now);
        } else if k == key {
          AskKeepsOwn(store, history, key, limits, clock, now);
        } else {
          AskKeepsOther(store, history, key, limits, clock, now, k);
        }
      }
    }
  }

  lemma SweepTracks(store: Store, history: Store, limits: Key -> Limit, expiration: int, clock: int, now: int)
    requires NoEmptyQueue(store) && Tracks(store, history, limits, clock) && clock <= now
    requires WindowsFit(limits, expiration)
    ensures Tracks(Swept(store, expiration, now), history, limits, now)
  {
    var store' := Swept(store, expiration, now);
    forall k ensures if limits(k).max < 0 then k !in store' else Refines(store', history, limits, now, k) {
      if limits(k).max >= 0 {
        SweepKeeps(store, history, limits, expiration, clock, now, k);
      }
    }
  }

  lemma {:induction false} RunAgrees(store: Store, history: Store, events: seq<Event>, limits: Key -> Limit,
                                     expiration: int, clock: int)
    requires NoEmptyQueue(store) && Ordered(events, clock) && Tracks(store, history, limits, clock)
    requires WindowsFit(limits, expiration)
    ensures Answers(store, events, limits, expiration) == HistoryAnswers(history, events, limits)
    decreases |events|
  {
    if events != [] {
      var now := events[0].now;
      match events[0]
      case Request(key, _) =>
        ServeTracks(store, history, key, limits, clock, now);
        var store' := Serve(store, key, limits(key).max, limits(key).duration, now).0;
        var history' := ServeHistory(history, key, limits(key), now).0;
        RunAgrees(store', history', events[1..], limits, expiration, now);
      case Sweep(_) =>
        SweepTracks(store, history, limits, expiration, clock, now);
        RunAgrees(Swept(store, expiration, now), history, events[1..], limits, expiration, now);
    }
  }

  /** From an empty store, every run of requests and sweeps is answered exactly as a
      limiter that remembers every grant would answer it. */
  lemma MatchesFullHistory(events: seq<Event>, limits: Key -> Limit, expiration: int, clock: int)
    requires Ordered(events, clock) && WindowsFit(limits, expiration)
    ensures Answers(map[], events, limits, expiration) == HistoryAnswers(map[], events, limits)
  {
    RunAgrees(map[], map[], events, limits, expiration, clock);
  }

  function StoreAfter(store: Store, events: seq<Event>, limits: Key -> Limit, expiration: int): Store
    requires NoEmptyQueue(store)
    decreases |events|
  {
    if events == [] then store
    else match events[0]
      case Request(key, now) =>
        StoreAfter(Serve(store, key, limits(key).max, limits(key).duration, now).0, events[1..], limits, expiration)
      case Sweep(now) => StoreAfter(Swept(store, expiration, now), events[1..], limits, expiration)
  }

  /** Sorted, within the bound, and nothing from the future. */
  predicate TidyQueue(queue: seq<int>, limit: Limit, clock: int) {
    Sorted(queue) && |queue| <= Bound(limit) && (queue != [] ==> queue[|queue| - 1] <= clock)
  }

  lemma AskQueueTidy(queue: seq<int>, limit: Limit, clock: int, now: int)
    requires TidyQueue(queue, limit, clock) && clock <= now
    ensures TidyQueue(queue, limit, now) && TidyQueue(AskQueue(queue, limit, now).0, limit, now)
  {
    GrantedLater(queue, now);
    if queue != [] {
      GrantedLater(queue[1..], now);
    }
  }

  ghost predicate TidyStore(store: Store, limits: Key -> Limit, clock: int) {
    NoEmptyQueue(store) && forall key :: TidyQueue(Grants(store, key), limits(key), clock)
  }

  lemma AskTidy(store: Store, key: Key, limits: Key -> Limit, clock: int, now: int)
    requires TidyStore(store, limits, clock) && clock <= now
    ensures TidyStore(Serve(store, key, limits(key).max, limits(key).duration, now).0, limits, now)
  {
    AskIsAskQueue(store, key, limits(key), now);
    var store' := Serve(store, key, limits(key).max, limits(key).duration, now).0;
    forall k ensures TidyQueue(Grants(store', k), limits(k), now) {
      AskQueueTidy(Grants(store, k), limits(k), clock, now);
    }
  }

  lemma SweepTidy(store: Store, limits: Key -> Limit, expiration: int, clock: int, now: int)
    requires TidyStore(store, limits, clock) && clock <= now
    ensures TidyStore(Swept(store, expiration, now), limits, now)
  {
    forall k ensures TidyQueue(Grants(Swept(store, expiration, now), k), limits(k), now) {
      AskQueueTidy(Grants(store, k), limits(k), clock, now);
    }
  }

  function LastTime(events: seq<Event>, clock: int): int {
    if events == [] then clock else LastTime(events[1..], events[0].now)
  }

  lemma {:induction false} RunTidy(store: Store, events: seq<Event>, limits: Key -> Limit, expiration: int, clock: int)
    requires TidyStore(store, limits, clock) && Ordered(events, clock)
    ensures TidyStore(StoreAfter(store, events, limits, expiration), limits, LastTime(events, clock))
    decreases |events|
  {
    if events != [] {
      match events[0]
      case Request(key, now) =>
        AskTidy(store, key, limits, clock, now);
        RunTidy(Serve(store, key, limits(key).max, limits(key).duration, now).0, events[1..], limits, expiration, now);
      case Sweep(now) =>
        SweepTidy(store, limits, expiration, clock, now);
        RunTidy(Swept(store, expiration, now), events[1..], limits, expiration, now);
    }
  }

  /** Whatever the expiration, queues stay sorted and never outgrow the bound. */
  lemma QueuesStayTidy(events: seq<Event>, limits: Key -> Limit, expiration: int, clock: int, key: Key)
    requires Ordered(events, clock)
    ensures var queue := Grants(StoreAfter(map[], events, limits, expiration), key);
      Sorted(queue) && |queue| <= Bound(limits(key))
  {
    RunTidy(map[], events, limits, expiration, clock);
    assert TidyQueue(Grants(StoreAfter(map[], events, limits, expiration), key), limits(key), LastTime(events, clock));
  }

  // ----- the bound on the duration is needed -----

  function Zeros(n: nat): seq<int> {
    seq(n, _ => 0)
  }

  /** `n` requests of one key at time 0. */
  function Burst(key: Key, n: nat): seq<Event> {
    seq(n, _ => Request(key, 0))
  }

  /** The store, and the history, after `n` grants to one key at time 0. */
  function AfterBurst(key: Key, n: nat): (store: Store)
    ensures NoEmptyQueue(store) && Grants(store, key) == Zeros(n)
  {
    if n == 0 then map[] else map[key := Zeros(n)]
  }

  lemma BurstGrows(key: Key, n: nat, limit: Limit)
    requires n < Bound(limit) && limit.max >= 0
    ensures Ask(AfterBurst(key, n), key, limit.max, limit.duration, 0) == (AfterBurst(key, n + 1), true)
    ensures AskHistory(AfterBurst(key, n), key, limit, 0) == (AfterBurst(key, n + 1), true)
  {
    assert Zeros(n) + [0] == Zeros(n + 1);
    assert n == 0 ==> Zeros(1) == [0];
    RecentBounds(Zeros(n), limit.duration, 0);
    assert AfterBurst(key, n)[key := Zeros(n + 1)] == AfterBurst(key, n + 1);
  }

  /** After a sweep that comes too early the limiter grants one request too many. */
  lemma {:induction false} BurstThenSweep(key: Key, n: nat, limits: Key -> Limit, expiration: int, left: nat)
    requires n + left == Bound(limits(key))
    requires expiration >= 0 && limits(key).max >= 0 && limits(key).duration > expiration + 1
    ensures var tail := Burst(key, left) + [Sweep(expiration + 1), Request(key, expiration + 1)];
      Answers(AfterBurst(key, n), tail, limits, expiration) != HistoryAnswers(AfterBurst(key, n), tail, limits)
    decreases left
  {
    var late := expiration + 1;
    var tail, store := Burst(key, left) + [Sweep(late), Request(key, late)], AfterBurst(key, n);
    if left == 0 {
      RecentBounds(Zeros(n), limits(key).duration, late);
      assert tail == [Sweep(late), Request(key, late)];
      assert tail[1..] == [Request(key, late)];
      assert Swept(store, expiration, late) == map[];
      assert Answers(map[], tail[1..], limits, expiration) == [Some(true)];
      assert HistoryAnswers(store, tail[1..], limits) == [Some(false)];
    } else {
      var rest := Burst(key, left - 1) + [Sweep(late), Request(key, late)];
      assert tail[0] == Request(key, 0) && tail[1..] == rest;
      BurstGrows(key, n, limits(key));
      BurstThenSweep(key, n + 1, limits, expiration, left - 1);
      var next := AfterBurst(key, n + 1);
      assert Answers(store, tail, limits, expiration)[1..] == Answers(next, rest, limits, expiration);
      assert HistoryAnswers(store, tail, limits)[1..] == HistoryAnswers(next, rest, limits);
    }
  }

  lemma {:induction false} BurstIsOrdered(key: Key, n: nat, late: int)
    requires late >= 0
    ensures Ordered(Burst(key, n) + [Sweep(late), Request(key, late)], 0)
  {
    var tail := Burst(key, n) + [Sweep(late), Request(key, late)];
    if n == 0 {
      assert tail[1..] == [Request(key, late)];
      assert tail[1..][1..] == [];
    } else {
      assert tail[1..] == Burst(key, n - 1) + [Sweep(late), Request(key, late)];
      BurstIsOrdered(key, n - 1, late);
    }
  }

  /** With the cleaner running, the limiter equals the reference on every run exactly
      when no window that is used outlasts the expiration period by more than a second. */
  lemma MatchesIffWindowsFit(limits: Key -> Limit, expiration: int)
    requires expiration >= 0
    ensures (forall events :: Ordered(events, 0) ==>
               Answers(map[], events, limits, expiration) == HistoryAnswers(map[], events, limits))
            <==> WindowsFit(limits, expiration)
  {
    if WindowsFit(limits, expiration) {
      forall events | Ordered(events, 0)
        ensures Answers(map[], events, limits, expiration) == HistoryAnswers(map[], events, limits)
      {
        MatchesFullHistory(events, limits, expiration, 0);
      }
    } else {
      var key :| limits(key).max >= 0 && limits(key).duration > expiration + 1;
      BurstThenSweep(key, 0, limits, expiration, Bound(limits(key)));
      BurstIsOrdered(key, Bound(limits(key)), expiration + 1);
      assert AfterBurst(key, 0) == map[];
    }
  }
}
