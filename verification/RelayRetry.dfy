/** The retry loops of Relay and RelayTask, with the channel selection that moves through
    priorities and automatic groups and resets the retry counter on the way.

    Everything outside the loops (which channels exist, how each attempt ends, whether it
    reaches the payment) is given by an arbitrary `Env`, so the theorems hold for all of it. */
module RelayRetry {
  import opened Options
  import opened BillingSessions

  /** `channel`: the error code starts with "channel:"; `bodyCode`: a code that is never
      retried; `local`: a task error made by the gateway itself. */
  datatype Error = Error(code: int, channel: bool, skipRetry: bool, bodyCode: bool, isLocal: bool)

  datatype Range = Range(start: int, end: int)

  predicate Proper(ranges: seq<Range>) {
    forall i :: 0 <= i < |ranges| ==> ranges[i].start <= ranges[i].end
  }

  predicate Sorted(ranges: seq<Range>) {
    Proper(ranges) && forall i, j :: 0 <= i < j < |ranges| ==> ranges[i].end < ranges[j].start
  }

  /** Status code ranges as they are stored. */
  type Ranges = ranges: seq<Range> | Sorted(ranges)

  /** `task` selects RelayTask; `pinned` that the caller asked for one channel; `cross`
      that an automatic group may hand over to the next when its retries are used up. The
      option for `retryTimes` accepts negative numbers. */
  datatype Config = Config(
    task: bool, retryTimes: int, auto: bool, cross: bool, groups: nat, pinned: bool, playground: bool,
    ranges: Ranges)

  /** What a payment session would be opened with. */
  datatype Payment = Payment(request: Request, subscription: bool, amount: nat, faults: Faults)

  /** How far the submission of a task gets: it is rejected before the payment, or it pays
      first unless the model is free or it has paid before. `refused` is the error when the
      payment fails, `quota` the price of a success. */
  datatype Submission = Rejected(error: Error) | Submits(free: bool, payment: Payment, refused: Error, quota: int)

  /** One turn of the loop, numbered from 0. */
  datatype Turn = Turn(setupFails: bool, bodyFails: bool, outcome: Option<Error>, affinityStop: bool,
                       submission: Submission)

  /** Whether turn `n` finds a channel in a group at a priority, and how turn `n` goes. */
  datatype Env = Env(available: (nat, nat, nat) -> bool, turn: nat -> Turn)

  // ----- which errors are retried -----

  predicate AlwaysSkipped(code: int) {
    code == 504 || code == 524
  }

  predicate InRanges(ranges: seq<Range>, code: int) {
    exists i :: 0 <= i < |ranges| && ranges[i].start <= code <= ranges[i].end
  }

  predicate Ordered(ranges: seq<Range>) {
    forall i, j :: 0 <= i < j < |ranges| ==> ranges[i].start <= ranges[j].start
  }

  /** sort.Slice: inserts each range before the first that starts later. */
  method SortRanges(ranges: seq<Range>) returns (sorted: seq<Range>)
    ensures Ordered(sorted) && forall r :: r in sorted <==> r in ranges
  {
    sorted := [];
    for n := 0 to |ranges|
      invariant Ordered(sorted) && forall r :: r in sorted <==> r in ranges[..n]
    {
      hide Ordered;
      var i := 0;
      while i < |sorted| && sorted[i].start <= ranges[n].start
        invariant 0 <= i <= |sorted| && forall j :: 0 <= j < i ==> sorted[j].start <= ranges[n].start
      {
        i := i + 1;
      }
      InsertKeepsOrder(sorted, i, ranges[n]);
      sorted := sorted[..i] + [ranges[n]] + sorted[i..];
      assert ranges[..n + 1] == ranges[..n] + [ranges[n]];
    }
    assert ranges[..|ranges|] == ranges;
  }

  lemma InsertKeepsOrder(sorted: seq<Range>, i: nat, r: Range)
    requires Ordered(sorted) && i <= |sorted| && (forall j :: 0 <= j < i ==> sorted[j].start <= r.start)
    requires i < |sorted| ==> r.start < sorted[i].start
    ensures Ordered(sorted[..i] + [r] + sorted[i..])
    ensures forall q :: q in sorted[..i] + [r] + sorted[i..] <==> q in sorted || q == r
  {
    assert sorted == sorted[..i] + sorted[i..];
  }

  lemma InRangesOfMembers(ranges: seq<Range>, code: int)
    ensures InRanges(ranges, code) <==> exists r :: r in ranges && r.start <= code <= r.end
  {
    if r :| r in ranges && r.start <= code <= r.end {
      var i :| 0 <= i < |ranges| && ranges[i] == r;
    }
  }

  /** `ParseHTTPStatusCodeRanges` once the tokens are read: the ranges that are stored are
      sorted and do not overlap, and they hold the same codes. */
  method MergeRanges(ranges: seq<Range>) returns (merged: Ranges)
    requires Proper(ranges)
    ensures forall code :: InRanges(merged, code) <==> InRanges(ranges, code)
  {
    if |ranges| == 0 {
      return [];
    }
    var sorted := SortRanges(ranges);
    forall i | 0 <= i < |sorted| ensures sorted[i].start <= sorted[i].end {
      assert sorted[i] in ranges;
    }
    assert sorted != [] by { assert ranges[0] in sorted; }
    merged := [sorted[0]];
    for n := 1 to |sorted|
      invariant merged != []
      invariant merged[|merged| - 1].start <= sorted[n - 1].start
      invariant forall code :: InRanges(merged, code) <==> InRanges(sorted[..n], code)
    {
      ghost var before := merged;
      var r, last := sorted[n], merged[|merged| - 1];
      if r.start <= last.end + 1 {
        if r.end > last.end {
          merged := merged[|merged| - 1 := Range(last.start, r.end)];
        }
      } else {
        merged := merged + [r];
      }
      forall code ensures InRanges(merged, code) <==> InRanges(sorted[..n + 1], code) {
        OneMoreRange(before, merged, r, code);
        InRangesSnoc(sorted, n, code);
      }
    }
    assert sorted[..|sorted|] == sorted;
    forall code ensures InRanges(sorted, code) <==> InRanges(ranges, code) {
      InRangesOfMembers(sorted, code);
      InRangesOfMembers(ranges, code);
    }
  }

  lemma InRangesSnoc(ranges: seq<Range>, n: nat, code: int)
    requires n < |ranges|
    ensures InRanges(ranges[..n + 1], code) <==>
      InRanges(ranges[..n], code) || ranges[n].start <= code <= ranges[n].end
  {
    if InRanges(ranges[..n], code) {
      var i :| 0 <= i < n && ranges[..n][i].start <= code <= ranges[..n][i].end;
      assert ranges[..n + 1][i] == ranges[i];
    }
    assert ranges[..n + 1][n] == ranges[n];
    if InRanges(ranges[..n + 1], code) {
      var i :| 0 <= i < n + 1 && ranges[..n + 1][i].start <= code <= ranges[..n + 1][i].end;
      assert i < n ==> ranges[..n][i] == ranges[i];
    }
  }

  lemma OneMoreRange(before: seq<Range>, after: seq<Range>, r: Range, code: int)
    requires before != [] && before[|before| - 1].start <= r.start <= r.end
    requires var last := before[|before| - 1];
      after == if r.start > last.end + 1 then before + [r]
               else if r.end > last.end then before[|before| - 1 := Range(last.start, r.end)]
               else before
    ensures InRanges(after, code) <==> InRanges(before, code) || r.start <= code <= r.end
  {
    var k := |before| - 1;
    if InRanges(before, code) {
      var i :| 0 <= i < |before| && before[i].start <= code <= before[i].end;
      assert after[i].start <= code <= after[i].end;
    }
    if r.start <= code <= r.end {
      assert after[|after| - 1].start <= code <= after[|after| - 1].end || before[k].start <= code <= before[k].end;
    }
    if InRanges(after, code) {
      var i :| 0 <= i < |after| && after[i].start <= code <= after[i].end;
      if i < k {
        assert before[i] == after[i];
      }
    }
  }

  /** The scan stops at the first range beyond the code, which is right because the
      configured ranges are sorted. */
  method MatchStatusCodeRanges(ranges: Ranges, code: int) returns (r: bool)
    ensures r == (100 <= code <= 599 && InRanges(ranges, code))
  {
    if code < 100 || code > 599 {
      return false;
    }
    for i := 0 to |ranges|
      invariant forall j :: 0 <= j < i ==> ranges[j].end < code
    {
      if code < ranges[i].start {
        assert forall j :: i < j < |ranges| ==> ranges[i].end < ranges[j].start;
        return false;
      }
      if code <= ranges[i].end {
        return true;
      }
    }
    return false;
  }

  predicate ShouldRetry(cfg: Config, e: Error, affinityStop: bool, left: int) {
    if affinityStop then false
    else if e.channel then true
    else if e.skipRetry || left <= 0 || cfg.pinned || 200 <= e.code < 300 then false
    else if e.code < 100 || e.code > 599 then true
    else !e.bodyCode && !AlwaysSkipped(e.code) && InRanges(cfg.ranges, e.code)
  }

  predicate ShouldRetryTask(cfg: Config, e: Error, affinityStop: bool, left: int) {
    if affinityStop || left <= 0 || cfg.pinned then false
    else if e.code == 429 || e.code == 307 then true
    else if 500 <= e.code < 600 then !AlwaysSkipped(e.code)
    else e.code != 400 && e.code != 408 && !e.isLocal && !(200 <= e.code < 300)
  }

  predicate Retries(cfg: Config, e: Error, affinityStop: bool, left: int) {
    if cfg.task then ShouldRetryTask(cfg, e, affinityStop, left) else ShouldRetry(cfg, e, affinityStop, left)
  }

  /** Which errors are worth another attempt, by their fields. A request: channel errors
      always, others while retries are left and no channel was asked for, if the status
      code is none at all or a configured one. A task: server errors except for timeouts,
      too many requests, a redirect, and other errors of the upstream that are no success,
      no bad request and no timeout. */
  ghost predicate Retriable(cfg: Config, e: Error, affinityStop: bool, left: int) {
    if cfg.task then
      !affinityStop && left > 0 && !cfg.pinned && e.code !in {504, 524} &&
      (e.code in {307, 429} || 500 <= e.code <= 599 ||
       (!e.isLocal && e.code !in {400, 408} && !(200 <= e.code <= 299)))
    else
      !affinityStop &&
      (e.channel ||
       (!e.skipRetry && left > 0 && !cfg.pinned &&
        (e.code < 100 || e.code > 599 ||
         (!(200 <= e.code <= 299) && e.code !in {504, 524} && !e.bodyCode &&
          exists i :: 0 <= i < |cfg.ranges| && cfg.ranges[i].start <= e.code <= cfg.ranges[i].end))))
  }

  lemma RetriesIff(cfg: Config, e: Error, affinityStop: bool, left: int)
    ensures Retries(cfg, e, affinityStop, left) <==> Retriable(cfg, e, affinityStop, left)
  {
  }

  /** `shouldRetry` and `shouldRetryTaskRelay`. */
  method DecideRetry(cfg: Config, e: Error, affinityStop: bool, left: int) returns (r: bool)
    ensures r == Retries(cfg, e, affinityStop, left)
  {
    if cfg.task {
      return ShouldRetryTask(cfg, e, affinityStop, left);
    }
    if affinityStop {
      return false;
    }
    if e.channel {
      return true;
    }
    if e.skipRetry || left <= 0 || cfg.pinned || 200 <= e.code < 300 {
      return false;
    }
    if e.code < 100 || e.code > 599 {
      return true;
    }
    if e.bodyCode || AlwaysSkipped(e.code) {
      return false;
    }
    r := MatchStatusCodeRanges(cfg.ranges, e.code);
  }

  // ----- choosing a channel -----

  /** The retry counter, the group to start from, and whether the next increase is skipped. */
  datatype State = State(retry: nat, group: nat, keepRetry: bool)

  datatype Pick = Pick(group: nat, priority: nat)

  /** The automatic groups from `i` on. */
  function SelectAuto(cfg: Config, env: Env, n: nat, s: State, i: nat): (Option<Pick>, State)
    decreases cfg.groups - i
  {
    if i >= cfg.groups then (None, s)
    else if !env.available(n, i, s.retry) then SelectAuto(cfg, env, n, s.(retry := 0, group := i + 1), i + 1)
    else if cfg.cross && s.retry >= cfg.retryTimes then (Some(Pick(i, s.retry)), State(0, i + 1, true))
    else (Some(Pick(i, s.retry)), s.(group := i))
  }

  function Select(cfg: Config, env: Env, n: nat, s: State): (Option<Pick>, State) {
    if cfg.auto then SelectAuto(cfg, env, n, s, s.group)
    else if env.available(n, 0, s.retry) then (Some(Pick(0, s.retry)), s)
    else (None, s)
  }

  function Increase(s: State): State {
    if s.keepRetry then s.(keepRetry := false) else s.(retry := s.retry + 1)
  }

  // ----- the loop -----

  /** `pick` is `None` for the channel the request came in with. */
  datatype Attempt = Attempt(pick: Option<Pick>, outcome: Option<Error>, affinityStop: bool, left: int)

  datatype Result = Result(attempts: seq<Attempt>, error: Option<Error>)

  const NO_CHANNEL := Error(500, false, true, false, true)
  const BAD_BODY := Error(400, false, true, false, true)

  /** The product, by addition. */
  function Times(a: nat, m: nat): nat {
    if a == 0 then 0 else Times(a - 1, m) + m
  }

  lemma {:induction false} TimesIsProduct(a: nat, m: nat)
    ensures Times(a, m) == a * m
  {
    if a > 0 {
      TimesIsProduct(a - 1, m);
      assert a * m == (a - 1) * m + m;
    } else {
      assert a * m == 0;
    }
  }

  /** The attempts a fixed group allows. */
  function Tries(cfg: Config): nat {
    if cfg.retryTimes < 0 then 0 else cfg.retryTimes + 1
  }

  /** An upper bound on the turns that are left; it also ends the loop. */
  function Fuel(cfg: Config, s: State): nat {
    var groups := if cfg.auto && s.group < cfg.groups then cfg.groups - s.group else 0;
    Times(groups, Tries(cfg)) + if s.retry <= cfg.retryTimes then cfg.retryTimes + 1 - s.retry else 0
  }

  /** How one turn ends once a channel was looked for: the loop stops, or goes on after a
      failed attempt. */
  datatype Ending = Stop(result: Result) | GoOn(attempt: Attempt, error: Error)

  function TakeTurn(cfg: Config, turn: Turn, n: nat, pick: Option<Pick>, t: State): Ending {
    var left := cfg.retryTimes - t.retry;
    var attempt := Attempt(pick, turn.outcome, turn.affinityStop, left);
    if n > 0 && (pick.None? || turn.setupFails) then Stop(Result([], Some(NO_CHANNEL)))
    else if turn.bodyFails then Stop(Result([], Some(BAD_BODY)))
    else if turn.outcome.None? then Stop(Result([attempt], None))
    else if !Retries(cfg, turn.outcome.value, turn.affinityStop, left) then Stop(Result([attempt], turn.outcome))
    else GoOn(attempt, turn.outcome.value)
  }

  /** The first turn takes the channel the request came in with. */
  function Look(cfg: Config, env: Env, n: nat, s: State): (Option<Pick>, State) {
    if n == 0 then (None, s) else Select(cfg, env, n, s)
  }

  /** The loop from turn `n` on, `last` being the error so far. */
  function Loop(cfg: Config, env: Env, n: nat, s: State, last: Option<Error>): Result
    requires !s.keepRetry
    decreases Fuel(cfg, s)
  {
    if s.retry > cfg.retryTimes then Result([], last)
    else
      var (pick, t) := Look(cfg, env, n, s);
      match TakeTurn(cfg, env.turn(n), n, pick, t)
      case Stop(result) => result
      case GoOn(attempt, error) =>
        LookUsesFuel(cfg, env, n, s);
        var rest := Loop(cfg, env, n + 1, Increase(t), Some(error));
        Result([attempt] + rest.attempts, rest.error)
  }

  lemma LookUsesFuel(cfg: Config, env: Env, n: nat, s: State)
    requires !s.keepRetry && s.retry <= cfg.retryTimes
    ensures var (pick, t) := Look(cfg, env, n, s);
      n == 0 || pick.Some? ==> Fuel(cfg, Increase(t)) < Fuel(cfg, s) && !Increase(t).keepRetry
  {
    if n > 0 {
      SelectUsesFuel(cfg, env, n, s);
    }
  }

  lemma {:induction false} SelectAutoMoves(cfg: Config, env: Env, n: nat, s: State, i: nat)
    requires !s.keepRetry && s.retry <= cfg.retryTimes && s.group == i
    ensures var (pick, t) := SelectAuto(cfg, env, n, s, i);
      pick.Some? ==>
        && i <= pick.value.group < cfg.groups
        && pick.value.priority == (if pick.value.group == i then s.retry else 0)
        && Increase(t) ==
           (if cfg.cross && pick.value.priority >= cfg.retryTimes then State(0, pick.value.group + 1, false)
            else State(pick.value.priority + 1, pick.value.group, false))
    decreases cfg.groups - i
  {
    if i < cfg.groups && !env.available(n, i, s.retry) {
      SelectAutoMoves(cfg, env, n, s.(retry := 0, group := i + 1), i + 1);
    }
  }

  /** The priority that is asked for in a group: the retry counter in the group it has
      been counting in, the highest in every later one. */
  function Priority(s: State, group: nat): nat {
    if group == s.group then s.retry else 0
  }

  /** With automatic groups the first one with a channel is picked; without, the one group. */
  lemma SelectPicksFirst(cfg: Config, env: Env, n: nat, s: State, g: nat)
    ensures cfg.auto ==>
      (Select(cfg, env, n, s).0 == Some(Pick(g, Priority(s, g))) <==>
         s.group <= g < cfg.groups && env.available(n, g, Priority(s, g)) &&
         forall i :: s.group <= i < g ==> !env.available(n, i, Priority(s, i)))
    ensures cfg.auto && Select(cfg, env, n, s).0.Some? ==>
      var pick := Select(cfg, env, n, s).0.value; pick.priority == Priority(s, pick.group)
    ensures !cfg.auto ==>
      Select(cfg, env, n, s) == (if env.available(n, 0, s.retry) then Some(Pick(0, s.retry)) else None, s)
  {
    if cfg.auto {
      AutoPicksFirst(cfg, env, n, s, s.group, g);
    }
  }

  lemma {:induction false} AutoPicksFirst(cfg: Config, env: Env, n: nat, s: State, i: nat, g: nat)
    requires s.group == i
    ensures SelectAuto(cfg, env, n, s, i).0 == Some(Pick(g, Priority(s, g))) <==>
      i <= g < cfg.groups && env.available(n, g, Priority(s, g)) &&
      forall j :: i <= j < g ==> !env.available(n, j, Priority(s, j))
    ensures var pick := SelectAuto(cfg, env, n, s, i).0;
      pick.Some? ==> i <= pick.value.group && pick.value.priority == Priority(s, pick.value.group)
    decreases cfg.groups - i
  {
    assert Priority(s, i) == s.retry;
    if i < cfg.groups {
      if env.available(n, i, s.retry) {
        assert env.available(n, i, Priority(s, i));
      } else {
        var t := s.(retry := 0, group := i + 1);
        AutoPicksFirst(cfg, env, n, t, i + 1, g);
        forall j: nat | i + 1 <= j ensures Priority(t, j) == Priority(s, j) {}
        if forall j :: i + 1 <= j < g ==> !env.available(n, j, Priority(t, j)) {
          assert forall j :: i <= j < g ==> !env.available(n, j, Priority(s, j));
        }
        if forall j :: i <= j < g ==> !env.available(n, j, Priority(s, j)) {
          assert forall j :: i + 1 <= j < g ==> !env.available(n, j, Priority(t, j));
        }
      }
    }
  }

  /** Every selection that finds a channel costs a turn. */
  lemma SelectUsesFuel(cfg: Config, env: Env, n: nat, s: State)
    requires !s.keepRetry && s.retry <= cfg.retryTimes
    ensures var (pick, t) := Select(cfg, env, n, s);
      pick.Some? ==> Fuel(cfg, Increase(t)) < Fuel(cfg, s) && !Increase(t).keepRetry
  {
    if cfg.auto {
      SelectAutoMoves(cfg, env, n, s, s.group);
      var (pick, t) := SelectAuto(cfg, env, n, s, s.group);
      if pick.Some? {
        var g := pick.value.group;
        Multiply(cfg.groups - s.group, cfg.groups - g, Tries(cfg));
        Multiply(cfg.groups - g, cfg.groups - g - 1, Tries(cfg));
      }
    }
  }

  lemma {:induction false} Multiply(a: nat, b: nat, m: nat)
    requires a >= b
    ensures Times(a, m) >= Times(b, m) && (a > b ==> Times(a, m) >= Times(b, m) + m)
  {
    if a > b {
      Multiply(a - 1, b, m);
    }
  }

  // ----- the loops as they run -----

  /** `RetryParam`. */
  class RetryParam {
    var retry: nat
    var group: nat
    var keepRetry: bool

    constructor (group: nat)
      ensures View() == State(0, group, false)
    {
      retry := 0;
      this.group := group;
      keepRetry := false;
    }

    function View(): State
      reads this
    {
      State(retry, group, keepRetry)
    }

    method IncreaseRetry()
      modifies this
      ensures View() == Increase(old(View()))
    {
      if keepRetry {
        keepRetry := false;
        return;
      }
      retry := retry + 1;
    }

    /** `CacheGetRandomSatisfiedChannel`. */
    method SelectChannel(cfg: Config, env: Env, n: nat) returns (pick: Option<Pick>)
      modifies this
      ensures (pick, View()) == Select(cfg, env, n, old(View()))
    {
      if !cfg.auto {
        return if env.available(n, 0, retry) then Some(Pick(0, retry)) else None;
      }
      var start := group;
      var i := start;
      while i < cfg.groups
        invariant SelectAuto(cfg, env, n, View(), i) == old(SelectAuto(cfg, env, n, View(), group))
        invariant i >= start && (i > start ==> retry == 0)
      {
        var priority := if i > start then 0 else retry;
        if !env.available(n, i, priority) {
          group := i + 1;
          retry := 0;
          i := i + 1;
          continue;
        }
        if cfg.cross && priority >= cfg.retryTimes {
          group := i + 1;
          retry := 0;
          keepRetry := true;
        } else {
          group := i;
        }
        return Some(Pick(i, priority));
      }
      return None;
    }
  }

  /** The attempts made so far and those of the rest of the loop are all of them. */
  ghost predicate Adds(cfg: Config, env: Env, n: nat, s: State, done: Result, all: Result) {
    !s.keepRetry &&
    var rest := Loop(cfg, env, n, s, done.error);
    all == Result(done.attempts + rest.attempts, rest.error)
  }

  lemma NothingDone(cfg: Config, env: Env, s: State)
    requires !s.keepRetry
    ensures Adds(cfg, env, 0, s, Result([], None), Loop(cfg, env, 0, s, None))
  {
    hide Select, Retries, Look;
    var rest := Loop(cfg, env, 0, s, None);
    assert [] + rest.attempts == rest.attempts;
  }

  lemma NotKept(cfg: Config, env: Env, n: nat, s: State, done: Result, all: Result)
    requires Adds(cfg, env, n, s, done, all)
    ensures !s.keepRetry
  {
  }

  lemma TurnAdds(cfg: Config, env: Env, n: nat, s: State, done: Result, all: Result)
    requires Adds(cfg, env, n, s, done, all) && s.retry <= cfg.retryTimes
    ensures var (pick, t) := Look(cfg, env, n, s);
      match TakeTurn(cfg, env.turn(n), n, pick, t)
      case Stop(r) => all == Result(done.attempts + r.attempts, r.error)
      case GoOn(attempt, error) =>
        Adds(cfg, env, n + 1, Increase(t), Result(done.attempts + [attempt], Some(error)), all)
  {
    LookUsesFuel(cfg, env, n, s);
    hide Select, Look, Retries, Increase;
    var (pick, t) := Look(cfg, env, n, s);
    var ending := TakeTurn(cfg, env.turn(n), n, pick, t);
    if ending.GoOn? {
      hide TakeTurn;
      var rest := Loop(cfg, env, n + 1, Increase(t), Some(ending.error));
      assert done.attempts + ([ending.attempt] + rest.attempts) == done.attempts + [ending.attempt] + rest.attempts;
    }
  }

  /** The body of the loop: find a channel, rewind the request body, relay, and decide
      whether to go on. */
  method MakeAttempt(cfg: Config, env: Env, n: nat, turn: Turn, param: RetryParam) returns (ending: Ending)
    requires !param.keepRetry && param.retry <= cfg.retryTimes && turn == env.turn(n)
    modifies param
    ensures var (pick, t) := Look(cfg, env, n, old(param.View()));
      param.View() == t && ending == TakeTurn(cfg, env.turn(n), n, pick, t)
    ensures ending.GoOn? ==> n == 0 || Look(cfg, env, n, old(param.View())).0.Some?
  {
    hide Select, Retries;
    var pick: Option<Pick> := None;
    if n > 0 {
      pick := param.SelectChannel(cfg, env, n);
    }
    if n > 0 && (pick.None? || turn.setupFails) {
      return Stop(Result([], Some(NO_CHANNEL)));
    }
    if turn.bodyFails {
      return Stop(Result([], Some(BAD_BODY)));
    }
    var left := cfg.retryTimes - param.retry;
    var attempt := Attempt(pick, turn.outcome, turn.affinityStop, left);
    if turn.outcome.None? {
      return Stop(Result([attempt], None));
    }
    var retry := DecideRetry(cfg, turn.outcome.value, turn.affinityStop, left);
    if !retry {
      return Stop(Result([attempt], turn.outcome));
    }
    return GoOn(attempt, turn.outcome.value);
  }

  // ----- the payment on the way -----

  /** The session of the request, charges outside of it, and how often one was opened. */
  datatype Purse = Purse(billing: Option<Session>, funding: int, token: int, openings: nat)

  const EMPTY := Purse(None, 0, 0, 0)

  function Open(cfg: Config, p: Payment): Opening {
    Opened(p.request.(forcePreConsume := p.request.forcePreConsume || cfg.task), p.subscription, cfg.playground,
           p.amount, p.faults)
  }

  /** One attempt of a task: the first that gets there opens the session. Other requests
      have paid before the loop. */
  function Submit(cfg: Config, purse: Purse, turn: Turn): (Option<Error>, Purse) {
    if !cfg.task then (turn.outcome, purse)
    else
      match turn.submission
      case Rejected(error) => (Some(error), purse)
      case Submits(free, payment, refused, _) =>
        if purse.billing.Some? || free then (turn.outcome, purse)
        else
          var o := Open(cfg, payment);
          match o.session
          case None =>
            (Some(refused), purse.(funding := purse.funding + o.fundingCharge, token := purse.token + o.tokenCharge))
          case Some(session) =>
            (turn.outcome, purse.(billing := Some(session), openings := purse.openings + 1))
  }

  function PurseAfter(cfg: Config, env: Env, start: Purse, n: nat): Purse {
    if n == 0 then start else Submit(cfg, PurseAfter(cfg, env, start, n - 1), env.turn(n - 1)).1
  }

  function PayingTurn(cfg: Config, env: Env, start: Purse, n: nat): Turn {
    env.turn(n).(outcome := Submit(cfg, PurseAfter(cfg, env, start, n), env.turn(n)).0)
  }

  /** The turns as they end once the payment has its say. */
  function Paying(cfg: Config, env: Env, start: Purse): Env {
    Env(env.available, (n: nat) => PayingTurn(cfg, env, start, n))
  }

  function LoopFrom(cfg: Config, env: Env, start: Purse, group: nat): Result {
    Loop(cfg, Paying(cfg, env, start), 0, State(0, group, false), None)
  }

  lemma TurnOfPaying(cfg: Config, env: Env, start: Purse, n: nat)
    ensures Paying(cfg, env, start).turn(n) == PayingTurn(cfg, env, start, n)
  {
  }

  /** The loop of Relay and RelayTask. A task that is locked to a channel is the case
      without automatic groups. */
  method RunAttempts(cfg: Config, env: Env, group: nat, start: Purse)
    returns (attempts: seq<Attempt>, error: Option<Error>, purse: Purse)
    ensures Result(attempts, error) == LoopFrom(cfg, env, start, group)
    ensures purse == PurseAfter(cfg, env, start, |attempts|)
  {
    hide Fuel, Select, Retries, Loop, Adds, Look, TakeTurn, Submit, Paying;
    var paying := Paying(cfg, env, start);
    var param := new RetryParam(group);
    attempts, error, purse := [], None, start;
    ghost var all := Loop(cfg, paying, 0, param.View(), None);
    NothingDone(cfg, paying, param.View());
    while param.retry <= cfg.retryTimes
      invariant fresh(param) && Adds(cfg, paying, |attempts|, param.View(), Result(attempts, error), all)
      invariant purse == PurseAfter(cfg, env, start, |attempts|)
      decreases Fuel(cfg, param.View())
    {
      ghost var s, done := param.View(), Result(attempts, error);
      NotKept(cfg, paying, |attempts|, s, done, all);
      TurnAdds(cfg, paying, |attempts|, s, done, all);
      LookUsesFuel(cfg, paying, |attempts|, s);
      TurnOfPaying(cfg, env, start, |attempts|);
      var (outcome, next) := Submit(cfg, purse, env.turn(|attempts|));
      var ending := MakeAttempt(cfg, paying, |attempts|, env.turn(|attempts|).(outcome := outcome), param);
      match ending {
        case Stop(result) =>
          StopsWithin(cfg, paying, |attempts|, s);
          purse := if result.attempts == [] then purse else next;
          attempts, error := attempts + result.attempts, result.error;
          return;
        case GoOn(attempt, failure) =>
          attempts, error, purse := attempts + [attempt], Some(failure), next;
      }
      param.IncreaseRetry();
    }
    LoopIsOver(cfg, paying, |attempts|, param.View(), Result(attempts, error), all);
  }

  lemma StopsWithin(cfg: Config, env: Env, n: nat, s: State)
    ensures var (pick, t) := Look(cfg, env, n, s);
      var ending := TakeTurn(cfg, env.turn(n), n, pick, t);
      ending.Stop? ==> |ending.result.attempts| <= 1
  {
  }

  lemma LoopIsOver(cfg: Config, env: Env, n: nat, s: State, done: Result, all: Result)
    requires Adds(cfg, env, n, s, done, all) && s.retry > cfg.retryTimes
    ensures all == done
  {
    assert done.attempts + [] == done.attempts;
  }

  // ----- what holds of every run -----

  /** Attempts left once the first one, with the channel of the request, is over. */
  function AttemptsLeft(cfg: Config, s: State): nat {
    if s.retry > cfg.retryTimes || (cfg.auto && s.group >= cfg.groups) then 0
    else
      var later := if cfg.auto then cfg.groups - s.group - 1 else 0;
      Times(later, Tries(cfg)) + (cfg.retryTimes + 1 - s.retry)
  }

  lemma SelectUsesAttempt(cfg: Config, env: Env, n: nat, s: State)
    requires !s.keepRetry && s.retry <= cfg.retryTimes
    ensures var (pick, t) := Select(cfg, env, n, s);
      pick.Some? ==> !Increase(t).keepRetry && AttemptsLeft(cfg, s) >= 1 + AttemptsLeft(cfg, Increase(t))
  {
    if cfg.auto {
      SelectAutoMoves(cfg, env, n, s, s.group);
      var (pick, t) := SelectAuto(cfg, env, n, s, s.group);
      if pick.Some? {
        var g := pick.value.group;
        Multiply(cfg.groups - s.group, cfg.groups - g, Tries(cfg));
        Multiply(cfg.groups - g, cfg.groups - g - 1, Tries(cfg));
      }
    }
  }

  lemma {:induction false} LaterAttemptsBounded(cfg: Config, env: Env, n: nat, s: State, last: Option<Error>)
    requires !s.keepRetry && n > 0
    ensures |Loop(cfg, env, n, s, last).attempts| <= AttemptsLeft(cfg, s)
    decreases Fuel(cfg, s)
  {
    if s.retry <= cfg.retryTimes {
      var (pick, t) := Select(cfg, env, n, s);
      SelectUsesFuel(cfg, env, n, s);
      SelectUsesAttempt(cfg, env, n, s);
      if pick.Some? {
        LaterAttemptsBounded(cfg, env, n + 1, Increase(t), env.turn(n).outcome);
      }
    }
  }

  /** With a fixed group there are at most RetryTimes + 1 attempts. With automatic groups
      the counter restarts in every group, and the bound is per group; it is attained with
      handover and RetryTimes > 0 and need not be otherwise. */
  lemma AttemptsBounded(cfg: Config, env: Env, group: nat)
    ensures var n := |Loop(cfg, env, 0, State(0, group, false), None).attempts|;
      n <= if cfg.auto && group < cfg.groups then (cfg.groups - group) * Tries(cfg) else Tries(cfg)
  {
    LaterAttemptsBounded(cfg, env, 1, State(1, group, false), env.turn(0).outcome);
    OneMoreAttempt(cfg, env, group);
    hide Loop;
    if cfg.auto && group < cfg.groups {
      Multiply(cfg.groups - group, cfg.groups - group - 1, Tries(cfg));
      TimesIsProduct(cfg.groups - group, Tries(cfg));
    }
  }

  lemma OneMoreAttempt(cfg: Config, env: Env, group: nat)
    ensures |Loop(cfg, env, 0, State(0, group, false), None).attempts| <=
      if cfg.retryTimes < 0 then 0 else 1 + |Loop(cfg, env, 1, State(1, group, false), env.turn(0).outcome).attempts|
  {
    hide Select, Retries;
    if cfg.retryTimes >= 0 {
      LookUsesFuel(cfg, env, 0, State(0, group, false));
    }
  }

  /** The attempts from turn `n` on end as the turns do, every one but the last with an
      error that is worth another attempt. The loop ends without an error exactly when its
      last attempt succeeded, otherwise with that attempt's error unless there was no
      channel or no request body for the next one. */
  ghost predicate WellEnded(cfg: Config, env: Env, n: nat, last: Option<Error>, r: Result) {
    (forall i :: 0 <= i < |r.attempts| ==>
       var a := r.attempts[i];
       a.outcome == env.turn(n + i).outcome && a.affinityStop == env.turn(n + i).affinityStop) &&
    (forall i :: 0 <= i < |r.attempts| - 1 ==>
       var a := r.attempts[i]; a.outcome.Some? && Retriable(cfg, a.outcome.value, a.affinityStop, a.left)) &&
    (r.error.None? <==> r.attempts != [] && r.attempts[|r.attempts| - 1].outcome.None?) &&
    (r.error in {Some(NO_CHANNEL), Some(BAD_BODY)} ||
     r.error == if r.attempts == [] then last else r.attempts[|r.attempts| - 1].outcome)
  }

  lemma {:induction false} LoopEndsWell(cfg: Config, env: Env, n: nat, s: State, last: Option<Error>)
    requires !s.keepRetry && (n > 0 ==> last.Some?) && (n == 0 ==> s.retry == 0 <= cfg.retryTimes)
    ensures WellEnded(cfg, env, n, last, Loop(cfg, env, n, s, last))
    decreases Fuel(cfg, s)
  {
    hide Retries, Retriable, Select;
    if s.retry <= cfg.retryTimes {
      var (pick, t) := Look(cfg, env, n, s);
      LookUsesFuel(cfg, env, n, s);
      var ending := TakeTurn(cfg, env.turn(n), n, pick, t);
      if ending.GoOn? {
        RetriesIff(cfg, ending.error, ending.attempt.affinityStop, ending.attempt.left);
        LoopEndsWell(cfg, env, n + 1, Increase(t), Some(ending.error));
        PrependEndsWell(cfg, env, n, last, ending.attempt, Loop(cfg, env, n + 1, Increase(t), Some(ending.error)));
      }
    }
  }

  lemma PrependEndsWell(cfg: Config, env: Env, n: nat, last: Option<Error>, a: Attempt, rest: Result)
    requires a.outcome == env.turn(n).outcome && a.affinityStop == env.turn(n).affinityStop
    requires a.outcome.Some? && Retriable(cfg, a.outcome.value, a.affinityStop, a.left)
    requires WellEnded(cfg, env, n + 1, a.outcome, rest)
    ensures WellEnded(cfg, env, n, last, Result([a] + rest.attempts, rest.error))
  {
    hide Retriable;
    var all := [a] + rest.attempts;
    forall i | 0 <= i < |all|
      ensures all[i].outcome == env.turn(n + i).outcome && all[i].affinityStop == env.turn(n + i).affinityStop
    {
      if i > 0 {
        assert all[i] == rest.attempts[i - 1] && n + i == n + 1 + (i - 1);
      }
    }
  }

  /** A negative RetryTimes means that nothing is attempted, without an error. */
  lemma EndsWellIff(cfg: Config, env: Env, group: nat)
    ensures WellEnded(cfg, env, 0, None, Loop(cfg, env, 0, State(0, group, false), None)) <==> cfg.retryTimes >= 0
    ensures cfg.retryTimes < 0 ==> Loop(cfg, env, 0, State(0, group, false), None) == Result([], None)
  {
    if cfg.retryTimes >= 0 {
      LoopEndsWell(cfg, env, 0, State(0, group, false), None);
    }
  }

  /** Turn `n` has a channel and a request body. */
  predicate Served(cfg: Config, env: Env, n: nat, s: State) {
    (n == 0 || (Look(cfg, env, n, s).0.Some? && !env.turn(n).setupFails)) && !env.turn(n).bodyFails
  }

  /** While retries are left and the next turn is served, it happens exactly when this one
      ends in an error that is worth it. */
  lemma NextTurnIff(cfg: Config, env: Env, n: nat, s: State, last: Option<Error>)
    requires !s.keepRetry && s.retry <= cfg.retryTimes && Served(cfg, env, n, s)
    requires var next := Increase(Look(cfg, env, n, s).1);
      next.retry <= cfg.retryTimes && Served(cfg, env, n + 1, next)
    ensures |Loop(cfg, env, n, s, last).attempts| >= 2 <==>
      env.turn(n).outcome.Some? &&
      Retriable(cfg, env.turn(n).outcome.value, env.turn(n).affinityStop,
                cfg.retryTimes - Look(cfg, env, n, s).1.retry)
  {
    hide Select, Retries, Retriable;
    LookUsesFuel(cfg, env, n, s);
    var t := Look(cfg, env, n, s).1;
    LookUsesFuel(cfg, env, n + 1, Increase(t));
    if env.turn(n).outcome.Some? {
      RetriesIff(cfg, env.turn(n).outcome.value, env.turn(n).affinityStop, cfg.retryTimes - t.retry);
    }
  }

  /** Every turn finds a channel of the group and a request body. */
  ghost predicate AlwaysServed(env: Env) {
    (forall n: nat, p: nat :: env.available(n, 0, p)) &&
    forall n: nat :: !env.turn(n).setupFails && !env.turn(n).bodyFails
  }

  ghost predicate GoesOn(cfg: Config, env: Env, i: nat) {
    env.turn(i).outcome.Some? &&
    Retriable(cfg, env.turn(i).outcome.value, env.turn(i).affinityStop, cfg.retryTimes - i)
  }

  lemma {:induction false} LaterAttemptIff(cfg: Config, env: Env, group: nat, n: nat, last: Option<Error>, k: nat)
    requires !cfg.auto && AlwaysServed(env) && n <= k
    ensures k - n < |Loop(cfg, env, n, State(n, group, false), last).attempts| <==>
      k <= cfg.retryTimes && forall i :: n <= i < k ==> GoesOn(cfg, env, i)
    decreases k - n
  {
    hide Retries, Retriable;
    var s := State(n, group, false);
    if n <= cfg.retryTimes {
      var t := Look(cfg, env, n, s).1;
      LookUsesFuel(cfg, env, n, s);
      if env.turn(n).outcome.Some? {
        RetriesIff(cfg, env.turn(n).outcome.value, env.turn(n).affinityStop, cfg.retryTimes - n);
      }
      if k > n && GoesOn(cfg, env, n) {
        LaterAttemptIff(cfg, env, group, n + 1, env.turn(n).outcome, k);
      }
    }
  }

  /** With a fixed group whose channels are always there, turn `k` is attempted exactly
      when it is within RetryTimes and all turns before it ended in errors worth another
      attempt. */
  lemma AttemptIff(cfg: Config, env: Env, group: nat, k: nat)
    requires !cfg.auto && AlwaysServed(env)
    ensures k < |Loop(cfg, env, 0, State(0, group, false), None).attempts| <==>
      k <= cfg.retryTimes && forall i :: 0 <= i < k ==> GoesOn(cfg, env, i)
  {
    LaterAttemptIff(cfg, env, group, 0, None, k);
  }

  /** Lexicographic order on group and priority. */
  predicate Before(a: Pick, b: Pick) {
    a.group < b.group || (a.group == b.group && a.priority < b.priority)
  }

  predicate Ascending(attempts: seq<Attempt>) {
    (forall i :: 0 <= i < |attempts| ==> attempts[i].pick.Some?) &&
    (forall i, j :: 0 <= i < j < |attempts| ==> Before(attempts[i].pick.value, attempts[j].pick.value))
  }

  predicate NotBefore(attempts: seq<Attempt>, p: Pick) {
    forall i :: 0 <= i < |attempts| ==> attempts[i].pick.Some? && !Before(attempts[i].pick.value, p)
  }

  lemma SelectAscends(cfg: Config, env: Env, n: nat, s: State)
    requires !s.keepRetry && s.retry <= cfg.retryTimes && (!cfg.auto ==> s.group == 0)
    ensures var (pick, t) := Select(cfg, env, n, s);
      pick.Some? ==>
        && !Before(pick.value, Pick(s.group, s.retry))
        && Before(pick.value, Pick(Increase(t).group, Increase(t).retry))
        && (!cfg.auto ==> Increase(t).group == 0)
  {
    if cfg.auto {
      SelectAutoMoves(cfg, env, n, s, s.group);
    }
  }

  /** The loop never goes back to a group it left, nor to a priority it tried: each
      selected attempt is strictly later than the ones before. */
  lemma {:induction false} LaterAttemptsAscend(cfg: Config, env: Env, n: nat, s: State, last: Option<Error>)
    requires !s.keepRetry && n > 0 && (!cfg.auto ==> s.group == 0)
    ensures var attempts := Loop(cfg, env, n, s, last).attempts;
      Ascending(attempts) && NotBefore(attempts, Pick(s.group, s.retry))
    decreases Fuel(cfg, s)
  {
    hide Select, Retries;
    if s.retry <= cfg.retryTimes {
      var (pick, t) := Look(cfg, env, n, s);
      LookUsesFuel(cfg, env, n, s);
      SelectAscends(cfg, env, n, s);
      var ending := TakeTurn(cfg, env.turn(n), n, pick, t);
      if ending.GoOn? {
        LaterAttemptsAscend(cfg, env, n + 1, Increase(t), Some(ending.error));
      }
    }
  }

  lemma AttemptsAscend(cfg: Config, env: Env, group: nat)
    requires !cfg.auto ==> group == 0
    ensures var attempts := Loop(cfg, env, 0, State(0, group, false), None).attempts;
      attempts != [] ==> attempts[0].pick.None? && Ascending(attempts[1..])
  {
    hide Select, Retries;
    if cfg.retryTimes >= 0 {
      LookUsesFuel(cfg, env, 0, State(0, group, false));
    }
    LaterAttemptsAscend(cfg, env, 1, State(1, group, false), env.turn(0).outcome);
  }

  // ----- when RetryTimes + 1 is the bound -----

  /** An attempt that every retry rule retries while retries are left. */
  const BUSY := Error(429, true, false, false, false)

  function BusyTurn(): Turn {
    Turn(false, false, Some(BUSY), false, Rejected(BUSY))
  }

  /** Every attempt finds its channel busy, and `only` says where channels are. */
  function BusyEnv(only: nat -> bool): Env {
    Env((n: nat, g: nat, p: nat) => only(g), (n: nat) => BusyTurn())
  }

  function Second(group: nat): nat -> bool {
    g => g == group + 1
  }

  function Everywhere(): nat -> bool {
    g => true
  }

  lemma BusyIsRetried(cfg: Config, left: int)
    requires !cfg.task || (!cfg.pinned && left > 0)
    ensures Retries(cfg, BUSY, false, left)
  {
  }

  /** From a group with channels the loop uses up the retries that are left. */
  lemma {:induction false} BusyGroup(cfg: Config, only: nat -> bool, n: nat, s: State, last: Option<Error>)
    requires cfg.auto && !(cfg.task && cfg.pinned) && n > 0 && !s.keepRetry
    requires s.group < cfg.groups && only(s.group) && s.retry <= cfg.retryTimes
    ensures |Loop(cfg, BusyEnv(only), n, s, last).attempts| >= cfg.retryTimes + 1 - s.retry
    decreases cfg.retryTimes - s.retry
  {
    hide Retries;
    var env := BusyEnv(only);
    var (pick, t) := Look(cfg, env, n, s);
    LookUsesFuel(cfg, env, n, s);
    if s.retry < cfg.retryTimes {
      BusyIsRetried(cfg, cfg.retryTimes - t.retry);
      BusyGroup(cfg, only, n + 1, Increase(t), Some(BUSY));
    }
  }

  lemma SecondPick(cfg: Config, group: nat)
    requires cfg.auto && cfg.retryTimes > 0 && group + 1 < cfg.groups
    ensures Select(cfg, BusyEnv(Second(group)), 1, State(1, group, false)) ==
      (Some(Pick(group + 1, 0)), State(0, group + 1, false))
  {
    var env := BusyEnv(Second(group));
    assert !env.available(1, group, 1) && env.available(1, group + 1, 0);
    assert SelectAuto(cfg, env, 1, State(0, group + 1, false), group + 1) ==
      (Some(Pick(group + 1, 0)), State(0, group + 1, false));
  }

  /** Channels in the second group only: the first attempt, then a full round there. */
  lemma SecondGroupOnly(cfg: Config, group: nat)
    requires cfg.auto && !(cfg.task && cfg.pinned) && cfg.retryTimes > 0 && group + 1 < cfg.groups
    ensures |Loop(cfg, BusyEnv(Second(group)), 0, State(0, group, false), None).attempts| >= cfg.retryTimes + 2
  {
    hide Retries;
    var only := Second(group);
    var env := BusyEnv(only);
    var s0, s1 := State(0, group, false), State(1, group, false);
    LookUsesFuel(cfg, env, 0, s0);
    BusyIsRetried(cfg, cfg.retryTimes);
    SecondPick(cfg, group);
    hide Select;
    LookUsesFuel(cfg, env, 1, s1);
    BusyGroup(cfg, only, 2, State(1, group + 1, false), Some(BUSY));
    assert |Loop(cfg, env, 1, s1, Some(BUSY)).attempts| >= cfg.retryTimes + 1;
  }

  lemma PinnedTaskOnce(cfg: Config, env: Env, group: nat)
    requires cfg.task && cfg.pinned
    ensures |Loop(cfg, env, 0, State(0, group, false), None).attempts| <= Tries(cfg)
  {
  }

  /** Exactly when no environment makes the loop exceed RetryTimes + 1 attempts. */
  lemma RetryTimesBoundsIff(cfg: Config, group: nat)
    ensures (forall env: Env :: |Loop(cfg, env, 0, State(0, group, false), None).attempts| <= Tries(cfg)) <==>
      !cfg.auto || cfg.retryTimes <= 0 || cfg.groups <= group + 1 || (cfg.task && cfg.pinned)
  {
    if !cfg.auto || cfg.retryTimes <= 0 || cfg.groups <= group + 1 || (cfg.task && cfg.pinned) {
      forall env: Env ensures |Loop(cfg, env, 0, State(0, group, false), None).attempts| <= Tries(cfg) {
        if cfg.task && cfg.pinned {
          PinnedTaskOnce(cfg, env, group);
        } else {
          LaterAttemptsBounded(cfg, env, 1, State(1, group, false), env.turn(0).outcome);
          OneMoreAttempt(cfg, env, group);
          hide Loop;
        }
      }
    } else {
      SecondGroupOnly(cfg, group);
    }
  }

  /** With channels everywhere and handover, every group gets its round. */
  lemma {:induction false} LaterRounds(cfg: Config, n: nat, s: State, last: Option<Error>)
    requires !cfg.task && cfg.auto && cfg.cross && !s.keepRetry && n > 0 && s.retry <= cfg.retryTimes
    ensures |Loop(cfg, BusyEnv(Everywhere()), n, s, last).attempts| == AttemptsLeft(cfg, s)
    decreases Fuel(cfg, s)
  {
    hide Retries;
    if s.group < cfg.groups {
      var env := BusyEnv(Everywhere());
      var (pick, t) := Look(cfg, env, n, s);
      LookUsesFuel(cfg, env, n, s);
      SelectAutoMoves(cfg, env, n, s, s.group);
      BusyIsRetried(cfg, cfg.retryTimes - t.retry);
      LaterRounds(cfg, n + 1, Increase(t), Some(BUSY));
    }
  }

  /** So the bound per group is attained by a whole run. */
  lemma BoundIsReached(cfg: Config, group: nat)
    requires !cfg.task && cfg.auto && cfg.cross && cfg.retryTimes > 0 && group < cfg.groups
    ensures |Loop(cfg, BusyEnv(Everywhere()), 0, State(0, group, false), None).attempts| ==
      (cfg.groups - group) * Tries(cfg)
  {
    hide Retries;
    var env := BusyEnv(Everywhere());
    LookUsesFuel(cfg, env, 0, State(0, group, false));
    BusyIsRetried(cfg, cfg.retryTimes);
    LaterRounds(cfg, 1, State(1, group, false), Some(BUSY));
    TimesIsProduct(cfg.groups - group, Tries(cfg));
  }

  // ----- money -----

  const NO_FAULTS := Faults(false, false, false)

  predicate Answered(r: Result) {
    r.attempts != [] && r.attempts[|r.attempts| - 1].outcome.None?
  }

  function FundingOf(p: Purse): int {
    p.funding + if p.billing.Some? then p.billing.value.fundingCharge else 0
  }

  function TokenOf(p: Purse): int {
    p.token + if p.billing.Some? then p.billing.value.tokenCharge else 0
  }

  predicate IsOpen(s: Session) {
    Consistent(s) && !s.settled && !s.refunded
  }

  lemma OpenIsOpen(cfg: Config, p: Payment)
    ensures var o := Open(cfg, p);
      match o.session
      case Some(s) =>
        && IsOpen(s) && s.playground == cfg.playground
        && (!s.trusted && p.amount > 0 ==>
              s.fundingCharge == p.amount && s.tokenCharge == if cfg.playground then 0 else p.amount)
        && (s.trusted ==> !cfg.task && s.fundingCharge == s.tokenCharge == 0)
      case None => o.fundingCharge == 0 && o.tokenCharge >= 0 && (!p.faults.undo ==> o.tokenCharge == 0)
  {
    OpeningCharges(p.request.(forcePreConsume := p.request.forcePreConsume || cfg.task), p.subscription,
                   cfg.playground, p.amount, p.faults);
    OpeningIsConsistent(p.request.(forcePreConsume := p.request.forcePreConsume || cfg.task), p.subscription,
                        cfg.playground, p.amount, p.faults);
  }

  /** Giving back an open session leaves both ledgers where they started. */
  lemma RefundEmpties(s: Session)
    requires IsOpen(s)
    ensures var t := Refunded(s, NO_FAULTS);
      t.fundingCharge == 0 && t.tokenCharge == 0 && !t.settled && (t.refunded <==> s.preConsumed > 0)
  {
    RefundMatchesBill(s, BillingSessions.Bill.Open(s.preConsumed), NO_FAULTS);
  }

  lemma SettleCharges(s: Session, quota: int)
    requires IsOpen(s)
    ensures var t := Settled(s, quota, NO_FAULTS);
      t.fundingCharge == quota && t.tokenCharge == TokenDelta(s, quota) && t.settled && !t.refunded
  {
    SettleMatchesBill(s, BillingSessions.Bill.Open(s.preConsumed), quota, NO_FAULTS);
  }

  /** Relay pays before the loop, unless the model is free. An attempt that answers leaves
      the session to be settled; when none does, everything that was charged is given back.
      With a negative RetryTimes nothing is attempted and the charge stays. */
  method Relay(cfg: Config, env: Env, group: nat, free: bool, payment: Payment, refused: Error)
    returns (purse: Purse, error: Option<Error>)
    requires !cfg.task
    ensures !free && Open(cfg, payment).session.None? ==>
      error == Some(refused) && purse.billing.None? &&
      (!payment.faults.undo ==> FundingOf(purse) == 0 && TokenOf(purse) == 0)
    ensures free || Open(cfg, payment).session.Some? ==>
      var session := if free then None else Open(cfg, payment).session;
      var r := LoopFrom(cfg, env, EMPTY.(billing := session), group);
      && error == r.error
      && (Answered(r) || cfg.retryTimes < 0 ==>
            && error.None? && purse.billing == session
            && (session.Some? && !session.value.trusted && payment.amount > 0 ==>
                  && FundingOf(purse) == payment.amount
                  && TokenOf(purse) == if cfg.playground then 0 else payment.amount))
      && (!Answered(r) && cfg.retryTimes >= 0 ==>
            && error.Some? && FundingOf(purse) == 0 && TokenOf(purse) == 0
            && (session.Some? ==>
                  && purse.billing.Some?
                  && (purse.billing.value.refunded <==> session.value.preConsumed > 0)))
  {
    purse := EMPTY;
    if !free {
      OpenIsOpen(cfg, payment);
      var o := Open(cfg, payment);
      if o.session.None? {
        return purse.(funding := o.fundingCharge, token := o.tokenCharge), Some(refused);
      }
      purse := purse.(billing := o.session);
    }
    var start := purse;
    EndsWellIff(cfg, Paying(cfg, env, start), group);
    var attempts;
    attempts, error, purse := RunAttempts(cfg, env, group, start);
    PaidBefore(cfg, env, start, |attempts|);
    if error.Some? {
      if purse.billing.Some? {
        RefundEmpties(purse.billing.value);
        purse := purse.(billing := Some(Refunded(purse.billing.value, NO_FAULTS)));
      }
    }
  }

  lemma {:induction false} PaidBefore(cfg: Config, env: Env, start: Purse, n: nat)
    requires !cfg.task
    ensures PurseAfter(cfg, env, start, n) == start
  {
    if n > 0 {
      PaidBefore(cfg, env, start, n - 1);
    }
  }

  /** No failed opening leaves a charge behind. */
  ghost predicate OpeningsUndone(env: Env) {
    forall n: nat :: env.turn(n).submission.Submits? ==> !env.turn(n).submission.payment.faults.undo
  }

  /** At most one session is opened, it stays open through the loop, and nothing else is
      charged. */
  lemma {:induction false} OpenedAtMostOnce(cfg: Config, env: Env, n: nat)
    ensures var p := PurseAfter(cfg, env, EMPTY, n);
      && p.openings <= 1 && (p.billing.Some? <==> p.openings == 1)
      && (p.billing.Some? ==> IsOpen(p.billing.value) && p.billing.value.playground == cfg.playground)
      && p.funding == 0 && p.token >= 0 && (OpeningsUndone(env) ==> p.token == 0)
  {
    if n > 0 {
      OpenedAtMostOnce(cfg, env, n - 1);
      hide IsOpen, Open;
      var turn := env.turn(n - 1);
      if turn.submission.Submits? {
        OpenIsOpen(cfg, turn.submission.payment);
      }
    }
  }

  /** What the last attempt charges if it submitted the task. */
  function PriceOf(env: Env, n: nat): int
    requires n > 0
  {
    var submission := env.turn(n - 1).submission;
    if submission.Submits? then submission.quota else 0
  }

  lemma OnlySubmittedAnswers(cfg: Config, env: Env, start: Purse, n: nat)
    requires cfg.task
    ensures Paying(cfg, env, start).turn(n).outcome.None? ==> env.turn(n).submission.Submits?
  {
  }

  lemma TaskEnds(cfg: Config, env: Env, group: nat)
    requires cfg.task
    ensures var r := LoopFrom(cfg, env, EMPTY, group);
      && (Answered(r) ==> r.error.None? && env.turn(|r.attempts| - 1).submission.Submits?)
      && (r.error.None? ==> Answered(r) || (cfg.retryTimes < 0 && r.attempts == []))
  {
    var r := LoopFrom(cfg, env, EMPTY, group);
    EndsWellIff(cfg, Paying(cfg, env, EMPTY), group);
    if r.attempts != [] {
      OnlySubmittedAnswers(cfg, env, EMPTY, |r.attempts| - 1);
    }
    hide Loop, Paying, Retriable;
  }

  /** RelayTask: a submitted task costs its quota once, through the session if one was
      opened and directly otherwise; every other end of the loop costs nothing. At most one
      session is opened, and it is settled or given back, never both. */
  method RelayTask(cfg: Config, env: Env, group: nat) returns (purse: Purse, error: Option<Error>)
    requires cfg.task
    ensures purse.openings <= 1 && (purse.billing.Some? <==> purse.openings == 1)
    ensures var r := LoopFrom(cfg, env, EMPTY, group);
      && error == r.error && (Answered(r) ==> error.None?) && (error.None? ==> Answered(r) || cfg.retryTimes < 0)
      && (purse.billing.Some? ==>
            && (purse.billing.value.settled <==> Answered(r))
            && (purse.billing.value.refunded ==> !Answered(r)))
      && (OpeningsUndone(env) ==>
            if Answered(r) then
              var submission := env.turn(|r.attempts| - 1).submission;
              && submission.Submits? && FundingOf(purse) == submission.quota
              && TokenOf(purse) == (if cfg.playground then 0 else submission.quota)
            else FundingOf(purse) == 0 && TokenOf(purse) == 0)
  {
    hide IsOpen, Refunded, Settled, LoopFrom, OpeningsUndone;
    TaskEnds(cfg, env, group);
    var attempts;
    attempts, error, purse := RunAttempts(cfg, env, group, EMPTY);
    OpenedAtMostOnce(cfg, env, |attempts|);
    // Without an error and without an attempt there is no result, and the handler panics.
    if error.None? && attempts != [] {
      var quota := PriceOf(env, |attempts|);
      if purse.billing.Some? {
        SettleCharges(purse.billing.value, quota);
        purse := purse.(billing := Some(Settled(purse.billing.value, quota, NO_FAULTS)));
      } else {
        purse := purse.(funding := purse.funding + quota,
                        token := purse.token + if cfg.playground then 0 else quota);
      }
    }
    if error.Some? && purse.billing.Some? {
      RefundEmpties(purse.billing.value);
      purse := purse.(billing := Some(Refunded(purse.billing.value, NO_FAULTS)));
    }
  }
}
