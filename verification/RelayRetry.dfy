/** The retry loops of Relay and RelayTask in controller/relay.go, the channel selection that resets their counter in
    service/channel_select.go, and the settlement or refund at their end. */
module RelayRetry {
  import opened Prelude
  import Billing

  // ---------------------------------------------------------------- retry decisions

  datatype ApiError = ApiError(channelError: bool, skipRetry: bool, status: int, badBody: bool, violation: bool)

  datatype TaskError = TaskError(status: int, localError: bool)

  /** An inclusive range of status codes. */
  type Range = (int, int)

  function Normalize(e: ApiError): ApiError {
    if e.violation then e.(skipRetry := true) else e
  }

  predicate AlwaysSkip(status: int) {
    status == 504 || status == 524
  }

  /** The scan over the configured ranges, which gives up at the first range that starts above the code. */
  predicate Matches(ranges: seq<Range>, status: int) {
    && 100 <= status <= 599 && ranges != []
    && ranges[0].0 <= status && (status <= ranges[0].1 || Matches(ranges[1..], status))
  }

  predicate ShouldRetry(e: ApiError, affinitySkip: bool, left: int, specific: bool, ranges: seq<Range>) {
    if affinitySkip then false
    else if e.channelError then true
    else if e.skipRetry || left <= 0 || specific then false
    else if 200 <= e.status < 300 then false
    else if e.status < 100 || e.status > 599 then true
    else !e.badBody && !AlwaysSkip(e.status) && Matches(ranges, e.status)
  }

  predicate ShouldRetryTask(e: TaskError, affinitySkip: bool, left: int, specific: bool) {
    if affinitySkip || left <= 0 || specific then false
    else if e.status == 429 || e.status == 307 then true
    else if 500 <= e.status < 600 then !AlwaysSkip(e.status)
    else if e.status == 400 || e.status == 408 || e.localError then false
    else !(200 <= e.status < 300)
  }

  predicate InSomeRange(ranges: seq<Range>, status: int) {
    exists i :: 0 <= i < |ranges| && ranges[i].0 <= status <= ranges[i].1
  }

  predicate SortedByStart(ranges: seq<Range>) {
    forall i, j :: 0 <= i < j < |ranges| ==> ranges[i].0 <= ranges[j].0
  }

  /** Stopping early is right for ranges sorted by their start, overlapping or not. */
  lemma {:induction false} MatchesIffInRange(ranges: seq<Range>, status: int)
    requires SortedByStart(ranges)
    ensures Matches(ranges, status) <==> 100 <= status <= 599 && InSomeRange(ranges, status)
  {
    if ranges != [] {
      MatchesIffInRange(ranges[1..], status);
      assert forall i | 0 <= i < |ranges[1..]| :: ranges[1..][i] == ranges[i + 1];
      if i :| 0 <= i < |ranges| && ranges[i].0 <= status <= ranges[i].1 {
        assert i > 0 ==> ranges[1..][i - 1] == ranges[i];
        assert ranges[0].0 <= ranges[i].0;
      }
    }
  }

  const DEFAULT_RANGES: seq<Range> :=
    [(100, 199), (300, 399), (401, 407), (409, 499), (500, 503), (505, 523), (525, 599)]

  /** The rule that the default ranges stand for: everything but 2xx, 400, 408, 504 and 524. */
  predicate LegacyRule(status: int) {
    && 100 <= status <= 599 && !(200 <= status < 300)
    && status != 400 && status != 408 && status != 504 && status != 524
  }

  lemma DefaultRangesAreLegacyRule(status: int)
    ensures Matches(DEFAULT_RANGES, status) <==> LegacyRule(status)
  {
    MatchesIffInRange(DEFAULT_RANGES, status);
    if LegacyRule(status) {
      var i := if status < 200 then 0 else if status < 400 then 1 else if status < 408 then 2
               else if status < 500 then 3 else if status < 504 then 4 else if status < 524 then 5 else 6;
      assert DEFAULT_RANGES[i].0 <= status <= DEFAULT_RANGES[i].1;
    }
  }

  /** With the default ranges an upstream status decides alike for requests and for tasks, by the legacy rule. */
  lemma DecisionsAgree(status: int, affinitySkip: bool, left: int, specific: bool)
    requires 100 <= status <= 599
    ensures ShouldRetry(ApiError(false, false, status, false, false), affinitySkip, left, specific, DEFAULT_RANGES) <==>
            ShouldRetryTask(TaskError(status, false), affinitySkip, left, specific)
    ensures ShouldRetryTask(TaskError(status, false), affinitySkip, left, specific) <==>
            !affinitySkip && left > 0 && !specific && LegacyRule(status)
  {
    DefaultRangesAreLegacyRule(status);
  }

  /** Only a channel error is tried again without retries left, against skip-retry or a usage violation, or on a
      channel that the client fixed. Any other error is tried again exactly when its status is none of HTTP's or
      lies in some range. */
  lemma RetryNeedsAReason(e: ApiError, affinitySkip: bool, left: int, specific: bool, ranges: seq<Range>)
    requires SortedByStart(ranges)
    ensures ShouldRetry(Normalize(e), affinitySkip, left, specific, ranges) <==>
            && !affinitySkip
            && (e.channelError ||
                (&& !e.skipRetry && !e.violation && left > 0 && !specific
                 && (100 <= e.status <= 599 ==>
                       && InSomeRange(ranges, e.status) && !e.badBody
                       && !(200 <= e.status < 300) && !AlwaysSkip(e.status))))
  {
    MatchesIffInRange(ranges, e.status);
  }

  /** A task is tried again exactly with retries left, without a fixed channel, and for 429, 307, a 5xx status other
      than 504 and 524, or an error of the upstream with any other status but 2xx, 400 and 408. */
  lemma TaskRetryNeedsAReason(e: TaskError, affinitySkip: bool, left: int, specific: bool)
    ensures ShouldRetryTask(e, affinitySkip, left, specific) <==>
            && !affinitySkip && left > 0 && !specific
            && (|| e.status in {307, 429}
                || (500 <= e.status < 600 && e.status !in {504, 524})
                || (!e.localError && !(500 <= e.status < 600) && !(200 <= e.status < 300) && e.status !in {400, 408}))
  {
  }

  // ---------------------------------------------------------------- choosing a channel

  /** Where channels come from: one group, or the user's list of automatic groups. */
  datatype Pool = One | Auto(enabled: bool, groups: nat, cross: bool)

  /** The counter, the index of the automatic group in the request's context, and the flag that holds the counter
      once. */
  datatype Param = Param(retry: nat, group: nat, reset: bool)

  /** The channel that a group has at a priority, if any. */
  type Lookup = (nat, nat) -> Option<int>

  /** What one turn of the loop meets: which lookups find a channel, which steps fail, what the session does, and
      how the upstream call ends. */
  datatype Turn<E> = Turn(
    lookup: Lookup,
    inGroup: Option<int>,
    missing: E,
    setup: Option<E>,
    body: Option<E>,
    outcome: Option<E>,
    affinitySkip: bool,
    opens: Option<Billing.State>,
    ops: seq<Billing.Op>)

  function SelectAuto(p: Param, start: nat, i: nat, groups: nat, cross: bool, times: int,
                      lookup: Lookup): (Param, Option<int>)
    decreases groups - i
  {
    if i >= groups then (p, None)
    else
      var priority := if i > start then 0 else p.retry;
      if lookup(i, priority).None? then
        SelectAuto(p.(retry := 0, group := i + 1), start, i + 1, groups, cross, times, lookup)
      else if cross && priority >= times then (Param(0, i + 1, true), lookup(i, priority))
      else (p.(group := i), lookup(i, priority))
  }

  function Select<E>(p: Param, pool: Pool, times: int, turn: Turn<E>): (Param, Option<int>) {
    match pool
    case One => (p, turn.inGroup)
    case Auto(enabled, groups, cross) =>
      if enabled then SelectAuto(p, p.group, p.group, groups, cross, times, turn.lookup) else (p, None)
  }

  /** A group is asked at the counter's priority when the search starts there, and at the highest when it is reached. */
  function PriorityIn(start: nat, retry: nat, group: nat): nat {
    if group > start then 0 else retry
  }

  function ChannelIn(lookup: Lookup, start: nat, retry: nat, group: nat): Option<int> {
    lookup(group, PriorityIn(start, retry, group))
  }

  /** Group `j` is the first from `i` on that has a channel. */
  predicate IsFirst(lookup: Lookup, start: nat, retry: nat, i: nat, j: nat, groups: nat) {
    && i <= j < groups && ChannelIn(lookup, start, retry, j).Some?
    && forall k: nat | i <= k < j :: ChannelIn(lookup, start, retry, k).None?
  }

  /** The selection returns the channel of the first group, from the current one on, that has one at its priority;
      and none only when no group has. */
  lemma {:induction false} SelectsFirstGroup(p: Param, start: nat, i: nat, groups: nat, cross: bool, times: int,
                                             lookup: Lookup)
    requires start <= i && (i > start ==> p.retry == 0)
    ensures var (q, channel) := SelectAuto(p, start, i, groups, cross, times, lookup);
            && (channel.None? <==> forall j: nat | i <= j < groups :: ChannelIn(lookup, start, p.retry, j).None?)
            && forall j: nat | IsFirst(lookup, start, p.retry, i, j, groups) ::
                 && channel == ChannelIn(lookup, start, p.retry, j)
                 && q.group == if cross && PriorityIn(start, p.retry, j) >= times then j + 1 else j
    decreases groups - i
  {
    if i < groups && ChannelIn(lookup, start, p.retry, i).None? {
      SelectsFirstGroup(p.(retry := 0, group := i + 1), start, i + 1, groups, cross, times, lookup);
      assert forall j: nat | j > i :: ChannelIn(lookup, start, p.retry, j) == ChannelIn(lookup, start, 0, j);
      assert forall j: nat | IsFirst(lookup, start, p.retry, i, j, groups) ::
          j > i && IsFirst(lookup, start, 0, i + 1, j, groups);
    } else if i < groups {
      assert forall j: nat | IsFirst(lookup, start, p.retry, i, j, groups) :: j == i;
    }
  }

  function Increased(p: Param): Param {
    if p.reset then p.(reset := false) else p.(retry := p.retry + 1)
  }

  class RetryParam {
    var retry: nat
    var group: nat
    var resetNextTry: bool

    function Now(): Param
      reads this
    {
      Param(retry, group, resetNextTry)
    }

    constructor (group: nat)
      ensures Now() == Param(0, group, false)
    {
      this.retry, this.group, this.resetNextTry := 0, group, false;
    }

    method IncreaseRetry()
      modifies this
      ensures Now() == Increased(old(Now()))
    {
      if resetNextTry {
        resetNextTry := false;
        return;
      }
      retry := retry + 1;
    }

    method SelectChannel<E>(pool: Pool, times: int, turn: Turn<E>) returns (channel: Option<int>)
      modifies this
      ensures (Now(), channel) == Select(old(Now()), pool, times, turn)
    {
      match pool
      case One =>
        channel := turn.inGroup;
      case Auto(enabled, groups, cross) =>
        if !enabled { return None; }
        var start, i := group, group;
        channel := None;
        while i < groups
          invariant start <= i && channel.None?
          invariant SelectAuto(old(Now()), start, start, groups, cross, times, turn.lookup) ==
                    SelectAuto(Now(), start, i, groups, cross, times, turn.lookup)
        {
          var priority := if i > start then 0 else retry;
          channel := turn.lookup(i, priority);
          if channel.Some? {
            if cross && priority >= times {
              group, retry, resetNextTry := i + 1, 0, true;
            } else {
              group := i;
            }
            return;
          }
          group, retry := i + 1, 0;
          i := i + 1;
        }
    }
  }

  // ---------------------------------------------------------------- how many attempts are left

  /** The attempts that can still follow when every one of them has to select a channel first. */
  function RoomOf(pool: Pool, times: int, p: Param): nat {
    if p.retry > times then 0
    else match pool
      case One => times - p.retry + 1
      case Auto(enabled, groups, cross) =>
        if !enabled || p.group >= groups then 0
        else
          RoundsFit(groups - p.group - 1, RoundOf(cross, times));
          times - p.retry + 1 + (groups - p.group - 1) * RoundOf(cross, times)
  }

  /** The attempts that one more automatic group can add: without cross-group retry the turn that moves on to the
      group is one that would have been an attempt in the group before. */
  function RoundOf(cross: bool, times: int): nat
    requires times >= 0
  {
    if cross then times + 1 else times
  }

  lemma RoundsFit(rounds: nat, size: nat)
    ensures rounds * size >= 0
  {
  }

  /** The first turn of a request uses the channel chosen on arrival, and a locked channel is used in every turn. */
  function Room(pool: Pool, times: int, p: Param, first: bool, locked: bool): nat {
    if locked then RoomOf(One, times, p)
    else if first && p.retry <= times then 1 + RoomOf(pool, times, Increased(p))
    else RoomOf(pool, times, p)
  }

  lemma {:induction false} SelectAutoShrinks(p: Param, start: nat, i: nat, groups: nat, cross: bool, times: int,
                                             lookup: Lookup)
    requires !p.reset && p.retry <= times && p.group == i >= start && (i > start ==> p.retry == 0)
    ensures var (q, channel) := SelectAuto(p, start, i, groups, cross, times, lookup);
            var pool := Auto(true, groups, cross);
            channel.Some? ==> RoomOf(pool, times, Increased(q)) < RoomOf(pool, times, p)
    decreases groups - i
  {
    if i < groups {
      var pool := Auto(true, groups, cross);
      var priority := if i > start then 0 else p.retry;
      OneRoundLess(groups - i - 1, RoundOf(cross, times));
      if lookup(i, priority).None? {
        SelectAutoShrinks(p.(retry := 0, group := i + 1), start, i + 1, groups, cross, times, lookup);
        assert RoomOf(pool, times, p.(retry := 0, group := i + 1)) <= RoomOf(pool, times, p);
      }
    }
  }

  lemma OneRoundLess(rounds: nat, size: nat)
    ensures rounds > 0 ==> (rounds - 1) * size + size == rounds * size
  {
  }

  /** Every turn that goes on to another one uses up room, whether or not it resets the counter. */
  lemma SelectShrinks<E>(p: Param, pool: Pool, times: int, turn: Turn<E>)
    requires !p.reset && p.retry <= times && Select(p, pool, times, turn).1.Some?
    ensures RoomOf(pool, times, Increased(Select(p, pool, times, turn).0)) < RoomOf(pool, times, p)
    ensures !Increased(Select(p, pool, times, turn).0).reset
  {
    if pool.Auto? {
      SelectAutoShrinks(p, p.group, p.group, pool.groups, pool.cross, times, turn.lookup);
      SelectAutoReset(p, p.group, p.group, pool.groups, pool.cross, times, turn.lookup);
    }
  }

  lemma {:induction false} SelectAutoReset(p: Param, start: nat, i: nat, groups: nat, cross: bool, times: int,
                                           lookup: Lookup)
    requires !p.reset
    ensures !Increased(SelectAuto(p, start, i, groups, cross, times, lookup).0).reset
    decreases groups - i
  {
    if i < groups { SelectAutoReset(p.(retry := 0, group := i + 1), start, i + 1, groups, cross, times, lookup); }
  }

  // ---------------------------------------------------------------- the loop

  /** One request: what its turns meet, where its channels come from, and when it tries again. */
  datatype Request<!E> = Request(
    env: nat -> Turn<E>,
    pool: Pool,
    times: int,
    locked: bool,
    decide: (Turn<E>, E, int) -> bool)

  datatype End<E> = End(attempts: nat, error: Option<E>, session: Option<Billing.State>)

  /** What an upstream call does to the billing session: a task opens it in its first call that gets that far. */
  function After<E>(session: Option<Billing.State>, turn: Turn<E>): Option<Billing.State> {
    var open := if session.None? then turn.opens else session;
    if open.None? then None else Some(Billing.Run(open.value, turn.ops))
  }

  /** The turn's channel, or the error that ends the loop before the upstream is called. */
  function Choose<E>(k: nat, p: Param, r: Request<E>): (Param, Option<E>) {
    if r.locked then (p, if p.retry > 0 then r.env(k).setup else None)
    else if k == 0 then (p, None)
    else
      var (q, channel) := Select(p, r.pool, r.times, r.env(k));
      (q, if channel.Some? then r.env(k).setup else Some(r.env(k).missing))
  }

  function Left<E>(k: nat, p: Param, r: Request<E>): nat {
    Room(r.pool, r.times, p, k == 0, r.locked)
  }

  lemma ChooseShrinks<E>(k: nat, p: Param, r: Request<E>)
    requires !p.reset && p.retry <= r.times && Choose(k, p, r).1.None?
    ensures !Increased(Choose(k, p, r).0).reset
    ensures Left(k + 1, Increased(Choose(k, p, r).0), r) < Left(k, p, r)
  {
    if !r.locked && k > 0 { SelectShrinks(p, r.pool, r.times, r.env(k)); }
  }

  /** One turn calls the upstream, fails, and is followed by another. */
  predicate GoesOn<E>(k: nat, p: Param, r: Request<E>) {
    var (q, failed) := Choose(k, p, r);
    && p.retry <= r.times && failed.None? && r.env(k).body.None? && r.env(k).outcome.Some?
    && r.decide(r.env(k), r.env(k).outcome.value, r.times - q.retry)
  }

  /** The end of a loop whose turn `k` is the last. */
  function Stop<E>(k: nat, p: Param, last: Option<E>, session: Option<Billing.State>, r: Request<E>): End<E> {
    var failed := Choose(k, p, r).1;
    if p.retry > r.times then End(0, last, session)
    else if failed.Some? then End(0, failed, session)
    else if r.env(k).body.Some? then End(0, r.env(k).body, session)
    else End(1, r.env(k).outcome, After(session, r.env(k)))
  }

  function Loop<E>(k: nat, p: Param, last: Option<E>, session: Option<Billing.State>, r: Request<E>): End<E>
    requires !p.reset
    decreases Left(k, p, r)
  {
    if !GoesOn(k, p, r) then Stop(k, p, last, session, r)
    else
      ChooseShrinks(k, p, r);
      var rest := Loop(k + 1, Increased(Choose(k, p, r).0), r.env(k).outcome, After(session, r.env(k)), r);
      rest.(attempts := rest.attempts + 1)
  }

  method ChooseChannel<E>(param: RetryParam, k: nat, r: Request<E>) returns (failed: Option<E>)
    modifies param
    ensures (param.Now(), failed) == Choose(k, old(param.Now()), r)
  {
    failed := None;
    if r.locked {
      if param.retry > 0 { failed := r.env(k).setup; }
    } else if k > 0 {
      var channel := param.SelectChannel(r.pool, r.times, r.env(k));
      failed := if channel.Some? then r.env(k).setup else Some(r.env(k).missing);
    }
  }

  function Later<E>(end: End<E>, calls: nat): End<E> {
    end.(attempts := calls + end.attempts)
  }

  lemma LoopStep<E>(k: nat, p: Param, last: Option<E>, session: Option<Billing.State>, r: Request<E>)
    requires !p.reset
    ensures !GoesOn(k, p, r) ==> Loop(k, p, last, session, r) == Stop(k, p, last, session, r)
    ensures GoesOn(k, p, r) ==>
              var q := Increased(Choose(k, p, r).0);
              && !q.reset && Left(k + 1, q, r) < Left(k, p, r)
              && Loop(k, p, last, session, r) == Later(Loop(k + 1, q, r.env(k).outcome, After(session, r.env(k)), r), 1)
  {
    if GoesOn(k, p, r) { ChooseShrinks(k, p, r); }
  }

  /** The body of the loop. The out-parameter `calls` counts the upstream calls of this turn, 0 or 1. */
  method TakeTurn<E>(param: RetryParam, k: nat, ghost last: Option<E>, session: Option<Billing.State>, r: Request<E>)
    returns (again: bool, calls: nat, error: Option<E>, billing: Option<Billing.State>)
    requires param.retry <= r.times && !param.resetNextTry
    modifies param
    ensures !param.resetNextTry || !again
    ensures again ==> Left(k + 1, param.Now(), r) < old(Left(k, param.Now(), r))
    ensures old(Loop(k, param.Now(), last, session, r)) ==
            if again then Later(Loop(k + 1, param.Now(), error, billing, r), 1) else End(calls, error, billing)
  {
    LoopStep(k, param.Now(), last, session, r);
    var failed := ChooseChannel(param, k, r);
    if failed.Some? { return false, 0, failed, session; }
    if r.env(k).body.Some? { return false, 0, r.env(k).body, session; }
    calls, error, billing := 1, r.env(k).outcome, After(session, r.env(k));
    again := error.Some? && r.decide(r.env(k), error.value, r.times - param.retry);
    if again { param.IncreaseRetry(); }
  }

  method RunLoop<E>(group: nat, session: Option<Billing.State>, r: Request<E>) returns (end: End<E>)
    ensures end == Loop(0, Param(0, group, false), None, session, r)
  {
    var param := new RetryParam(group);
    var k: nat, error, billing := 0, None, session;
    ghost var whole := Loop(0, param.Now(), None, session, r);
    while param.retry <= r.times
      invariant !param.resetNextTry
      invariant whole == Later(Loop(k, param.Now(), error, billing, r), k)
      decreases Left(k, param.Now(), r)
    {
      var again, calls, e, b := TakeTurn(param, k, error, billing, r);
      if !again { return End(k + calls, e, b); }
      k, error, billing := k + 1, e, b;
    }
    end := End(k, error, billing);
  }

  /** However the calls end and however often a selection resets the counter, the attempts fit the room there was. */
  lemma {:induction false} AttemptsFitRoom<E>(k: nat, p: Param, last: Option<E>, session: Option<Billing.State>,
                                              r: Request<E>)
    requires !p.reset
    ensures Loop(k, p, last, session, r).attempts <= Left(k, p, r)
    decreases Left(k, p, r)
  {
    if p.retry <= r.times && Choose(k, p, r).1.None? {
      ChooseShrinks(k, p, r);
      if GoesOn(k, p, r) {
        AttemptsFitRoom(k + 1, Increased(Choose(k, p, r).0), r.env(k).outcome, After(session, r.env(k)), r);
      }
    }
  }

  /** The sessions of `n` upstream calls from turn `k` on. */
  function Sessions<E>(session: Option<Billing.State>, env: nat -> Turn<E>, k: nat, n: nat): Option<Billing.State>
    decreases n
  {
    if n == 0 then session else Sessions(After(session, env(k)), env, k + 1, n - 1)
  }

  /** The session saw exactly the calls that were made. */
  lemma {:induction false} SessionSeesTheCalls<E>(k: nat, p: Param, last: Option<E>,
                                                  session: Option<Billing.State>, r: Request<E>)
    requires !p.reset
    ensures var end := Loop(k, p, last, session, r);
            end.session == Sessions(session, r.env, k, end.attempts)
    decreases Left(k, p, r)
  {
    if GoesOn(k, p, r) {
      ChooseShrinks(k, p, r);
      SessionSeesTheCalls(k + 1, Increased(Choose(k, p, r).0), r.env(k).outcome, After(session, r.env(k)), r);
    }
  }

  /** The loop ends without an error exactly when its last call succeeded, and no call before that one did. */
  lemma {:induction false} NilErrorIffLastCallSucceeded<E>(k: nat, p: Param, last: Option<E>,
                                                           session: Option<Billing.State>, r: Request<E>)
    requires !p.reset && (p.retry <= r.times || last.Some?)
    ensures var end := Loop(k, p, last, session, r);
            && (end.error.None? <==> end.attempts > 0 && r.env(k + end.attempts - 1).outcome.None?)
            && forall j | k <= j < k + end.attempts - 1 :: r.env(j).outcome.Some?
    decreases Left(k, p, r)
  {
    if GoesOn(k, p, r) {
      ChooseShrinks(k, p, r);
      NilErrorIffLastCallSucceeded(k + 1, Increased(Choose(k, p, r).0), r.env(k).outcome, After(session, r.env(k)), r);
    }
  }

  // ---------------------------------------------------------------- which calls are made, and which error is returned

  /** The turn calls the upstream: a retry is left for it, it has a channel that could be set up, and the body. */
  predicate TurnCalls<E>(k: nat, p: Param, r: Request<E>) {
    p.retry <= r.times && Choose(k, p, r).1.None? && r.env(k).body.None?
  }

  /** Its call failed, and the error is to be tried again with the retries that are left. */
  predicate TurnRetries<E>(k: nat, p: Param, r: Request<E>) {
    var turn := r.env(k);
    turn.outcome.Some? && r.decide(turn, turn.outcome.value, r.times - Choose(k, p, r).0.retry)
  }

  /** Where turn `k + n` stands. */
  function ParamAt<E>(k: nat, p: Param, r: Request<E>, n: nat): Param
    decreases n
  {
    if n == 0 then p else ParamAt(k + 1, Increased(Choose(k, p, r).0), r, n - 1)
  }

  /** The error of a loop of `n` calls: of the last call when that is not tried again or no retry is left, otherwise of
      what kept the next turn from calling. */
  function ErrorAfter<E>(k: nat, p: Param, last: Option<E>, r: Request<E>, n: nat): Option<E> {
    var before := if n == 0 then last else r.env(k + n - 1).outcome;
    var q := ParamAt(k, p, r, n);
    if n > 0 && !TurnRetries(k + n - 1, ParamAt(k, p, r, n - 1), r) then before
    else if q.retry > r.times then before
    else if Choose(k + n, q, r).1.Some? then Choose(k + n, q, r).1
    else r.env(k + n).body
  }

  lemma FirstCallIff<E>(k: nat, p: Param, last: Option<E>, session: Option<Billing.State>, r: Request<E>)
    requires !p.reset
    ensures Loop(k, p, last, session, r).attempts > 0 <==> TurnCalls(k, p, r)
  {
    LoopStep(k, p, last, session, r);
  }

  lemma StopsAtOne<E>(k: nat, p: Param, last: Option<E>, session: Option<Billing.State>, r: Request<E>)
    requires !p.reset && !(TurnCalls(k, p, r) && TurnRetries(k, p, r))
    ensures Loop(k, p, last, session, r).attempts <= 1
  {
    LoopStep(k, p, last, session, r);
  }

  lemma OneMoreCall<E>(k: nat, p: Param, last: Option<E>, session: Option<Billing.State>, r: Request<E>)
    requires !p.reset && TurnCalls(k, p, r) && TurnRetries(k, p, r)
    ensures var q := Increased(Choose(k, p, r).0);
            && !q.reset
            && Loop(k, p, last, session, r).attempts ==
               1 + Loop(k + 1, q, r.env(k).outcome, After(session, r.env(k)), r).attempts
  {
    LoopStep(k, p, last, session, r);
  }

  lemma SecondCallIff<E>(k: nat, p: Param, last: Option<E>, session: Option<Billing.State>, r: Request<E>)
    requires !p.reset
    ensures var n := Loop(k, p, last, session, r).attempts;
            n > 1 <==> n > 0 && TurnRetries(k, p, r) && TurnCalls(k + 1, Increased(Choose(k, p, r).0), r)
  {
    FirstCallIff(k, p, last, session, r);
    if TurnCalls(k, p, r) && TurnRetries(k, p, r) {
      OneMoreCall(k, p, last, session, r);
      FirstCallIff(k + 1, Increased(Choose(k, p, r).0), r.env(k).outcome, After(session, r.env(k)), r);
    } else {
      StopsAtOne(k, p, last, session, r);
    }
  }

  lemma {:induction false} CallAfterCall<E>(k: nat, p: Param, last: Option<E>, session: Option<Billing.State>,
                                            r: Request<E>, j: nat, at: Param)
    requires !p.reset && at == ParamAt(k, p, r, j)
    ensures var n := Loop(k, p, last, session, r).attempts;
            n > j + 1 <==> && n > j && TurnRetries(k + j, at, r)
                           && TurnCalls(k + j + 1, Increased(Choose(k + j, at, r).0), r)
    decreases j
  {
    if j == 0 {
      SecondCallIff(k, p, last, session, r);
    } else if TurnCalls(k, p, r) && TurnRetries(k, p, r) {
      OneMoreCall(k, p, last, session, r);
      CallAfterCall(k + 1, Increased(Choose(k, p, r).0), r.env(k).outcome, After(session, r.env(k)), r, j - 1, at);
    } else {
      StopsAtOne(k, p, last, session, r);
    }
  }

  lemma {:induction false} ParamAfter<E>(k: nat, p: Param, r: Request<E>, j: nat)
    ensures ParamAt(k, p, r, j + 1) == Increased(Choose(k + j, ParamAt(k, p, r, j), r).0)
    decreases j
  {
    if j > 0 { ParamAfter(k + 1, Increased(Choose(k, p, r).0), r, j - 1); }
  }

  /** Call `j + 1` is made exactly when call `j` is, is to be tried again, and the next turn can call. So a call whose
      error is refused is the last, and after an error that is to be tried again there is another. */
  lemma NextCallIff<E>(k: nat, p: Param, last: Option<E>, session: Option<Billing.State>, r: Request<E>, j: nat)
    requires !p.reset
    ensures var n := Loop(k, p, last, session, r).attempts;
            n > j + 1 <==> && n > j && TurnRetries(k + j, ParamAt(k, p, r, j), r)
                           && TurnCalls(k + j + 1, ParamAt(k, p, r, j + 1), r)
  {
    CallAfterCall(k, p, last, session, r, j, ParamAt(k, p, r, j));
    ParamAfter(k, p, r, j);
  }

  lemma StopError<E>(k: nat, p: Param, last: Option<E>, session: Option<Billing.State>, r: Request<E>)
    requires !GoesOn(k, p, r)
    ensures var end := Stop(k, p, last, session, r);
            end.attempts <= 1 && end.error == ErrorAfter(k, p, last, r, end.attempts)
  {
  }

  lemma ErrorAfterStep<E>(k: nat, p: Param, last: Option<E>, r: Request<E>, n: nat)
    requires GoesOn(k, p, r)
    ensures ErrorAfter(k, p, last, r, n + 1) ==
            ErrorAfter(k + 1, Increased(Choose(k, p, r).0), r.env(k).outcome, r, n)
  {
    assert ParamAt(k, p, r, n + 1) == ParamAt(k + 1, Increased(Choose(k, p, r).0), r, n);
    if n > 0 { assert ParamAt(k, p, r, n) == ParamAt(k + 1, Increased(Choose(k, p, r).0), r, n - 1); }
  }

  /** The error that the loop returns. */
  lemma {:induction false} ErrorIs<E>(k: nat, p: Param, last: Option<E>, session: Option<Billing.State>, r: Request<E>)
    requires !p.reset
    ensures var end := Loop(k, p, last, session, r);
            end.error == ErrorAfter(k, p, last, r, end.attempts)
    decreases Left(k, p, r)
  {
    LoopStep(k, p, last, session, r);
    if GoesOn(k, p, r) {
      var q, error, after := Increased(Choose(k, p, r).0), r.env(k).outcome, After(session, r.env(k));
      ErrorIs(k + 1, q, error, after, r);
      ErrorAfterStep(k, p, last, r, Loop(k + 1, q, error, after, r).attempts);
    } else {
      StopError(k, p, last, session, r);
    }
  }

  /** Among `n` calls there is a call `j + 1` exactly when call `j` is to be tried again and the next turn can call. */
  predicate FollowsRule<E>(group: nat, r: Request<E>, n: nat, j: nat) {
    var p := Param(0, group, false);
    n > j + 1 <==> && n > j && TurnRetries(j, ParamAt(0, p, r, j), r) && TurnCalls(j + 1, ParamAt(0, p, r, j + 1), r)
  }

  /** The number of calls that the turns and the decisions allow, no more and no less. */
  ghost predicate Allowed<E>(group: nat, r: Request<E>, n: nat) {
    (n > 0 <==> TurnCalls(0, Param(0, group, false), r)) && forall j: nat :: FollowsRule(group, r, n, j)
  }

  lemma AttemptsAllowed<E>(group: nat, session: Option<Billing.State>, r: Request<E>)
    ensures Allowed(group, r, Loop(0, Param(0, group, false), None, session, r).attempts)
  {
    var p := Param(0, group, false);
    FirstCallIff(0, p, None, session, r);
    forall j: nat ensures FollowsRule(group, r, Loop(0, p, None, session, r).attempts, j) {
      NextCallIff(0, p, None, session, r, j);
    }
  }

  /** A call that fails with an error refused for every number of retries left is the last one, and that error is
      returned. */
  lemma RefusedIsLast<E>(group: nat, session: Option<Billing.State>, r: Request<E>, j: nat)
    requires j < Loop(0, Param(0, group, false), None, session, r).attempts
    requires r.env(j).outcome.Some? && forall left :: !r.decide(r.env(j), r.env(j).outcome.value, left)
    ensures var end := Loop(0, Param(0, group, false), None, session, r);
            end.attempts == j + 1 && end.error == r.env(j).outcome
  {
    NextCallIff(0, Param(0, group, false), None, session, r, j);
    ErrorIs(0, Param(0, group, false), None, session, r);
  }

  lemma {:induction false} CounterCounts<E>(k: nat, group: nat, r: Request<E>, n: nat)
    requires r.locked || r.pool.One?
    ensures ParamAt(k, Param(k, group, false), r, n) == Param(k + n, group, false)
    decreases n
  {
    if n > 0 { CounterCounts(k + 1, group, r, n - 1); }
  }

  /** With one group, or on a locked channel, turn `j` can call. */
  predicate OneGroupTurn<E>(r: Request<E>, j: nat) {
    var turn := r.env(j);
    j <= r.times && turn.body.None? && (j == 0 || (turn.setup.None? && (r.locked || turn.inGroup.Some?)))
  }

  /** With one group, or on a locked channel: the first call is made when the turn can call, and each further one when
      the call before it failed, is to be tried again with one retry less for every call made, and its turn can call. */
  lemma OneGroupCalls<E>(group: nat, session: Option<Billing.State>, r: Request<E>, j: nat)
    requires r.locked || r.pool.One?
    ensures var n, turn := Loop(0, Param(0, group, false), None, session, r).attempts, r.env(j);
            && (n > 0 <==> OneGroupTurn(r, 0))
            && (n > j + 1 <==> && n > j && turn.outcome.Some? && r.decide(turn, turn.outcome.value, r.times - j)
                               && OneGroupTurn(r, j + 1))
  {
    CounterCounts(0, group, r, j);
    CounterCounts(0, group, r, j + 1);
    FirstCallIff(0, Param(0, group, false), None, session, r);
    NextCallIff(0, Param(0, group, false), None, session, r, j);
  }

  /** And the error returned is that of the last call when it succeeded, is refused or was the last that RetryTimes
      allows; otherwise that of the turn after it, whose channel, setup or body is missing. */
  lemma OneGroupError<E>(group: nat, session: Option<Billing.State>, r: Request<E>)
    requires r.locked || r.pool.One?
    ensures var end := Loop(0, Param(0, group, false), None, session, r);
            var n := end.attempts;
            var turn := r.env(n);
            end.error ==
              if n > 0 && (var was := r.env(n - 1); was.outcome.None? || n > r.times ||
                                                    !r.decide(was, was.outcome.value, r.times - (n - 1)))
              then r.env(n - 1).outcome
              else if r.times < 0 then None
              else if n > 0 && !r.locked && turn.inGroup.None? then Some(turn.missing)
              else if n > 0 && turn.setup.Some? then turn.setup
              else turn.body
  {
    var n := Loop(0, Param(0, group, false), None, session, r).attempts;
    ErrorIs(0, Param(0, group, false), None, session, r);
    CounterCounts(0, group, r, n);
    if n > 0 { CounterCounts(0, group, r, n - 1); }
  }

  /** A negative retry count makes no call at all, and still ends without an error. */
  lemma NegativeTimesCallNobody<E>(group: nat, session: Option<Billing.State>, r: Request<E>)
    requires r.times < 0
    ensures Loop(0, Param(0, group, false), None, session, r) == End(0, None, session)
  {
  }

  // ---------------------------------------------------------------- how many attempts a request makes

  /** The sharp bound on the attempts of one request. */
  function MaxAttempts(pool: Pool, times: int, group: nat, locked: bool): nat {
    if times < 0 then 0
    else if locked || pool.One? then times + 1
    else if times == 0 || !pool.enabled || group >= pool.groups then 1
    else
      RoundsFit(pool.groups - group, RoundOf(pool.cross, times));
      (pool.groups - group) * RoundOf(pool.cross, times) + if pool.cross then 0 else 1
  }

  lemma AttemptsBounded<E>(group: nat, session: Option<Billing.State>, r: Request<E>)
    ensures Loop(0, Param(0, group, false), None, session, r).attempts <= MaxAttempts(r.pool, r.times, group, r.locked)
  {
    AttemptsFitRoom(0, Param(0, group, false), None, session, r);
    if r.pool.Auto? && group < r.pool.groups && r.times >= 0 {
      OneRoundLess(r.pool.groups - group, RoundOf(r.pool.cross, r.times));
    }
  }

  function RelayRequest(env: nat -> Turn<ApiError>, pool: Pool, times: int, specific: bool,
                        ranges: seq<Range>): Request<ApiError> {
    Request(env, pool, times, false,
            (turn: Turn<ApiError>, e: ApiError, left: int) =>
              ShouldRetry(Normalize(e), turn.affinitySkip, left, specific, ranges))
  }

  function TaskRequest(env: nat -> Turn<TaskError>, pool: Pool, times: int, locked: bool,
                       specific: bool): Request<TaskError> {
    Request(env, pool, times, locked,
            (turn: Turn<TaskError>, e: TaskError, left: int) => ShouldRetryTask(e, turn.affinitySkip, left, specific))
  }

  /** Every turn fails with this error. Without cross-group retry each group but the last runs out of channels at the
      last priority. */
  function Worst<E>(pool: Pool, times: int, e: E): nat -> Turn<E>
    requires pool.Auto?
  {
    k => Turn((i, priority) => if pool.cross || priority < times || i + 1 == pool.groups then Some(i) else None,
              None, e, None, None, Some(e), false, None, [])
  }

  function WorstRequest(pool: Pool, times: int, ranges: seq<Range>): Request<ApiError>
    requires pool.Auto?
  {
    RelayRequest(Worst(pool, times, ApiError(true, false, 500, false, false)), pool, times, false, ranges)
  }

  function WorstTask(pool: Pool, times: int): Request<TaskError>
    requires pool.Auto?
  {
    TaskRequest(Worst(pool, times, TaskError(500, false)), pool, times, false, false)
  }

  /** A request that meets the worst turns and tries again as long as it has retries left. */
  ghost predicate IsWorst<E>(r: Request<E>, e: E) {
    && r.pool.Auto? && r.pool.enabled && r.times >= 1 && !r.locked && r.env == Worst(r.pool, r.times, e)
    && forall k: nat, left: int | left > 0 :: r.decide(r.env(k), e, left)
  }

  /** Where the next turn of the worst run stands. */
  function WorstNext(pool: Pool, times: int, p: Param): Param
    requires pool.Auto?
  {
    if p.retry < times then p.(retry := p.retry + 1)
    else if pool.cross then Param(0, p.group + 1, false)
    else if p.group + 1 < pool.groups then Param(1, p.group + 1, false)
    else p.(retry := p.retry + 1)
  }

  lemma WorstSelects(pool: Pool, times: int, p: Param, lookup: Lookup)
    requires pool.Auto? && times >= 1 && p.group < pool.groups && p.retry <= times && !p.reset
    requires forall i: nat, priority: nat ::
               lookup(i, priority).Some? <==> pool.cross || priority < times || i + 1 == pool.groups
    ensures var (q, channel) := SelectAuto(p, p.group, p.group, pool.groups, pool.cross, times, lookup);
            && channel.Some? && Increased(q) == WorstNext(pool, times, p)
            && (RoomOf(pool, times, WorstNext(pool, times, p)) > 0 ==> q.retry < times)
  {
    if lookup(p.group, p.retry).None? {
      var moved := p.(retry := 0, group := p.group + 1);
      assert lookup(p.group + 1, 0).Some?;
      assert SelectAuto(moved, p.group, p.group + 1, pool.groups, pool.cross, times, lookup)
          == (moved, lookup(p.group + 1, 0));
    }
  }

  /** A turn of the worst run calls the upstream, and is followed by another if that has room. */
  lemma WorstTurn<E>(k: nat, p: Param, r: Request<E>, e: E)
    requires IsWorst(r, e) && p.retry <= r.times && !p.reset
    requires if k == 0 then p.retry < r.times else p.group < r.pool.groups
    ensures var (q, failed) := Choose(k, p, r);
            var next := WorstNext(r.pool, r.times, p);
            && failed.None? && Increased(q) == next
            && (RoomOf(r.pool, r.times, next) > 0 ==> GoesOn(k, p, r))
  {
    var turn := r.env(k);
    if k > 0 { WorstSelects(r.pool, r.times, p, turn.lookup); }
  }

  /** The worst run uses up all the room. */
  lemma {:induction false} WorstUsesRoom<E>(k: nat, p: Param, last: Option<E>, r: Request<E>, e: E)
    requires IsWorst(r, e) && k > 0 && !p.reset
    ensures Loop(k, p, last, None, r).attempts == RoomOf(r.pool, r.times, p)
    decreases RoomOf(r.pool, r.times, p)
  {
    AttemptsFitRoom(k, p, last, None, r);
    if p.retry <= r.times && p.group < r.pool.groups {
      WorstTurn(k, p, r, e);
      OneRoundLess(r.pool.groups - p.group - 1, RoundOf(r.pool.cross, r.times));
      LoopStep(k, p, last, None, r);
      var next := WorstNext(r.pool, r.times, p);
      assert RoomOf(r.pool, r.times, next) + 1 == RoomOf(r.pool, r.times, p);
      if GoesOn(k, p, r) {
        WorstUsesRoom(k + 1, next, r.env(k).outcome, r, e);
        assert After(None, r.env(k)) == None;
      }
    }
  }

  function AttemptsOf<E>(group: nat, session: Option<Billing.State>, r: Request<E>): nat {
    Loop(0, Param(0, group, false), None, session, r).attempts
  }

  lemma WorstReachesMax<E>(group: nat, r: Request<E>, e: E)
    requires IsWorst(r, e) && group < r.pool.groups
    ensures AttemptsOf(group, None, r) == MaxAttempts(r.pool, r.times, group, false)
  {
    var p := Param(0, group, false);
    WorstTurn(0, p, r, e);
    LoopStep(0, p, None, None, r);
    assert After(None, r.env(0)) == None;
    OneRoundLess(r.pool.groups - group, RoundOf(r.pool.cross, r.times));
    WorstUsesRoom(1, Param(1, group, false), r.env(0).outcome, r, e);
  }

  /** The bound is reached for every setting with automatic groups, by requests and by tasks. */
  lemma MaxAttemptsReached(group: nat, pool: Pool, times: int, ranges: seq<Range>)
    requires pool.Auto? && pool.enabled && group < pool.groups && times >= 1
    ensures AttemptsOf(group, None, WorstRequest(pool, times, ranges)) == MaxAttempts(pool, times, group, false)
    ensures AttemptsOf(group, None, WorstTask(pool, times)) == MaxAttempts(pool, times, group, false)
  {
    WorstReachesMax(group, WorstRequest(pool, times, ranges), ApiError(true, false, 500, false, false));
    WorstReachesMax(group, WorstTask(pool, times), TaskError(500, false));
  }

  /** More than one automatic group is left, and there is a retry to spend in each. */
  predicate RoundsRepeat(group: nat, pool: Pool, times: int) {
    pool.Auto? && pool.enabled && group + 1 < pool.groups && times >= 1
  }

  /** No request makes more than times + 1 attempts, whatever its turns meet. */
  ghost predicate NeverMoreThanTimes(group: nat, pool: Pool, times: int, ranges: seq<Range>) {
    forall env, specific, session ::
      AttemptsOf(group, session, RelayRequest(env, pool, times, specific, ranges)) <= times + 1
  }

  ghost predicate TaskNeverMoreThanTimes(group: nat, pool: Pool, times: int, locked: bool) {
    forall env, specific :: AttemptsOf(group, None, TaskRequest(env, pool, times, locked, specific)) <= times + 1
  }

  lemma MoreThanTimesAttempts(group: nat, pool: Pool, times: int, ranges: seq<Range>)
    requires RoundsRepeat(group, pool, times)
    ensures AttemptsOf(group, None, WorstRequest(pool, times, ranges)) > times + 1
    ensures AttemptsOf(group, None, WorstTask(pool, times)) > times + 1
  {
    MaxAttemptsReached(group, pool, times, ranges);
    AtLeastTwoRounds(pool.groups - group, RoundOf(pool.cross, times));
  }

  lemma OneGroupIsEnough<E>(group: nat, session: Option<Billing.State>, r: Request<E>)
    requires r.times >= 0 && (r.locked || !RoundsRepeat(group, r.pool, r.times))
    ensures AttemptsOf(group, session, r) <= r.times + 1
  {
    AttemptsBounded(group, session, r);
  }

  /** That holds if and only if there is no retry or at most one automatic group is left: with two, the counter starts
      again when the first is exhausted or has no channel, even without cross-group retry. */
  lemma NeverMoreThanTimesIff(group: nat, pool: Pool, times: int, ranges: seq<Range>)
    requires times >= 0
    ensures NeverMoreThanTimes(group, pool, times, ranges) <==> !RoundsRepeat(group, pool, times)
  {
    if RoundsRepeat(group, pool, times) {
      MoreThanTimesAttempts(group, pool, times, ranges);
    } else {
      forall env, specific, session
        ensures AttemptsOf(group, session, RelayRequest(env, pool, times, specific, ranges)) <= times + 1
      {
        OneGroupIsEnough(group, session, RelayRequest(env, pool, times, specific, ranges));
      }
    }
  }

  /** And for tasks likewise, or when the channel is locked. */
  lemma TaskNeverMoreThanTimesIff(group: nat, pool: Pool, times: int, locked: bool)
    requires times >= 0
    ensures TaskNeverMoreThanTimes(group, pool, times, locked) <==> locked || !RoundsRepeat(group, pool, times)
  {
    if !locked && RoundsRepeat(group, pool, times) {
      MoreThanTimesAttempts(group, pool, times, []);
    } else {
      forall env, specific
        ensures AttemptsOf(group, None, TaskRequest(env, pool, times, locked, specific)) <= times + 1
      {
        OneGroupIsEnough(group, None, TaskRequest(env, pool, times, locked, specific));
      }
    }
  }

  lemma AtLeastTwoRounds(rounds: nat, size: nat)
    requires rounds >= 2
    ensures rounds * size >= 2 * size
  {
  }

  // ---------------------------------------------------------------- settlement or refund

  /** The deferred step of Relay after an error: bill what the upstream already did, or give the money back. */
  function ErrorClosing(s: Billing.State, billable: bool, settle: Billing.Op, refund: Billing.Op): Billing.Op {
    if Billing.NeedsRefund(s) && billable then settle else refund
  }

  /** Relay from the pre-consume on. The session is None for a free model. The two closing calls say what the
      failure costs and which of their writes succeed. */
  method Relay(group: nat, pool: Pool, times: int, env: nat -> Turn<ApiError>, specific: bool, ranges: seq<Range>,
               session: Option<Billing.State>, billable: bool, settle: Billing.Op, refund: Billing.Op)
    returns (error: Option<ApiError>, attempts: nat, after: Option<Billing.State>)
    requires settle.Settle? && refund.Refund?
    ensures attempts <= MaxAttempts(pool, times, group, false)
    ensures times >= 0 ==> (error.None? <==> attempts > 0 && env(attempts - 1).outcome.None?)
    ensures Allowed(group, RelayRequest(env, pool, times, specific, ranges), attempts)
    ensures var r := RelayRequest(env, pool, times, specific, ranges);
            var last := ErrorAfter(0, Param(0, group, false), None, r, attempts);
            error == if last.None? then None else Some(Normalize(last.value))
    ensures var s := Sessions(session, env, 0, attempts);
            after == if error.None? || s.None? then s
                     else Some(Billing.Apply(s.value, ErrorClosing(s.value, billable, settle, refund)))
  {
    ghost var r := RelayRequest(env, pool, times, specific, ranges);
    AttemptsBounded(group, session, r);
    AttemptsAllowed(group, session, r);
    ErrorIs(0, Param(0, group, false), None, session, r);
    SessionSeesTheCalls(0, Param(0, group, false), None, session, r);
    if times >= 0 { NilErrorIffLastCallSucceeded(0, Param(0, group, false), None, session, r); }
    var end := RunLoop(group, session, RelayRequest(env, pool, times, specific, ranges));
    attempts, after := end.attempts, end.session;
    error := None;
    if end.error.Some? {
      error := Some(Normalize(end.error.value));
      if after.Some? {
        if Billing.NeedsRefund(after.value) && billable {
          after := Some(Billing.Settled(after.value, settle.actual, settle.fundsOk, settle.tokenOk));
        } else {
          after := Some(Billing.Refunded(after.value, refund.fundsOk, refund.extraOk, refund.tokenOk));
        }
      }
    }
  }

  /** RelayTask from the loop on. A task opens its session in the loop; on success it is settled, on an error refunded.
      With a negative retry count no call was made, and reading its missing result stops the request. */
  method RelayTask(group: nat, pool: Pool, times: int, locked: bool, env: nat -> Turn<TaskError>, specific: bool,
                   settle: Billing.Op, refund: Billing.Op)
    returns (error: Option<TaskError>, attempts: nat, after: Option<Billing.State>, crashed: bool)
    requires settle.Settle? && refund.Refund?
    ensures attempts <= MaxAttempts(pool, times, group, locked)
    ensures crashed <==> times < 0
    ensures !crashed ==> (error.None? <==> attempts > 0 && env(attempts - 1).outcome.None?)
    ensures Allowed(group, TaskRequest(env, pool, times, locked, specific), attempts)
    ensures var r := TaskRequest(env, pool, times, locked, specific);
            error == ErrorAfter(0, Param(0, group, false), None, r, attempts)
    ensures var s := Sessions(None, env, 0, attempts);
            after == if s.None? then None else Some(Billing.Apply(s.value, if error.None? then settle else refund))
  {
    ghost var r := TaskRequest(env, pool, times, locked, specific);
    AttemptsBounded(group, None, r);
    AttemptsAllowed(group, None, r);
    ErrorIs(0, Param(0, group, false), None, None, r);
    SessionSeesTheCalls(0, Param(0, group, false), None, None, r);
    if times >= 0 { NilErrorIffLastCallSucceeded(0, Param(0, group, false), None, None, r); }
    var end := RunLoop(group, None, TaskRequest(env, pool, times, locked, specific));
    error, attempts, after := end.error, end.attempts, end.session;
    crashed := error.None? && attempts == 0;
    if crashed {
      return;
    }
    if error.None? && after.Some? {
      after := Some(Billing.Settled(after.value, settle.actual, settle.fundsOk, settle.tokenOk));
    }
    if error.Some? && after.Some? {
      after := Some(Billing.Refunded(after.value, refund.fundsOk, refund.extraOk, refund.tokenOk));
    }
  }

  /** What the upstream calls did to an open session. */
  function CallOps<E>(env: nat -> Turn<E>, k: nat, n: nat): seq<Billing.Op>
    decreases n
  {
    if n == 0 then [] else env(k).ops + CallOps(env, k + 1, n - 1)
  }

  lemma {:induction false} RunAppend(s: Billing.State, first: seq<Billing.Op>, second: seq<Billing.Op>)
    ensures Billing.Run(s, first + second) == Billing.Run(Billing.Run(s, first), second)
    decreases |first|
  {
    if first == [] {
      assert first + second == second;
    } else {
      assert (first + second)[1..] == first[1..] + second;
      RunAppend(Billing.Apply(s, first[0]), first[1..], second);
    }
  }

  lemma {:induction false} SessionsRunTheOps<E>(s: Billing.State, env: nat -> Turn<E>, k: nat, n: nat)
    ensures Sessions(Some(s), env, k, n) == Some(Billing.Run(s, CallOps(env, k, n)))
    decreases n
  {
    if n > 0 {
      RunAppend(s, env(k).ops, CallOps(env, k + 1, n - 1));
      SessionsRunTheOps(Billing.Run(s, env(k).ops), env, k + 1, n - 1);
    }
  }

  /** What the customer has paid once a failed request is closed whose calls left the session open. The settlement of a
      billable failure may fail on the source; no refund follows then, so what was held stays paid. */
  function FailureCharge(t: Billing.State, surplus: nat, stranded: nat, billable: bool, settle: Billing.Op,
                         refund: Billing.Op): int
    requires settle.Settle? && refund.Refund?
  {
    if t.preConsumed + surplus == 0 then stranded
    else if !billable then Billing.Left(t, surplus, stranded, refund)
    else if settle.fundsOk || settle.actual == t.preConsumed then settle.actual + surplus + stranded
    else t.preConsumed + surplus + stranded
  }

  lemma FailureClosing(t: Billing.State, surplus: nat, h: Billing.History, billable: bool, settle: Billing.Op,
                       refund: Billing.Op)
    requires Billing.Books(t, surplus, h) && settle.Settle? && refund.Refund?
    ensures var final := Billing.Apply(t, ErrorClosing(t, billable, settle, refund));
            if t.settled || t.refunded then final == t
            else final.funds == FailureCharge(t, surplus, h.stranded, billable, settle, refund)
  {
    if !t.settled && !t.refunded {
      Billing.SettleKeepsBooks(t, surplus, h, settle);
      Billing.RefundLeaves(t, surplus, h, refund);
    }
  }

  /** After a failed request whose calls left the session open, for all quotas and whichever writes failed: the customer
      has paid the cost of what the upstream did when that is billable, something was held and the settlement succeeds;
      what was held when it fails; and what the refund leaves otherwise. A session that the calls closed stays as it
      was. */
  lemma FailedRelayCharges(o: Billing.Start, env: nat -> Turn<ApiError>, n: nat, billable: bool, settle: Billing.Op,
                           refund: Billing.Op)
    requires Billing.Opened(o).0 && settle.Settle? && refund.Refund?
    ensures var s := Billing.Opened(o).1;
            var t := Sessions(Some(s), env, 0, n);
            && t.Some?
            && var final := Billing.Apply(t.value, ErrorClosing(t.value, billable, settle, refund));
               if t.value.settled || t.value.refunded then final == t.value
               else final.funds == FailureCharge(t.value, Billing.Surplus(o),
                                                 Billing.HistoryOf(s, CallOps(env, 0, n)).stranded, billable, settle,
                                                 refund)
  {
    var s, ops := Billing.Opened(o).1, CallOps(env, 0, n);
    SessionsRunTheOps(s, env, 0, n);
    Billing.OpenedRunKeepsBooks(o, ops);
    FailureClosing(Billing.Run(s, ops), Billing.Surplus(o), Billing.HistoryOf(s, ops), billable, settle, refund);
  }

  /** A session just after its pre-consume succeeded. */
  ghost predicate IsNew(s: Billing.State) {
    exists o :: Billing.Opened(o) == (true, s)
  }

  /** A task's calls open a session at most once and leave it as it was: later calls find it and skip the
      pre-consume. */
  lemma {:induction false} TaskSessionStaysNew(session: Option<Billing.State>, env: nat -> Turn<TaskError>, k: nat,
                                               n: nat)
    requires session.Some? ==> IsNew(session.value)
    requires forall j | k <= j < k + n :: env(j).ops == [] && (env(j).opens.Some? ==> IsNew(env(j).opens.value))
    ensures var s := Sessions(session, env, k, n);
            && (s.Some? ==> IsNew(s.value))
            && (session.Some? ==> s == session)
    decreases n
  {
    if n > 0 { TaskSessionStaysNew(After(session, env(k)), env, k + 1, n - 1); }
  }

  /** The session of a task is the one that its first call to open one opened; without such a call it has none. */
  lemma {:induction false} TaskSessionIsFirstOpened(env: nat -> Turn<TaskError>, k: nat, n: nat, j: nat)
    requires forall i | k <= i < k + n :: env(i).ops == []
    requires k <= j <= k + n && (j < k + n ==> env(j).opens.Some?) && forall i | k <= i < j :: env(i).opens.None?
    ensures Sessions(None, env, k, n) == if j < k + n then env(j).opens else None
    decreases n
  {
    if n > 0 {
      if j == k { SessionStaysAsOpened(env(k).opens.value, env, k + 1, n - 1); }
      else { TaskSessionIsFirstOpened(env, k + 1, n - 1, j); }
    }
  }

  lemma {:induction false} SessionStaysAsOpened(s: Billing.State, env: nat -> Turn<TaskError>, k: nat, n: nat)
    requires forall i | k <= i < k + n :: env(i).ops == []
    ensures Sessions(Some(s), env, k, n) == Some(s)
    decreases n
  {
    if n > 0 { SessionStaysAsOpened(s, env, k + 1, n - 1); }
  }

  lemma NewSessionSettles(s: Billing.State, surplus: nat, settle: Billing.Op)
    requires Billing.Books(s, surplus, Billing.History(0, None, None)) && settle.Settle?
    ensures var paid, held, adjusts := Billing.Apply(s, settle), s.tokenConsumed, settle.actual != s.preConsumed;
            && paid.funds == (if settle.fundsOk || !adjusts then settle.actual + held - s.preConsumed else held)
            && (paid.tokens == Billing.TokenShare(s.playground, paid.funds) <==>
                  s.playground || !adjusts || !settle.fundsOk || settle.tokenOk)
  {
    Billing.SettleKeepsBooks(s, surplus, Billing.History(0, None, None), settle);
  }

  lemma NewSessionRefunds(s: Billing.State, surplus: nat, refund: Billing.Op)
    requires Billing.Books(s, surplus, Billing.History(0, None, None)) && refund.Refund?
    requires s.extraReserved == 0
    ensures var returned, held := Billing.Apply(s, refund), s.tokenConsumed;
            && returned.funds == (if refund.fundsOk then 0 else held)
            && returned.tokens == (if refund.tokenOk then 0 else Billing.TokenShare(s.playground, held))
  {
    Billing.RefundLeaves(s, surplus, Billing.History(0, None, None), refund);
  }

  lemma NewSessionHolds(s: Billing.State, o: Billing.Start)
    requires Billing.Opened(o) == (true, s)
    ensures Billing.Books(s, Billing.Surplus(o), Billing.History(0, None, None))
    ensures s.extraReserved == 0 && s.tokenConsumed == Max(s.preConsumed, 0)
  {
    Billing.OpenedBooks(o);
  }

  lemma NewSessionCharges(s: Billing.State, settle: Billing.Op, refund: Billing.Op)
    requires IsNew(s) && settle.Settle? && refund.Refund?
    ensures var paid, returned := Billing.Apply(s, settle), Billing.Apply(s, refund);
            var held, adjusts := s.tokenConsumed, settle.actual != s.preConsumed;
            && held == Max(s.preConsumed, 0)
            && paid.funds == (if settle.fundsOk || !adjusts then settle.actual + held - s.preConsumed else held)
            && (paid.tokens == Billing.TokenShare(s.playground, paid.funds) <==>
                  s.playground || !adjusts || !settle.fundsOk || settle.tokenOk)
            && returned.funds == (if refund.fundsOk then 0 else held)
            && returned.tokens == (if refund.tokenOk then 0 else Billing.TokenShare(s.playground, held))
  {
    var o :| Billing.Opened(o) == (true, s);
    NewSessionHolds(s, o);
    NewSessionSettles(s, Billing.Surplus(o), settle);
    NewSessionRefunds(s, Billing.Surplus(o), refund);
  }

  /** A task whose session was opened pays, when it fails, nothing if its refund is written and what was held
      otherwise. When it succeeds it pays the final quota, and above it what a negative quota left over, exactly when
      the settlement succeeds or has nothing to adjust, and what was held otherwise; however many calls it took. */
  lemma TaskCharges(env: nat -> Turn<TaskError>, n: nat, settle: Billing.Op, refund: Billing.Op)
    requires forall j | 0 <= j < n :: env(j).ops == [] && (env(j).opens.Some? ==> IsNew(env(j).opens.value))
    requires Sessions(None, env, 0, n).Some? && settle.Settle? && refund.Refund?
    ensures var s := Sessions(None, env, 0, n).value;
            var paid, returned := Billing.Apply(s, settle), Billing.Apply(s, refund);
            var held, adjusts := s.tokenConsumed, settle.actual != s.preConsumed;
            && held == Max(s.preConsumed, 0)
            && paid.funds == (if settle.fundsOk || !adjusts then settle.actual + held - s.preConsumed else held)
            && (paid.tokens == Billing.TokenShare(s.playground, paid.funds) <==>
                  s.playground || !adjusts || !settle.fundsOk || settle.tokenOk)
            && returned.funds == (if refund.fundsOk then 0 else held)
            && returned.tokens == (if refund.tokenOk then 0 else Billing.TokenShare(s.playground, held))
  {
    TaskSessionStaysNew(None, env, 0, n);
    NewSessionCharges(Sessions(None, env, 0, n).value, settle, refund);
  }
}
