/**
 * The decision engine, RateLimiter.Allow. It asks the storage whether
 * the caller is blocked; if not, counts the request; compares the count
 * with the limit for the caller's key type; and blocks the caller when
 * the count is over it.
 *
 * `Decide` gives the rule over the storage's answers, as the engine's
 * tests drive it through a storage mock: which storage calls are made,
 * in which order and with which arguments, and the response. `Replay`
 * performs those calls on the store model, and RateLimiter.Allow is the
 * imperative engine over the RedisStorage adapter, proved to behave as
 * the two together say. Times are Unix seconds; `now` is the clock.
 */
module Limiter {
  import opened Base
  import opened Redis
  import opened Storage

  /** What a rate-limit key is: a client address (API) or an access token. */
  datatype KeyType = API | Token

  datatype RateLimitKey = RateLimitKey(key: string, keyType: KeyType)

  /** The limits per key type and the window and block durations, in seconds. */
  datatype Options = Options(maxRequestIP: int, maxRequestToken: int, windowDuration: int, blockDuration: int)

  /**
   * The decision. ResetTime is when the current window ends; RetryAfter,
   * set only on a denial, is when the caller may try again. None is Go's
   * zero time.Time.
   */
  datatype RateLimiterResponse = RateLimiterResponse(
    allowed: bool, limit: int, requestsLeft: int, resetTime: Option<int>, retryAfter: Option<int>)

  /** The response that accompanies an error: Go's zero value. */
  const ZeroResponse := RateLimiterResponse(false, 0, 0, None, None)

  /** A call the engine makes on its storage. */
  datatype Call = IsBlockedCall(key: string) | IncrRequestCall(key: string, window: int)
                | BlockRequestCall(key: string, duration: int)

  /** The storage's answers to IsBlocked and to IncrRequest, should the engine ask. */
  datatype Replies = Replies(blocked: BlockedReply, incr: IncrReply)

  /** The calls made, in order, and what Allow returns. */
  datatype Outcome = Outcome(calls: seq<Call>, response: RateLimiterResponse, err: Option<Error>)

  function LimitFor(opts: Options, keyType: KeyType): (limit: int)
    ensures keyType == Token ==> limit == opts.maxRequestToken
    ensures keyType == API ==> limit == opts.maxRequestIP
  {
    match keyType
    case Token => opts.maxRequestToken
    case API => opts.maxRequestIP
  }

  /** Whether Allow gets as far as counting the request. */
  predicate Counts(r: Replies) { r.blocked.err.None? && !r.blocked.blocked }

  /** The Allow rule over the storage's answers. */
  function Decide(opts: Options, rk: RateLimitKey, now: int, r: Replies): (o: Outcome)
    // the block check comes first, on the caller's key
    ensures 1 <= |o.calls| <= 3 && o.calls[0] == IsBlockedCall(rk.key)
    // a block, or a failed block check, short-circuits: nothing is counted
    ensures !Counts(r) ==> o.calls == [IsBlockedCall(rk.key)]
    // otherwise the request is counted once, on the same key, for the configured window
    ensures Counts(r) ==> |o.calls| >= 2 && o.calls[1] == IncrRequestCall(rk.key, opts.windowDuration)
    // exactly one block is written, with the configured duration, when and only when the count is over the limit
    ensures |o.calls| == 3 <==> Counts(r) && r.incr.err.None? && r.incr.count > LimitFor(opts, rk.keyType)
    ensures |o.calls| == 3 ==> o.calls[2] == BlockRequestCall(rk.key, opts.blockDuration)
    // the request is allowed exactly when no call failed, the caller is not blocked and the count is within the limit
    ensures o.response.allowed <==>
      Counts(r) && r.incr.err.None? && r.incr.count <= LimitFor(opts, rk.keyType)
    // errors are passed through, with Go's zero response
    ensures o.err.Some? <==> r.blocked.err.Some? || (Counts(r) && r.incr.err.Some?)
    ensures o.err.Some? ==> o.response == ZeroResponse
    ensures o.err == r.blocked.err || o.err == r.incr.err
    // every decision reports the limit for the key type
    ensures o.err.None? ==> o.response.limit == LimitFor(opts, rk.keyType)
    // an allowed request knows how many remain and has no retry time; a denied one has none left
    ensures o.response.allowed ==>
      o.response.requestsLeft == LimitFor(opts, rk.keyType) - r.incr.count >= 0 && o.response.retryAfter.None?
    ensures !o.response.allowed ==> o.response.requestsLeft == 0
    // a blocked caller may retry when the block's remaining time has passed
    ensures r.blocked.err.None? && r.blocked.blocked ==> o.response.retryAfter == Some(now + r.blocked.ttl)
    // a blocked caller has no window, so no reset time
    ensures r.blocked.err.None? && r.blocked.blocked ==> o.response.resetTime.None?
    // a counted request's window resets when the counter's remaining TTL has passed
    ensures Counts(r) && r.incr.err.None? ==> o.response.resetTime == Some(now + r.incr.ttl)
    // the request that goes over the limit may retry when the new block ends
    ensures |o.calls| == 3 ==> o.response.retryAfter == Some(now + opts.blockDuration)
  {
    var limit := LimitFor(opts, rk.keyType);
    var check := IsBlockedCall(rk.key);
    if r.blocked.err.Some? then
      Outcome([check], ZeroResponse, r.blocked.err)
    else if r.blocked.blocked then
      Outcome([check], RateLimiterResponse(false, limit, 0, None, Some(now + r.blocked.ttl)), None)
    else
      var count := IncrRequestCall(rk.key, opts.windowDuration);
      if r.incr.err.Some? then
        Outcome([check, count], ZeroResponse, r.incr.err)
      else if r.incr.count > limit then
        Outcome([check, count, BlockRequestCall(rk.key, opts.blockDuration)],
                RateLimiterResponse(false, limit, 0, Some(now + r.incr.ttl), Some(now + opts.blockDuration)), None)
      else
        Outcome([check, count],
                RateLimiterResponse(true, limit, limit - r.incr.count, Some(now + r.incr.ttl), None), None)
  }

  /** Below the limit, each further request leaves one fewer: RequestsLeft falls as the count rises. */
  lemma RequestsLeftDecreases(opts: Options, rk: RateLimitKey, now: int, now': int, r: Replies, r': Replies)
    requires Counts(r) && Counts(r') && r.incr.err.None? && r'.incr.err.None?
    requires r.incr.count <= r'.incr.count <= LimitFor(opts, rk.keyType)
    ensures Decide(opts, rk, now, r).response.allowed && Decide(opts, rk, now', r').response.allowed
    ensures Decide(opts, rk, now', r').response.requestsLeft
         == Decide(opts, rk, now, r).response.requestsLeft - (r'.incr.count - r.incr.count)
  {
  }

  /**
   * The decision depends on nothing but the storage's answers: calls made
   * with equal counts (concurrently or not) get equal Allowed, Limit and
   * RequestsLeft, whatever the clock or the TTLs say.
   */
  lemma DecisionDependsOnCount(opts: Options, rk: RateLimitKey, now: int, now': int, r: Replies, r': Replies)
    requires Counts(r) && Counts(r') && r.incr.err.None? && r'.incr.err.None?
    requires r.incr.count == r'.incr.count
    ensures var d, d' := Decide(opts, rk, now, r), Decide(opts, rk, now', r');
      d.calls == d'.calls && d.err == d'.err &&
      d.response.(resetTime := None, retryAfter := None) == d'.response.(resetTime := None, retryAfter := None)
  {
  }

  /** The options the engine's tests use. */
  const TestOptions := Options(5, 10, 60, 300)

  /** A first request with a token key: allowed, 9 of 10 left. */
  lemma AllowedUnderLimit(now: int)
    ensures var rk := RateLimitKey("test-key", Token);
      var o := Decide(TestOptions, rk, now, Replies(BlockedReply(false, 0, None), IncrReply(1, 60, None)));
      o.err.None? && o.response.allowed && o.response.requestsLeft == 9 && o.response.limit == 10 &&
      o.calls == [IsBlockedCall("test-key"), IncrRequestCall("test-key", 60)]
  {
  }

  /** The eleventh request of a token key is denied and blocks the key once for BlockDuration. */
  lemma OverLimitBlocks(now: int)
    ensures var rk := RateLimitKey("test-key", Token);
      var o := Decide(TestOptions, rk, now, Replies(BlockedReply(false, 0, None), IncrReply(11, 60, None)));
      o.err.None? && !o.response.allowed && o.response.requestsLeft == 0 && o.response.limit == 10 &&
      o.calls == [IsBlockedCall("test-key"), IncrRequestCall("test-key", 60), BlockRequestCall("test-key", 300)]
  {
  }

  /** Performs one storage call on the store. */
  function Perform(t: Table, c: Call, failing: set<Command>): (t': Table)
    ensures c.IsBlockedCall? ==> t' == t
  {
    match c
    case IsBlockedCall(_) => t
    case IncrRequestCall(key, window) => IncrRequestStep(t, key, window, failing).table
    case BlockRequestCall(key, duration) => BlockRequestStep(t, key, duration, failing).table
  }

  /** Performs the calls in order. */
  function Replay(t: Table, calls: seq<Call>, failing: set<Command>): Table
    decreases |calls|
  {
    if calls == [] then t else Replay(Perform(t, calls[0], failing), calls[1..], failing)
  }

  /** Replaying the engine's call lists, one, two or three calls long. */
  lemma ReplayShort(t: Table, a: Call, b: Call, c: Call, failing: set<Command>)
    ensures Replay(t, [a], failing) == Perform(t, a, failing)
    ensures Replay(t, [a, b], failing) == Perform(Perform(t, a, failing), b, failing)
    ensures Replay(t, [a, b, c], failing) == Perform(Perform(Perform(t, a, failing), b, failing), c, failing)
  {
    var t1 := Perform(t, a, failing);
    var t2 := Perform(t1, b, failing);
    assert [a][1..] == [] && [b][1..] == [] && [c][1..] == [];
    assert Replay(t1, [b], failing) == t2;
    assert [a, b][1..] == [b];
    assert Replay(t2, [c], failing) == Perform(t2, c, failing);
    assert [b, c][1..] == [c];
    assert Replay(t1, [b, c], failing) == Perform(t2, c, failing);
    assert [a, b, c][1..] == [b, c];
  }

  /**
   * The answers the store gives to the engine's calls: IsBlocked is read
   * from the store as it is, and since IsBlocked changes nothing,
   * IncrRequest runs on that same store.
   */
  function Observe(opts: Options, rk: RateLimitKey, t: Table, failing: set<Command>): Replies {
    Replies(IsBlockedReply(t, rk.key, failing), IncrRequestStep(t, rk.key, opts.windowDuration, failing).reply)
  }

  /** One Allow against the store: the store afterwards and the outcome. */
  function AllowStep(opts: Options, rk: RateLimitKey, now: int, t: Table, failing: set<Command>): (s: Step<Outcome>)
    ensures s.reply == Decide(opts, rk, now, Observe(opts, rk, t, failing))
    ensures s.table == Replay(t, s.reply.calls, failing)
  {
    var o := Decide(opts, rk, now, Observe(opts, rk, t, failing));
    Step(Replay(t, o.calls, failing), o)
  }

  /**
   * Callers are independent: an Allow touches only its own caller's
   * counter and block marker, and one that does not count (the caller is
   * blocked, or the block check failed) touches nothing.
   */
  lemma AllowTouchesOnlyOwnKeys(opts: Options, rk: RateLimitKey, now: int, t: Table, failing: set<Command>)
    ensures var s := AllowStep(opts, rk, now, t, failing);
      s.table - {RequestKey(rk.key), BlockKey(rk.key)} == t - {RequestKey(rk.key), BlockKey(rk.key)}
    ensures !Counts(Observe(opts, rk, t, failing)) ==> AllowStep(opts, rk, now, t, failing).table == t
  {
    var o := AllowStep(opts, rk, now, t, failing).reply;
    var own := {RequestKey(rk.key), BlockKey(rk.key)};
    ReplayShort(t, IsBlockedCall(rk.key), IncrRequestCall(rk.key, opts.windowDuration),
                BlockRequestCall(rk.key, opts.blockDuration), failing);
    var counted := IncrRequestStep(t, rk.key, opts.windowDuration, failing).table;
    var blocked := BlockRequestStep(counted, rk.key, opts.blockDuration, failing).table;
    FrameWiden(t, counted, RequestKey(rk.key), own);
    FrameWiden(counted, blocked, BlockKey(rk.key), own);
    assert |o.calls| == 3 ==> Replay(t, o.calls, failing) == blocked;
    assert |o.calls| == 2 ==> Replay(t, o.calls, failing) == counted;
  }

  /** Two tables that agree outside one key agree outside any set holding it. */
  lemma FrameWiden(a: Table, b: Table, k: string, ks: set<string>)
    requires k in ks && b - {k} == a - {k}
    ensures b - ks == a - ks
  {
    assert forall x :: x in b - ks ==> x in b - {k};
    assert forall x :: x in a - ks ==> x in a - {k};
  }

  /** A blocked caller is denied and the store is left as it was: no increment happens while blocked. */
  lemma BlockedCallerNotCounted(opts: Options, rk: RateLimitKey, now: int, t: Table, failing: set<Command>)
    requires TtlCmd(BlockKey(rk.key)) !in failing && BlockKey(rk.key) in t
    ensures var s := AllowStep(opts, rk, now, t, failing);
      && s.table == t && s.reply.err.None?
      && s.reply.response == RateLimiterResponse(false, LimitFor(opts, rk.keyType), 0, None,
                                                 Some(now + (if t[BlockKey(rk.key)].expiry.ExpiresIn?
                                                             then t[BlockKey(rk.key)].expiry.seconds else 0)))
  {
    var o := AllowStep(opts, rk, now, t, failing).reply;
    assert o.calls == [IsBlockedCall(rk.key)];
    ReplayShort(t, IsBlockedCall(rk.key), IsBlockedCall(rk.key), IsBlockedCall(rk.key), failing);
  }

  /** A failed block check returns the error and touches nothing. */
  lemma FailedBlockCheckTouchesNothing(opts: Options, rk: RateLimitKey, now: int, t: Table, failing: set<Command>)
    requires TtlCmd(BlockKey(rk.key)) in failing
    ensures AllowStep(opts, rk, now, t, failing) == Step(t, Outcome([IsBlockedCall(rk.key)], ZeroResponse, Some(ConnectionError)))
  {
    ReplayShort(t, IsBlockedCall(rk.key), IsBlockedCall(rk.key), IsBlockedCall(rk.key), failing);
  }

  /** A failed count returns the error and writes no block for anyone. */
  lemma FailedCountWritesNoBlock(opts: Options, rk: RateLimitKey, now: int, t: Table, failing: set<Command>, other: string, failing': set<Command>)
    requires Counts(Observe(opts, rk, t, failing)) && Observe(opts, rk, t, failing).incr.err.Some?
    ensures var s := AllowStep(opts, rk, now, t, failing);
      s.reply.err.Some? && s.reply.response == ZeroResponse &&
      IsBlockedReply(s.table, other, failing') == IsBlockedReply(t, other, failing')
  {
    var c := IncrRequestCall(rk.key, opts.windowDuration);
    ReplayShort(t, IsBlockedCall(rk.key), c, c, failing);
    IncrementLeavesBlocks(t, rk.key, opts.windowDuration, failing, other, failing');
  }

  /**
   * Going over the limit denies the request and blocks the caller: every
   * later Allow, after any time short of the block's duration, is denied
   * with nothing left, counts nothing, and is told to retry when the
   * block ends.
   */
  lemma OverLimitBlocksLaterCalls(opts: Options, rk: RateLimitKey, now: int, t: Table, failing: set<Command>,
                                  elapsed: nat, now': int, failing': set<Command>)
    requires Valid(t) && opts.blockDuration > 0
    requires SetCmd(BlockKey(rk.key)) !in failing && TtlCmd(BlockKey(rk.key)) !in failing'
    requires var r := Observe(opts, rk, t, failing);
      Counts(r) && r.incr.err.None? && r.incr.count > LimitFor(opts, rk.keyType)
    requires elapsed < opts.blockDuration
    ensures var s := AllowStep(opts, rk, now, t, failing);
      && Valid(s.table)
      && !s.reply.response.allowed && s.reply.response.requestsLeft == 0
      && var later := Advance(s.table, elapsed);
         AllowStep(opts, rk, now', later, failing')
         == Step(later, Outcome([IsBlockedCall(rk.key)],
                   RateLimiterResponse(false, LimitFor(opts, rk.keyType), 0, None,
                                       Some(now' + opts.blockDuration - elapsed)), None))
  {
    var counted := IncrRequestStep(t, rk.key, opts.windowDuration, failing).table;
    ReplayShort(t, IsBlockedCall(rk.key), IncrRequestCall(rk.key, opts.windowDuration),
                BlockRequestCall(rk.key, opts.blockDuration), failing);
    var s := AllowStep(opts, rk, now, t, failing);
    assert s.table == BlockRequestStep(counted, rk.key, opts.blockDuration, failing).table;
    BlockExpires(counted, rk.key, opts.blockDuration, failing, elapsed, failing');
    var later := Advance(s.table, elapsed);
    assert BlockKey(rk.key) in later;
    BlockedCallerNotCounted(opts, rk, now', later, failing');
  }

  /** The store after n successive Allow calls of one caller at one instant, none failing. */
  function AllowTimes(opts: Options, rk: RateLimitKey, now: int, t: Table, n: nat): Table
    decreases n
  {
    if n == 0 then t else AllowStep(opts, rk, now, AllowTimes(opts, rk, now, t, n - 1), {}).table
  }

  /** A caller never seen before, in rapid succession, with a positive window. */
  predicate FreshCaller(opts: Options, rk: RateLimitKey, t: Table) {
    && RequestKey(rk.key) !in t && BlockKey(rk.key) !in t
    && opts.windowDuration > 0 && LimitFor(opts, rk.keyType) + 2 < MaxInt64
  }

  /** Up to the limit, Allow calls of a fresh caller do nothing but count. */
  lemma AllowsWithinLimitOnlyCount(opts: Options, rk: RateLimitKey, now: int, t: Table, n: nat)
    requires FreshCaller(opts, rk, t) && n <= LimitFor(opts, rk.keyType)
    ensures AllowTimes(opts, rk, now, t, n) == IncrementTimes(t, rk.key, opts.windowDuration, n)
  {
    forall m: nat | m < LimitFor(opts, rk.keyType)
      ensures BlockKey(rk.key) !in IncrementTimes(t, rk.key, opts.windowDuration, m)
      ensures IncrRequestStep(IncrementTimes(t, rk.key, opts.windowDuration, m), rk.key, opts.windowDuration, {}).reply
           == IncrReply(m + 1, opts.windowDuration, None)
    {
      NextCount(opts, rk, t, m);
    }
    var i := 0;
    while i < n
      invariant i <= n
      invariant AllowTimes(opts, rk, now, t, i) == IncrementTimes(t, rk.key, opts.windowDuration, i)
    {
      i := i + 1;
      CountingStep(opts, rk, now, t, i);
    }
  }

  /**
   * The n-th Allow, when the first n - 1 only counted, the caller is not
   * blocked and the n-th count is within the limit, only counts as well.
   */
  lemma CountingStep(opts: Options, rk: RateLimitKey, now: int, t: Table, n: nat)
    requires 0 < n <= LimitFor(opts, rk.keyType)
    requires AllowTimes(opts, rk, now, t, n - 1) == IncrementTimes(t, rk.key, opts.windowDuration, n - 1)
    requires BlockKey(rk.key) !in IncrementTimes(t, rk.key, opts.windowDuration, n - 1)
    requires IncrRequestStep(IncrementTimes(t, rk.key, opts.windowDuration, n - 1), rk.key, opts.windowDuration, {}).reply
          == IncrReply(n, opts.windowDuration, None)
    ensures AllowTimes(opts, rk, now, t, n) == IncrementTimes(t, rk.key, opts.windowDuration, n)
  {
    UnblockedWithinLimitOnlyCounts(opts, rk, now, AllowTimes(opts, rk, now, t, n - 1));
  }

  /** After m increments of a fresh caller, the next one returns m + 1 and no block exists. */
  lemma NextCount(opts: Options, rk: RateLimitKey, t: Table, m: nat)
    requires FreshCaller(opts, rk, t) && m < LimitFor(opts, rk.keyType)
    ensures BlockKey(rk.key) !in IncrementTimes(t, rk.key, opts.windowDuration, m)
    ensures IncrRequestStep(IncrementTimes(t, rk.key, opts.windowDuration, m), rk.key, opts.windowDuration, {}).reply
         == IncrReply(m + 1, opts.windowDuration, None)
  {
    IncrementsCountUp(t, rk.key, opts.windowDuration, m);
    KeysDisjoint(rk.key, rk.key);
    DistinctCounts(t, rk.key, opts.windowDuration, m);
  }

  /** An unblocked caller whose count stays within the limit is only counted. */
  lemma UnblockedWithinLimitOnlyCounts(opts: Options, rk: RateLimitKey, now: int, t: Table)
    requires BlockKey(rk.key) !in t
    requires var c := IncrRequestStep(t, rk.key, opts.windowDuration, {}).reply;
      c.err.None? && c.count <= LimitFor(opts, rk.keyType)
    ensures AllowStep(opts, rk, now, t, {}).table == IncrRequestStep(t, rk.key, opts.windowDuration, {}).table
  {
    var count := IncrRequestCall(rk.key, opts.windowDuration);
    ReplayShort(t, IsBlockedCall(rk.key), count, count, {});
    assert AllowStep(opts, rk, now, t, {}).reply.calls == [IsBlockedCall(rk.key), count];
  }

  /**
   * The i-th rapid request of a fresh caller (i = n + 1) is allowed with
   * limit - i left while i is within the limit; the first one over it is
   * denied and leaves the caller blocked for the block duration.
   */
  lemma FreshCallerQuota(opts: Options, rk: RateLimitKey, now: int, t: Table, n: nat)
    requires FreshCaller(opts, rk, t) && n <= LimitFor(opts, rk.keyType) && opts.blockDuration > 0
    ensures var s := AllowStep(opts, rk, now, AllowTimes(opts, rk, now, t, n), {});
      && s.reply.err.None?
      && s.reply.response.allowed == (n + 1 <= LimitFor(opts, rk.keyType))
      && s.reply.response.requestsLeft == (if n + 1 <= LimitFor(opts, rk.keyType) then LimitFor(opts, rk.keyType) - (n + 1) else 0)
      && (n == LimitFor(opts, rk.keyType) ==> IsBlockedReply(s.table, rk.key, {}) == BlockedReply(true, opts.blockDuration, None))
  {
    var window := opts.windowDuration;
    AllowsWithinLimitOnlyCount(opts, rk, now, t, n);
    var before := IncrementTimes(t, rk.key, window, n);
    IncrementsCountUp(t, rk.key, window, n);
    KeysDisjoint(rk.key, rk.key);
    assert BlockKey(rk.key) !in before;
    DistinctCounts(t, rk.key, window, n);
    if n == LimitFor(opts, rk.keyType) {
      var counted := IncrRequestStep(before, rk.key, window, {}).table;
      ReplayShort(before, IsBlockedCall(rk.key), IncrRequestCall(rk.key, window),
                  BlockRequestCall(rk.key, opts.blockDuration), {});
      BlockIsObserved(counted, rk.key, opts.blockDuration, {}, {});
    }
  }

  /**
   * Once both the block and the window have run out, the caller who went
   * over the limit is a fresh caller again: the count restarts at 1.
   */
  lemma BlockEndsAfterItsDuration(opts: Options, rk: RateLimitKey, now: int, t: Table, elapsed: nat)
    requires FreshCaller(opts, rk, t) && Valid(t) && LimitFor(opts, rk.keyType) >= 0 && opts.blockDuration > 0
    requires elapsed >= opts.windowDuration && elapsed >= opts.blockDuration
    ensures var blocked := AllowTimes(opts, rk, now, t, LimitFor(opts, rk.keyType) + 1);
      && Valid(blocked) && FreshCaller(opts, rk, Advance(blocked, elapsed))
      && IncrRequestStep(Advance(blocked, elapsed), rk.key, opts.windowDuration, {}).reply
         == IncrReply(1, opts.windowDuration, None)
  {
    var limit, window := LimitFor(opts, rk.keyType), opts.windowDuration;
    AllowsWithinLimitOnlyCount(opts, rk, now, t, limit);
    var before := IncrementTimes(t, rk.key, window, limit);
    IncrementsCountUp(t, rk.key, window, limit);
    KeysDisjoint(rk.key, rk.key);
    DistinctCounts(t, rk.key, window, limit);
    var counted := IncrRequestStep(before, rk.key, window, {}).table;
    assert Valid(before);
    if limit == 0 {
      FreshKeyIncrement(before, rk.key, window, {});
    } else {
      LaterIncrementKeepsTtl(before, rk.key, window, {});
    }
    assert counted[RequestKey(rk.key)].expiry == ExpiresIn(window);
    ReplayShort(before, IsBlockedCall(rk.key), IncrRequestCall(rk.key, window),
                BlockRequestCall(rk.key, opts.blockDuration), {});
    var blocked := BlockRequestStep(counted, rk.key, opts.blockDuration, {}).table;
    assert AllowTimes(opts, rk, now, t, limit + 1) == blocked;
    assert blocked[RequestKey(rk.key)].expiry == ExpiresIn(window);
    assert blocked[BlockKey(rk.key)].expiry == ExpiresIn(opts.blockDuration);
    var later := Advance(blocked, elapsed);
    assert RequestKey(rk.key) !in later && BlockKey(rk.key) !in later;
    FreshKeyIncrement(later, rk.key, window, {});
  }

  class RateLimiter {
    const storage: RedisStorage
    const opts: Options

    constructor (storage: RedisStorage, opts: Options)
      ensures this.storage == storage && this.opts == opts
    {
      this.storage := storage;
      this.opts := opts;
    }

    method Allow(rk: RateLimitKey, now: int, failing: set<Command>) returns (resp: RateLimiterResponse, err: Option<Error>)
      modifies storage
      ensures var s := AllowStep(opts, rk, now, old(storage.table), failing);
        storage.table == s.table && resp == s.reply.response && err == s.reply.err
    {
      ghost var t := storage.table;
      ReplayShort(t, IsBlockedCall(rk.key), IncrRequestCall(rk.key, opts.windowDuration),
                  BlockRequestCall(rk.key, opts.blockDuration), failing);
      var blocked, remaining, blockedErr := storage.IsBlocked(rk.key, failing);
      if blockedErr.Some? {
        return ZeroResponse, blockedErr;
      }
      var limit := LimitFor(opts, rk.keyType);
      if blocked {
        return RateLimiterResponse(false, limit, 0, None, Some(now + remaining)), None;
      }
      var count, ttl, incrErr := storage.IncrRequest(rk.key, opts.windowDuration, failing);
      if incrErr.Some? {
        return ZeroResponse, incrErr;
      }
      if count > limit {
        // a failure to write the block does not change the denial
        var _ := storage.BlockRequest(rk.key, opts.blockDuration, failing);
        return RateLimiterResponse(false, limit, 0, Some(now + ttl), Some(now + opts.blockDuration)), None;
      }
      return RateLimiterResponse(true, limit, limit - count, Some(now + ttl), None), None;
    }
  }
}
