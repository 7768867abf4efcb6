/**
 * The storage adapter: the rate limiter's operations mapped onto the
 * shared store. Each caller has a request counter under
 * "rate_limiter:req:<key>" and a block marker under
 * "rate_limiter:block:<key>". Every operation is first given as a pure
 * step over the store's table (what the store holds afterwards and what
 * the operation returns); the class RedisStorage performs the same
 * commands one after another on its table and is proved to agree.
 */
module Storage {
  import opened Base
  import opened Redis

  const RateLimitPrefix: string := "rate_limiter:"

  /** The value the block marker holds. */
  const BlockedMarker: string := "blocked"

  function RequestKey(key: string): (k: string)
    ensures |k| == |RateLimitPrefix| + 4 + |key| && k[|k| - |key|..] == key
  {
    RateLimitPrefix + "req:" + key
  }

  function BlockKey(key: string): (k: string)
    ensures |k| == |RateLimitPrefix| + 6 + |key| && k[|k| - |key|..] == key
  {
    RateLimitPrefix + "block:" + key
  }

  /** A caller's counter never aliases any caller's block marker. */
  lemma KeysDisjoint(a: string, b: string)
    ensures RequestKey(a) != BlockKey(b)
  {
    assert RequestKey(a)[13] == 'r';
    assert BlockKey(b)[13] == 'b';
  }

  /** Distinct callers have distinct counters and distinct block markers. */
  lemma KeysInjective(a: string, b: string)
    ensures RequestKey(a) == RequestKey(b) ==> a == b
    ensures BlockKey(a) == BlockKey(b) ==> a == b
  {
  }

  /** IncrRequest's results: the count, the counter's remaining TTL, an error. */
  datatype IncrReply = IncrReply(count: int, ttl: int, err: Option<Error>)

  /** IsBlocked's results: whether blocked, the block's remaining TTL, an error. */
  datatype BlockedReply = BlockedReply(blocked: bool, ttl: int, err: Option<Error>)

  /** GetRequest's results: the stored count and an error. */
  datatype CountReply = CountReply(count: int, err: Option<Error>)

  /** Seconds left on a TTL reply; 0 when the store reports no expiry or no key. */
  function SecondsLeft(r: TtlReply): int {
    if r.Remaining? then r.seconds else 0
  }

  /**
   * IncrRequest: INCR the counter; when the count is 1 this increment
   * started the window, so EXPIRE it after `window`; then read back the
   * TTL. A failed INCR returns (0, 0, err); a failed EXPIRE or TTL after a
   * successful INCR returns (count, 0, err).
   */
  function IncrRequestStep(t: Table, key: string, window: int, failing: set<Command>): (s: Step<IncrReply>)
    ensures Valid(t) ==> Valid(s.table)
    ensures s.table - {RequestKey(key)} == t - {RequestKey(key)}
    ensures Incr(t, RequestKey(key), failing).reply.Err? ==>
      s == Step(t, IncrReply(0, 0, Some(Incr(t, RequestKey(key), failing).reply.error)))
    ensures Incr(t, RequestKey(key), failing).reply.Ok? ==>
      s.reply.count == CounterOf(t, RequestKey(key)).value + 1
    ensures s.reply.err.Some? ==> s.reply.ttl == 0
  {
    var rk := RequestKey(key);
    var incr := Incr(t, rk, failing);
    if incr.reply.Err? then Step(t, IncrReply(0, 0, Some(incr.reply.error)))
    else
      var count := incr.reply.value;
      var expire := Expire(incr.table, rk, window, failing);
      if count == 1 && expire.reply.Err? then Step(incr.table, IncrReply(count, 0, Some(expire.reply.error)))
      else
        var t' := if count == 1 then expire.table else incr.table;
        match Ttl(t', rk, failing)
        case Err(e) => Step(t', IncrReply(count, 0, Some(e)))
        case Ok(r) => Step(t', IncrReply(count, SecondsLeft(r), None))
  }

  /**
   * IsBlocked: reads the block marker's TTL. No such key is not an
   * error: the caller is not blocked and the remaining time is 0.
   */
  function IsBlockedReply(t: Table, key: string, failing: set<Command>): (r: BlockedReply)
    ensures r.err.Some? <==> TtlCmd(BlockKey(key)) in failing
    ensures r.err.Some? ==> !r.blocked && r.ttl == 0
    ensures r.err.None? ==> (r.blocked <==> BlockKey(key) in t)
    ensures !r.blocked ==> r.ttl == 0
    ensures r.err.None? && BlockKey(key) in t ==>
      r.ttl == (if t[BlockKey(key)].expiry.ExpiresIn? then t[BlockKey(key)].expiry.seconds else 0)
  {
    match Ttl(t, BlockKey(key), failing)
    case Err(e) => BlockedReply(false, 0, Some(e))
    case Ok(NoSuchKey) => BlockedReply(false, 0, None)
    case Ok(r) => BlockedReply(true, SecondsLeft(r), None)
  }

  /** BlockRequest: (over)writes the block marker with TTL `duration`. */
  function BlockRequestStep(t: Table, key: string, duration: int, failing: set<Command>): (s: Step<Option<Error>>)
    ensures Valid(t) ==> Valid(s.table)
    ensures s.reply.Some? <==> SetCmd(BlockKey(key)) in failing
    ensures s.reply.Some? ==> s.table == t
    ensures s.table - {BlockKey(key)} == t - {BlockKey(key)}
    ensures s.reply.None? && duration > 0 ==> BlockKey(key) in s.table && s.table[BlockKey(key)] == Entry(Text(BlockedMarker), ExpiresIn(duration))
  {
    var set_ := Set(t, BlockKey(key), Text(BlockedMarker), duration, failing);
    Step(set_.table, if set_.reply.Err? then Some(set_.reply.error) else None)
  }

  /** GetRequest: the counter's value; 0 and an error when absent or not an integer. */
  function GetRequestReply(t: Table, key: string, failing: set<Command>): (r: CountReply)
    ensures r.err.None? <==> GetCmd(RequestKey(key)) !in failing && RequestKey(key) in t && t[RequestKey(key)].value.Int?
    ensures r.err.None? ==> Int(r.count) == t[RequestKey(key)].value
    ensures r.err.Some? ==> r.count == 0
    ensures GetCmd(RequestKey(key)) !in failing && RequestKey(key) !in t ==> r.err == Some(Nil)
  {
    match Get(t, RequestKey(key), failing)
    case Err(e) => CountReply(0, Some(e))
    case Ok(Int(n)) => CountReply(n, None)
    case Ok(Text(_)) => CountReply(0, Some(NotAnInteger))
  }

  /** ResetRequest: deletes the counter. */
  function ResetRequestStep(t: Table, key: string, failing: set<Command>): (s: Step<Option<Error>>)
    ensures Valid(t) ==> Valid(s.table)
    ensures s.reply.Some? <==> DelCmd(RequestKey(key)) in failing
    ensures s.reply.None? ==> s.table == t - {RequestKey(key)}
    ensures s.reply.Some? ==> s.table == t
  {
    var del := Del(t, RequestKey(key), failing);
    Step(del.table, if del.reply.Err? then Some(del.reply.error) else None)
  }

  /** The round trips IncrRequest makes for a key. */
  function IncrCommands(key: string): set<Command> {
    {IncrCmd(RequestKey(key)), ExpireCmd(RequestKey(key)), TtlCmd(RequestKey(key))}
  }

  /**
   * The increment that brings the count to 1 starts the window: the
   * counter expires after `window` and that is the TTL returned.
   */
  lemma FirstIncrementStartsWindow(t: Table, key: string, window: int, failing: set<Command>)
    requires IncrCommands(key) !! failing && window > 0
    requires IncrRequestStep(t, key, window, failing).reply.count == 1
    ensures var s := IncrRequestStep(t, key, window, failing);
      && s.reply == IncrReply(1, window, None)
      && RequestKey(key) in s.table && s.table[RequestKey(key)] == Entry(Int(1), ExpiresIn(window))
  {
  }

  /** A fresh key: the tested (1, window) answer, and a counter at 1 that expires with the window. */
  lemma FreshKeyIncrement(t: Table, key: string, window: int, failing: set<Command>)
    requires IncrCommands(key) !! failing && window > 0 && RequestKey(key) !in t
    ensures IncrRequestStep(t, key, window, failing)
         == Step(t[RequestKey(key) := Entry(Int(1), ExpiresIn(window))], IncrReply(1, window, None))
  {
  }

  /**
   * Any later increment issues no EXPIRE: the counter keeps the TTL it
   * had, and that TTL is what is returned.
   */
  lemma LaterIncrementKeepsTtl(t: Table, key: string, window: int, failing: set<Command>)
    requires IncrCommands(key) !! failing
    requires var c := CounterOf(t, RequestKey(key)); c.Some? && 1 <= c.value < MaxInt64
    ensures RequestKey(key) in t
    ensures var s := IncrRequestStep(t, key, window, failing);
      && s.reply.count >= 2 && s.reply.err == None
      && s.table == t[RequestKey(key) := Entry(Int(s.reply.count), t[RequestKey(key)].expiry)]
      && s.reply.ttl == (if t[RequestKey(key)].expiry.ExpiresIn? then t[RequestKey(key)].expiry.seconds else 0)
  {
  }

  /**
   * A failed EXPIRE after the first increment is reported with the count
   * and TTL 0, and no TTL read is made; the counter stays stored without
   * expiry (LaterIncrementKeepsTtl shows that later increments leave it so).
   */
  lemma FailedExpireReported(t: Table, key: string, window: int, failing: set<Command>)
    requires IncrCmd(RequestKey(key)) !in failing && ExpireCmd(RequestKey(key)) in failing
    requires RequestKey(key) !in t
    ensures var s := IncrRequestStep(t, key, window, failing);
      && s.reply == IncrReply(1, 0, Some(ConnectionError))
      && s.table == t[RequestKey(key) := Entry(Int(1), Persistent)]
  {
  }

  /** A failed TTL read after a successful increment returns the count, TTL 0 and the error. */
  lemma FailedTtlReported(t: Table, key: string, window: int, failing: set<Command>)
    requires IncrCmd(RequestKey(key)) !in failing && ExpireCmd(RequestKey(key)) !in failing
    requires TtlCmd(RequestKey(key)) in failing
    requires var c := CounterOf(t, RequestKey(key)); c.Some? && c.value < MaxInt64
    ensures IncrRequestStep(t, key, window, failing).reply
         == IncrReply(CounterOf(t, RequestKey(key)).value + 1, 0, Some(ConnectionError))
  {
  }

  /** Counting requests never touches any caller's block marker. */
  lemma IncrementLeavesBlocks(t: Table, key: string, window: int, failing: set<Command>, other: string, failing': set<Command>)
    ensures IsBlockedReply(IncrRequestStep(t, key, window, failing).table, other, failing')
         == IsBlockedReply(t, other, failing')
  {
    KeysDisjoint(key, other);
  }

  /** Blocking never touches any caller's counter. */
  lemma BlockLeavesCounters(t: Table, key: string, duration: int, failing: set<Command>, other: string, failing': set<Command>)
    ensures GetRequestReply(BlockRequestStep(t, key, duration, failing).table, other, failing')
         == GetRequestReply(t, other, failing')
  {
    KeysDisjoint(other, key);
  }

  /** Right after a successful block, IsBlocked reports it with the full duration. */
  lemma BlockIsObserved(t: Table, key: string, duration: int, failing: set<Command>, failing': set<Command>)
    requires BlockRequestStep(t, key, duration, failing).reply.None?
    requires duration > 0 && TtlCmd(BlockKey(key)) !in failing'
    ensures IsBlockedReply(BlockRequestStep(t, key, duration, failing).table, key, failing')
         == BlockedReply(true, duration, None)
  {
  }

  /** Blocking twice leaves the store as blocking once: the TTL is simply reset. */
  lemma BlockIdempotent(t: Table, key: string, duration: int, failing: set<Command>)
    requires SetCmd(BlockKey(key)) !in failing
    ensures var once := BlockRequestStep(t, key, duration, failing).table;
      BlockRequestStep(once, key, duration, failing).table == once
  {
    var once := BlockRequestStep(t, key, duration, failing).table;
    var twice := BlockRequestStep(once, key, duration, failing).table;
    assert twice - {BlockKey(key)} == once - {BlockKey(key)};
    assert twice[BlockKey(key)] == once[BlockKey(key)];
  }

  /**
   * A block lasts exactly its duration: while time short of it passes
   * the caller is still blocked with the rest of the duration left, and
   * once it has passed the caller is no longer blocked.
   */
  lemma BlockExpires(t: Table, key: string, duration: int, failing: set<Command>, elapsed: nat, failing': set<Command>)
    requires Valid(t) && duration > 0 && TtlCmd(BlockKey(key)) !in failing'
    requires BlockRequestStep(t, key, duration, failing).reply.None?
    ensures var blocked := BlockRequestStep(t, key, duration, failing).table;
      IsBlockedReply(Advance(blocked, elapsed), key, failing')
      == if elapsed < duration then BlockedReply(true, duration - elapsed, None) else BlockedReply(false, 0, None)
  {
    var blocked := BlockRequestStep(t, key, duration, failing).table;
    var later := Advance(blocked, elapsed);
    if elapsed < duration {
      assert BlockKey(key) in later;
      assert later[BlockKey(key)].expiry == ExpiresIn(duration - elapsed);
    } else {
      assert BlockKey(key) !in later;
    }
  }

  /** After a successful increment GetRequest reads the count just returned. */
  lemma GetAfterIncrement(t: Table, key: string, window: int, failing: set<Command>, failing': set<Command>)
    requires window > 0 && GetCmd(RequestKey(key)) !in failing'
    requires Incr(t, RequestKey(key), failing).reply.Ok?
    ensures var s := IncrRequestStep(t, key, window, failing);
      GetRequestReply(s.table, key, failing') == CountReply(s.reply.count, None)
  {
  }

  /** After ResetRequest the next increment starts a new window at 1. */
  lemma ResetRestartsWindow(t: Table, key: string, window: int, failing: set<Command>)
    requires IncrCommands(key) !! failing && DelCmd(RequestKey(key)) !in failing && window > 0
    ensures var reset := ResetRequestStep(t, key, failing).table;
      IncrRequestStep(reset, key, window, failing).reply == IncrReply(1, window, None)
  {
  }

  /** The store after n successive increments of one caller's counter, none failing. */
  function IncrementTimes(t: Table, key: string, window: int, n: nat): Table
    decreases n
  {
    if n == 0 then t else IncrRequestStep(IncrementTimes(t, key, window, n - 1), key, window, {}).table
  }

  /**
   * Increments are atomic: starting from no counter, n successive
   * increments leave the counter at exactly n, with the TTL the first one set.
   */
  lemma {:induction false} IncrementsCountUp(t: Table, key: string, window: int, n: nat)
    requires RequestKey(key) !in t && window > 0 && n < MaxInt64
    ensures IncrementTimes(t, key, window, n) == if n == 0 then t else t[RequestKey(key) := Entry(Int(n), ExpiresIn(window))]
    decreases n
  {
    if n == 1 {
      FreshKeyIncrement(t, key, window, {});
    } else if n > 1 {
      IncrementsCountUp(t, key, window, n - 1);
      CountUpStep(t, key, window, n);
    }
  }

  /** One more increment of a counter at n - 1 leaves it at n. */
  lemma CountUpStep(t: Table, key: string, window: int, n: nat)
    requires RequestKey(key) !in t && window > 0 && 1 < n < MaxInt64
    requires IncrementTimes(t, key, window, n - 1) == t[RequestKey(key) := Entry(Int(n - 1), ExpiresIn(window))]
    ensures IncrementTimes(t, key, window, n) == t[RequestKey(key) := Entry(Int(n), ExpiresIn(window))]
  {
    IncrementCounted(t, key, window, n - 1);
  }

  /** Incrementing a counter at c, set by the window's first increment, leaves it at c + 1 and returns c + 1. */
  lemma IncrementCounted(t: Table, key: string, window: int, c: nat)
    requires RequestKey(key) !in t && window > 0 && 1 <= c && c + 1 < MaxInt64
    ensures IncrRequestStep(t[RequestKey(key) := Entry(Int(c), ExpiresIn(window))], key, window, {})
         == Step(t[RequestKey(key) := Entry(Int(c + 1), ExpiresIn(window))], IncrReply(c + 1, window, None))
  {
    var counted := t[RequestKey(key) := Entry(Int(c), ExpiresIn(window))];
    LaterIncrementKeepsTtl(counted, key, window, {});
    assert counted[RequestKey(key) := Entry(Int(c + 1), ExpiresIn(window))]
        == t[RequestKey(key) := Entry(Int(c + 1), ExpiresIn(window))];
  }

  /** So the (n+1)-th increment returns n + 1: no two requests in a window observe one count. */
  lemma DistinctCounts(t: Table, key: string, window: int, n: nat)
    requires RequestKey(key) !in t && window > 0 && n + 1 < MaxInt64
    ensures IncrRequestStep(IncrementTimes(t, key, window, n), key, window, {}).reply == IncrReply(n + 1, window, None)
  {
    IncrementsCountUp(t, key, window, n);
    if n == 0 {
      FreshKeyIncrement(t, key, window, {});
    } else {
      IncrementCounted(t, key, window, n);
    }
  }

  /**
   * IsBlocked as redis_storage.go writes it: EXISTS on the key, with the
   * command's error discarded (Val() of a failed command is 0).
   */
  function IsBlockedAsWritten(t: Table, key: string, failing: set<Command>): (r: (bool, Option<Error>))
    ensures r.1 == None
    ensures r.0 <==> ExistsCmd(key) !in failing && key in t
  {
    (IntVal(Exists(t, key, failing)) == 1, None)
  }

  /**
   * IncrRequest as redis_storage.go writes it: INCR on the key, and EXPIRE
   * when the count is 1 with the EXPIRE's result discarded; no TTL read.
   */
  function IncrRequestAsWritten(t: Table, key: string, window: int, failing: set<Command>): (s: Step<(int, Option<Error>)>)
    ensures Incr(t, key, failing).reply.Err? ==> s == Step(t, (0, Some(Incr(t, key, failing).reply.error)))
    ensures Incr(t, key, failing).reply.Ok? ==> s.reply == (Incr(t, key, failing).reply.value, None)
  {
    var incr := Incr(t, key, failing);
    if incr.reply.Err? then Step(t, (0, Some(incr.reply.error)))
    else if incr.reply.value == 1 then Step(Expire(incr.table, key, window, failing).table, (1, None))
    else Step(incr.table, (incr.reply.value, None))
  }

  /**
   * The as-written IsBlocked fails open: a blocked caller whose EXISTS
   * round trip fails is reported as not blocked and without error, so
   * the engine lets it through. The tested IsBlocked reports the error.
   */
  lemma AsWrittenIsBlockedFailsOpen(t: Table, key: string)
    requires key in t && BlockKey(key) in t
    ensures IsBlockedAsWritten(t, key, {ExistsCmd(key)}) == (false, None)
    ensures IsBlockedReply(t, key, {TtlCmd(BlockKey(key))}) == BlockedReply(false, 0, Some(ConnectionError))
  {
  }

  /**
   * The as-written operations share one unprefixed key: the counter that
   * IncrRequest creates is what IsBlocked tests with EXISTS, so after one
   * counted request the caller reads as blocked for the rest of the
   * window. With the tested keys, counting leaves the caller unblocked.
   */
  lemma AsWrittenCountReadsAsBlocked(t: Table, key: string, window: int)
    requires key !in t && BlockKey(key) !in t && window > 0
    ensures IsBlockedAsWritten(IncrRequestAsWritten(t, key, window, {}).table, key, {}) == (true, None)
    ensures IsBlockedReply(IncrRequestStep(t, key, window, {}).table, key, {}) == BlockedReply(false, 0, None)
  {
    IncrementLeavesBlocks(t, key, window, {}, key, {});
  }

  /**
   * The as-written IncrRequest reports success when the EXPIRE that
   * should start the window fails, though the counter it leaves never
   * expires however much time passes. The tested IncrRequest reports the
   * error with the count.
   */
  lemma AsWrittenIncrementHidesExpireFailure(t: Table, key: string, window: int, elapsed: nat)
    requires Valid(t) && key !in t && RequestKey(key) !in t
    ensures var s := IncrRequestAsWritten(t, key, window, {ExpireCmd(key)});
      && s.reply == (1, None)
      && Valid(s.table) && key in Advance(s.table, elapsed)
    ensures IncrRequestStep(t, key, window, {ExpireCmd(RequestKey(key))}).reply == IncrReply(1, 0, Some(ConnectionError))
  {
    var s := IncrRequestAsWritten(t, key, window, {ExpireCmd(key)});
    assert s.table == t[key := Entry(Int(1), Persistent)];
  }

  /**
   * The adapter object. Its table is the contents of the shared store as
   * this adapter's commands see them.
   */
  class RedisStorage {
    var table: Table

    constructor (initial: Table)
      ensures table == initial
    {
      table := initial;
    }

    method IncrRequest(key: string, window: int, failing: set<Command>) returns (count: int, ttl: int, err: Option<Error>)
      modifies this
      ensures IncrRequestStep(old(table), key, window, failing) == Step(table, IncrReply(count, ttl, err))
    {
      var rk := RequestKey(key);
      var incr := Incr(table, rk, failing);
      if incr.reply.Err? {
        return 0, 0, Some(incr.reply.error);
      }
      table := incr.table;
      count := incr.reply.value;
      if count == 1 {
        var expire := Expire(table, rk, window, failing);
        if expire.reply.Err? {
          return count, 0, Some(expire.reply.error);
        }
        table := expire.table;
      }
      match Ttl(table, rk, failing)
      case Err(e) =>
        ttl, err := 0, Some(e);
      case Ok(r) =>
        ttl, err := SecondsLeft(r), None;
    }

    method IsBlocked(key: string, failing: set<Command>) returns (blocked: bool, ttl: int, err: Option<Error>)
      ensures IsBlockedReply(table, key, failing) == BlockedReply(blocked, ttl, err)
    {
      match Ttl(table, BlockKey(key), failing)
      case Err(e) =>
        return false, 0, Some(e);
      case Ok(NoSuchKey) =>
        return false, 0, None;
      case Ok(r) =>
        return true, SecondsLeft(r), None;
    }

    method BlockRequest(key: string, duration: int, failing: set<Command>) returns (err: Option<Error>)
      modifies this
      ensures BlockRequestStep(old(table), key, duration, failing) == Step(table, err)
    {
      var set_ := Set(table, BlockKey(key), Text(BlockedMarker), duration, failing);
      table := set_.table;
      err := if set_.reply.Err? then Some(set_.reply.error) else None;
    }

    method GetRequest(key: string, failing: set<Command>) returns (count: int, err: Option<Error>)
      ensures GetRequestReply(table, key, failing) == CountReply(count, err)
    {
      var value := Get(table, RequestKey(key), failing);
      if value.Err? {
        return 0, Some(value.error);
      }
      match value.value
      case Int(n) =>
        return n, None;
      case Text(_) =>
        return 0, Some(NotAnInteger);
    }

    method ResetRequest(key: string, failing: set<Command>) returns (err: Option<Error>)
      modifies this
      ensures ResetRequestStep(old(table), key, failing) == Step(table, err)
    {
      var del := Del(table, RequestKey(key), failing);
      table := del.table;
      err := if del.reply.Err? then Some(del.reply.error) else None;
    }
  }
}
