# Rate limiter: storage adapter, decision engine and HTTP middleware

A Dafny model of the request-admission path of go-expert-fc-rate-limiter. Each
caller gets a request counter that lives for one window and a block marker
that lives for the block duration. Both are kept in a shared Redis-like store.
A caller is identified by an access token (the `API_KEY` header) or else by
its client address.

The model has three layers:

- **Storage adapter** (`storage.dfy`, module `Storage`), from
  `internal/pkg/ratelimiter/redis_storage.go`.
  - `IncrRequest` counts a request. It INCRs `rate_limiter:req:<key>`. When
    the count is 1, this request started the window, so it EXPIREs the
    counter after the window. It then reads the TTL back.
  - `IsBlocked` reads the TTL of `rate_limiter:block:<key>`.
  - `BlockRequest` SETs that marker with the block duration as its TTL.
  - `GetRequest` reads the counter and `ResetRequest` deletes it.

  Every operation has two forms. A pure *step* function gives the table
  afterwards and the Go return values. A method of the class `RedisStorage`
  runs the same commands one after another on its `table` field and is
  proved to agree with its step. The store commands are pure functions over
  a key → (value, TTL) map in `redis.dfy` (module `Redis`). A failed round
  trip is marked by its command and key in a `failing` set and changes
  nothing.
- **Decision engine** (`limiter.dfy`, module `Limiter`): `RateLimiter.Allow`.
  - `Decide` is the rule over the storage's answers. It returns the storage
    calls made, in order, and the `RateLimiterResponse`. This is the level at
    which the engine's mock-based tests talk.
  - `Replay` performs those calls on the store.
  - `RateLimiter.Allow` is the imperative engine over a `RedisStorage`,
    proved to equal `AllowStep`, which is `Decide` composed with `Replay`.
- **Middleware** (`middleware.dfy`, module `Middleware`), from
  `internal/infra/webserver/middleware/rate_limiter.go`.
  - `KeyFor` picks the key: the token wins over the address.
  - `Respond` turns the engine's answer into a response record: the status,
    the headers, the body, and whether the next handler ran.
  - `RateLimiterMiddleware.Handler` chains these with `Allow`.

  Header values are written with `Strconv.Itoa`, a model of `strconv.Itoa`.
  `ParseDecimal` is proved to be its left inverse: it reads back every string `Itoa` writes, and it also accepts some strings `Itoa` never writes, such as "+5". The address's host is taken as
  `net.SplitHostPort` computes it (`netaddr.dfy`).

Durations are whole seconds. Times are Unix seconds. The clock reading is an
integer parameter `now`.

### How conflicting sources were resolved

- **Adapter version.** `redis_storage.go` is an older shape than its own tests
  and than the storage mocks the engine and middleware are tested against.
  The old shape uses unprefixed keys, an `IncrRequest` that returns no TTL and
  ignores the EXPIRE error, and an `IsBlocked` that uses EXISTS and never
  fails. The model follows the tested three-operation contract, because that
  is what the engine and middleware consume. The two as-written operations
  are modelled as well, under "Findings".
- **GetRequest and ResetRequest.** These keep the shown file's behaviour. In
  the shown file they address the same store key as `IncrRequest`, so here
  they address the counter key `rate_limiter:req:<key>`.
- **Allow.** `internal/pkg/ratelimiter/limiter.go` holds only a stale struct,
  so the implementation of `Allow` is not part of this model's sources. Its
  rule is taken from `limiter_test.go` and the mock interface.
  - The time fields were settled as follows. A blocked caller gets
    `RetryAfter = now + remaining block TTL` and no `ResetTime`. An over-limit
    request gets `ResetTime = now + counter TTL` and
    `RetryAfter = now + BlockDuration`, because the middleware reads
    `RetryAfter` on every denial. An allowed request gets
    `ResetTime = now + counter TTL` and no `RetryAfter`.
  - An error returns Go's zero response.
  - An error from `BlockRequest` on the over-limit path does not change the
    denial.
- **Shared key space.** A token and an address with the same text share one
  counter and one block marker. The key type chooses only the limit.

## Model

| member | source | states |
|---|---|---|
| Redis.Incr | internal/pkg/ratelimiter/redis_storage.go:26 | INCR adds exactly one to the counter and keeps its TTL; an absent counter starts at 1 with no expiry; a failed round trip, a non-integer value or 64-bit overflow is an error that changes nothing |
| Redis.Expire | internal/pkg/ratelimiter/redis_storage.go:47 | EXPIRE gives an existing key the TTL and answers true, answers false for an absent key, and deletes the key for a non-positive timeout |
| Redis.Ttl | internal/pkg/ratelimiter/redis_storage_test.go:42-55 | TTL reports no such key, no expiry, or exactly the stored remaining seconds, and changes nothing |
| Redis.Set | internal/pkg/ratelimiter/redis_storage.go:109 | SET overwrites the value; a positive expiration becomes the TTL and a non-positive one leaves the key without expiry; every other key stays as it was |
| Redis.Del | internal/pkg/ratelimiter/redis_storage.go:92 | DEL removes exactly the key and answers how many keys it removed |
| Redis.Get | internal/pkg/ratelimiter/redis_storage.go:54 | GET returns the stored value, and the Nil error for an absent key |
| Redis.Exists | internal/pkg/ratelimiter/redis_storage.go:100 | EXISTS answers 1 exactly when the key is present, and changes nothing |
| Storage.RequestKey | internal/pkg/ratelimiter/redis_storage_test.go:29 | the counter key is the caller's key under the `rate_limiter:req:` prefix |
| Storage.BlockKey | internal/pkg/ratelimiter/redis_storage_test.go:112 | the block key is the caller's key under the `rate_limiter:block:` prefix |
| Storage.KeysDisjoint | internal/pkg/ratelimiter/redis_storage_test.go:29-112 | no caller's counter key equals any caller's block key |
| Storage.KeysInjective | internal/pkg/ratelimiter/redis_storage.go:11 | distinct callers have distinct counter keys and distinct block keys |
| Storage.IncrRequestStep | internal/pkg/ratelimiter/redis_storage.go:25-51 | only the caller's counter changes; the count is one more than before; a failed INCR gives (0, 0, err) and changes nothing; every error comes with TTL 0 |
| Storage.IsBlockedReply | internal/pkg/ratelimiter/redis_storage_test.go:102-149 | blocked exactly when the block key is present; an absent key is not an error and gives (false, 0); a failed TTL read gives (false, 0, err); a blocked caller gets the marker's remaining seconds as its TTL |
| Storage.BlockRequestStep | internal/pkg/ratelimiter/redis_storage.go:103-110 | unconditionally writes "blocked" with TTL = duration under the block key, leaves every other key alone, and propagates a store error with the store unchanged |
| Storage.GetRequestReply | internal/pkg/ratelimiter/redis_storage.go:53-85 | returns the stored integer; returns 0 and an error when the counter is missing (Nil), is not an integer, or the read fails |
| Storage.ResetRequestStep | internal/pkg/ratelimiter/redis_storage.go:87-93 | deletes exactly the counter, or changes nothing and reports the store error |
| Storage.FirstIncrementStartsWindow | internal/pkg/ratelimiter/redis_storage.go:41-48 | the increment that returns 1 sets the counter to expire after `window` and returns (1, window) |
| Storage.FreshKeyIncrement | internal/pkg/ratelimiter/redis_storage_test.go:26-40 | a fresh key yields (1, window, no error) and a counter at 1 expiring with the window |
| Storage.LaterIncrementKeepsTtl | internal/pkg/ratelimiter/redis_storage_test.go:42-55 | a count of 2 or more issues no EXPIRE: the counter keeps its TTL, which is what is returned |
| Storage.FailedExpireReported | internal/pkg/ratelimiter/redis_storage_test.go:71-84 | a failed EXPIRE after the first increment returns (1, 0, err) and leaves the counter at 1 without expiry |
| Storage.FailedTtlReported | internal/pkg/ratelimiter/redis_storage_test.go:86-99 | a failed TTL read after a successful increment returns (count, 0, err) |
| Storage.IncrementLeavesBlocks | internal/pkg/ratelimiter/redis_storage_test.go:29-112 | counting a request never changes what IsBlocked answers for any caller |
| Storage.BlockLeavesCounters | internal/pkg/ratelimiter/redis_storage_test.go:159-169 | blocking never changes what GetRequest answers for any caller |
| Storage.BlockIsObserved | internal/pkg/ratelimiter/redis_storage_test.go:123-135 | right after a successful block, IsBlocked answers (true, duration) |
| Storage.BlockIdempotent | internal/pkg/ratelimiter/redis_storage.go:103-110 | blocking twice leaves the store exactly as blocking once |
| Storage.BlockExpires | internal/pkg/ratelimiter/redis_storage.go:103-110 | a block reports the rest of its duration while it lasts and is gone once the duration has passed |
| Storage.GetAfterIncrement | internal/pkg/ratelimiter/redis_storage.go:53-85 | after a successful increment, GetRequest returns the count just returned |
| Storage.ResetRestartsWindow | internal/pkg/ratelimiter/redis_storage.go:87-93 | after ResetRequest the next increment returns (1, window): a new window starts |
| Storage.IncrementsCountUp | internal/pkg/ratelimiter/redis_storage.go:26 | n successive increments from no counter leave it at exactly n, with the TTL the first set |
| Storage.DistinctCounts | internal/pkg/ratelimiter/redis_storage.go:26-50 | the (n+1)-th increment returns n+1, so no two requests in a window see one count |
| Storage.IsBlockedAsWritten | internal/pkg/ratelimiter/redis_storage.go:95-101 | as written: true exactly when EXISTS reaches the store and finds the key; never an error |
| Storage.IncrRequestAsWritten | internal/pkg/ratelimiter/redis_storage.go:25-51 | as written: a failed INCR gives (0, err); otherwise the count and no error, whatever EXPIRE did |
| Storage.AsWrittenIsBlockedFailsOpen | internal/pkg/ratelimiter/redis_storage.go:100 | a blocked caller whose EXISTS fails is reported not blocked and without error; the tested IsBlocked reports the error |
| Storage.AsWrittenIncrementHidesExpireFailure | internal/pkg/ratelimiter/redis_storage.go:41-50 | a failed EXPIRE on the first increment is reported as success while the counter never expires; the tested IncrRequest returns (1, 0, err) |
| Storage.AsWrittenCountReadsAsBlocked | internal/pkg/ratelimiter/redis_storage.go:26-100 | with the as-written shared key, one counted request on a fresh key makes IsBlocked answer (true, nil); with the tested keys the caller stays unblocked |
| Storage.RedisStorage.constructor | internal/pkg/ratelimiter/redis_storage.go:18-23 | the adapter starts over the given store contents |
| Storage.RedisStorage.IncrRequest | internal/pkg/ratelimiter/redis_storage.go:25-51 | runs INCR, the conditional EXPIRE and the TTL read on the table, and ends in the table and results of IncrRequestStep |
| Storage.RedisStorage.IsBlocked | internal/pkg/ratelimiter/redis_storage_test.go:102-149 | returns what IsBlockedReply gives for the current table |
| Storage.RedisStorage.BlockRequest | internal/pkg/ratelimiter/redis_storage.go:103-110 | ends in the table and error of BlockRequestStep |
| Storage.RedisStorage.GetRequest | internal/pkg/ratelimiter/redis_storage.go:53-85 | returns what GetRequestReply gives for the current table |
| Storage.RedisStorage.ResetRequest | internal/pkg/ratelimiter/redis_storage.go:87-93 | ends in the table and error of ResetRequestStep |
| Limiter.LimitFor | internal/pkg/ratelimiter/limiter_test.go:21-26 | a Token key gets MaxRequestToken and an API key gets MaxRequestIP |
| Limiter.Decide | internal/pkg/ratelimiter/limiter_test.go:29-112 | IsBlocked(key) comes first; a block or a failed check short-circuits with no increment; otherwise IncrRequest(key, WindowDuration); exactly one BlockRequest(key, BlockDuration) iff count > limit; allowed iff not blocked, no error and count ≤ limit; allowed ⇒ RequestsLeft = limit − count ≥ 0 and no retry time; denied ⇒ RequestsLeft = 0; errors pass through with the zero response; a counted request gets ResetTime = now + counter TTL; a blocked caller gets no ResetTime and RetryAfter = now + remaining block TTL; the request that goes over the limit gets RetryAfter = now + BlockDuration |
| Limiter.RequestsLeftDecreases | internal/pkg/ratelimiter/limiter_test.go:29-45 | within the limit, a higher count gives fewer requests left, by exactly the difference |
| Limiter.DecisionDependsOnCount | internal/pkg/ratelimiter/limiter_test.go:114-146 | equal counts give equal calls, Allowed, Limit and RequestsLeft on every call, whatever the clock |
| Limiter.AllowedUnderLimit | internal/pkg/ratelimiter/limiter_test.go:29-45 | not blocked with count 1 on a Token key: allowed, Limit 10, RequestsLeft 9, and only IsBlocked and IncrRequest are called |
| Limiter.OverLimitBlocks | internal/pkg/ratelimiter/limiter_test.go:64-81 | count 11 > 10: denied, RequestsLeft 0, Limit 10, and one BlockRequest(key, 300) |
| Limiter.AllowTouchesOnlyOwnKeys | internal/pkg/ratelimiter/limiter_test.go:29-112 | an Allow touches only its own caller's counter and block marker, and leaves the store exactly as it was when it does not count (blocked, or the block check failed) |
| Limiter.BlockedCallerNotCounted | internal/pkg/ratelimiter/limiter_test.go:47-62 | a blocked caller is denied with RequestsLeft 0 and the limit, RetryAfter is now plus the marker's remaining seconds, and the store is untouched: no increment |
| Limiter.FailedBlockCheckTouchesNothing | internal/pkg/ratelimiter/limiter_test.go:83-96 | a failed IsBlocked returns the error with Allowed false and makes no further call |
| Limiter.FailedCountWritesNoBlock | internal/pkg/ratelimiter/limiter_test.go:98-112 | a failed IncrRequest returns the error with Allowed false and writes no block for anyone |
| Limiter.OverLimitBlocksLaterCalls | internal/pkg/ratelimiter/limiter_test.go:64-81 | going over the limit denies and blocks: every later Allow, after any time short of the block duration, is denied with nothing left, counts nothing, and gets RetryAfter at the end of the block |
| Limiter.AllowsWithinLimitOnlyCount | internal/pkg/ratelimiter/limiter_test.go:29-45 | up to the limit, a fresh caller's Allow calls only increment its counter |
| Limiter.FreshCallerQuota | internal/pkg/ratelimiter/limiter_test.go:29-81 | the i-th rapid request of a fresh caller is allowed with limit − i left while i ≤ limit; request limit+1 is denied and blocks the caller for BlockDuration |
| Limiter.BlockEndsAfterItsDuration | internal/pkg/ratelimiter/limiter_test.go:64-81 | once the block and the window have run out, the blocked caller is fresh again and its count restarts at 1 |
| Limiter.RateLimiter.constructor | internal/pkg/ratelimiter/limiter_test.go:27 | the engine holds the given storage and options |
| Limiter.RateLimiter.Allow | internal/pkg/ratelimiter/limiter_test.go:29-112 | calls IsBlocked, IncrRequest and BlockRequest on the adapter in order; its response, error and the store afterwards are those of AllowStep |
| Strconv.Itoa | internal/infra/webserver/middleware/rate_limiter.go:65-68 | header numbers are decimal: a leading minus exactly for negative numbers, digits otherwise |
| Strconv.ItoaRoundTrip | internal/infra/webserver/middleware/rate_limiter.go:83-85 | reading back a number written by Itoa gives the number |
| Strconv.ItoaInjective | internal/infra/webserver/middleware/rate_limiter.go:83-85 | distinct numbers give distinct header values |
| NetAddr.SplitHost | internal/infra/webserver/middleware/rate_limiter.go:92 | a host is found only in an address with a colon, and it never has brackets |
| NetAddr.HostOf | internal/infra/webserver/middleware/rate_limiter.go:91-94 | an address without a colon gives the empty host, and a host never has brackets |
| NetAddr.HostOfJoin | internal/infra/webserver/middleware/rate_limiter.go:91-94 | the host of host:port, or of [host]:port for a host with colons, is that host, whatever the port |
| Middleware.GetToken | internal/infra/webserver/middleware/rate_limiter.go:96-98 | the API_KEY header's value, or "" when absent |
| Middleware.GetIP | internal/infra/webserver/middleware/rate_limiter.go:91-94 | the remote address's host: "" for an address without a colon, and never a bracket in it |
| Middleware.KeyFor | internal/infra/webserver/middleware/rate_limiter.go:42-50 | a non-empty token gives (token, Token); otherwise (host of the remote address, API) |
| Middleware.Unix | internal/infra/webserver/middleware/rate_limiter.go:58 | a set time's Unix seconds; an unset one is Go's zero time |
| Middleware.UntilSeconds | internal/infra/webserver/middleware/rate_limiter.go:61 | the seconds from now to the time, saturated at the bounds of a 64-bit nanosecond duration |
| Middleware.Respond | internal/infra/webserver/middleware/rate_limiter.go:52-87 | an error gives 500 with only Content-Type and X-Content-Type-Options headers; a denial gives 429, Limit, Remaining "0", Reset from RetryAfter, Retry-After equal to the body's reset_after, and a body with rate_limit_exceeded and remaining 0; an allowance sets Limit, Remaining and Reset from ResetTime; the next handler runs exactly when allowed |
| Middleware.AllowedHeadersReadBack | internal/infra/webserver/middleware/rate_limiter.go:83-85 | the headers of an allowed request read back as Limit, RequestsLeft and the reset time |
| Middleware.DeniedHeadersReadBack | internal/infra/webserver/middleware/rate_limiter.go:60-77 | the headers of a refusal read back as the limit, 0, RetryAfter's time, and the body's reset_after |
| Middleware.TokenOverridesAddress | internal/infra/webserver/middleware/rate_limiter.go:44-47 | requests with the same non-empty token share one Token key whatever their addresses |
| Middleware.AddressKeyIgnoresPort | internal/infra/webserver/middleware/rate_limiter.go:48-50 | without a token, connections from one host share one API key whatever their ports |
| Middleware.ThirdTokenRequestHeaders | internal/infra/webserver/middleware/rate_limiter_test.go:102-127 | the third token request passes on with 200, "10" and "7" |
| Middleware.EleventhTokenRequestRefused | internal/infra/webserver/middleware/rate_limiter_test.go:129-154 | the eleventh token request is refused with 429, "10", "0" and a Retry-After of 300, and the next handler does not run |
| Middleware.RateLimiterMiddleware.constructor | internal/infra/webserver/middleware/rate_limiter.go:29-34 | the middleware holds the given engine |
| Middleware.RateLimiterMiddleware.Handler | internal/infra/webserver/middleware/rate_limiter.go:36-89 | classifies the request, runs Allow on the store, and answers with Respond of its result |

## Findings

| source | as written | input that shows it | evidently intended | confidence | as-written member | corrected member |
|---|---|---|---|---|---|---|
| internal/pkg/ratelimiter/redis_storage.go:95-101 | `IsBlocked` returns `Exists(...).Val() == 1, nil`, discarding the command's error | a blocked caller whose EXISTS round trip fails is reported as not blocked, without error, so the engine lets it through | report the error, as redis_storage_test.go:137-148 asserts, so that `Allow` fails with an error instead of allowing | not executed; high | Storage.AsWrittenIsBlockedFailsOpen | Storage.IsBlockedReply |
| internal/pkg/ratelimiter/redis_storage.go:41-50 | the result of `Expire` is ignored and the count is returned with no error | a fresh key whose INCR succeeds and whose EXPIRE fails returns (1, nil); the counter it leaves never expires | report the EXPIRE error with the count, as redis_storage_test.go:71-84 asserts | not executed; high | Storage.AsWrittenIncrementHidesExpireFailure | Storage.FailedExpireReported |
| internal/pkg/ratelimiter/redis_storage.go:26-100 | `IncrRequest` INCRs and `IsBlocked` runs EXISTS on the same unprefixed key | after one counted request on a fresh key (limiter_test.go:35-36 passes one key to both), IsBlocked answers (true, nil) for the rest of the window | separate `rate_limiter:req:` and `rate_limiter:block:` keys, as redis_storage_test.go:29,112 use, so counting never blocks | not executed; high | Storage.AsWrittenCountReadsAsBlocked | Storage.IncrementLeavesBlocks |

## Left out

- Logging: the slog calls in the adapter and the logger passed to the constructors.
- Context cancellation: the engine neither sees nor propagates it.
- Concurrency is not modelled. Each `Allow` runs all its commands with nothing interleaved. Distinct counts are proved for successive calls only. The test's goroutines and channels are left out.
- The five-operation `Storage` interface in storage.go. The engine consumes the three-operation interface of the mocks.
- The superseded in-process token bucket in internal/middleware/ratelimiter/rate_limiter.go. It depends on golang.org/x/time/rate.
- Configuration loading, the Redis client, the router and server wiring. These are configs/config.go, internal/infra/database/redis.go, cmd/server/main.go and the two server.go files.
- Clocks: `now` is an integer input, and the engine and the middleware read the same `now`. In Go, `time.Until` reads the clock again after the engine has, and `int(…Seconds())` truncates, so a real Retry-After is typically one second less (299 where the model gives 300). Sub-second precision and Redis's own TTL rounding are not modelled.
- Lost replies: a failed command is one that never reached the store. A reply lost after the store applied the command (a client timeout after INCR counted, say) is not modelled.
- Expiry: keys expire only when `Redis.Advance` is applied, not on their own.
- Header-name canonicalisation by net/http. Header names are matched exactly.
- Multiple values for one header.
- The JSON encoding of the refusal body. The body is a record.
- The downstream handler's own response. A request that is let through is given status 200, as the handlers in the middleware's tests write.
- http.Error beyond its status, body and the two headers it sets.
- Storage.IsBlockedReply: a block marker without expiry reads as blocked with TTL 0. Only the adapter's own SET writes the marker, and it always writes one with a TTL.
- String values: a stored string is never read as a number, so INCR and GET refuse `Text("5")` where Redis would count it. The adapter only writes integers through INCR and the text "blocked".
- Redis.Set: go-redis' KeepTTL (a -1 nanosecond expiration) is not modelled, because durations are whole seconds.
- Storage.IncrRequestStep: when the TTL read finds a counter without expiry (after a failed EXPIRE, say) or no counter, the returned TTL is 0. The go-redis client would return its -1 or -2 marker there. The adapter code for this shape is not shown.
- Integer widths outside the store: `now + ttl`, `limit - count` and the Options values are unbounded integers. The store's counter is bounded at 2^63 − 1.
