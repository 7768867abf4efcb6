/**
 * The HTTP middleware in front of the application: it picks the
 * rate-limit key of a request (the API_KEY header's token when there is
 * one, else the client's address), asks the engine, and turns the answer
 * into the response: the request passes on to the next handler with the
 * rate-limit headers set, or it is refused with 429 and a JSON body, or
 * with 500 when the engine fails. Responses are modelled as a record
 * (status, headers, body, and whether the next handler ran); clock
 * readings are the integer `now`, in Unix seconds.
 */
module Middleware {
  import opened Base
  import opened Strconv
  import opened NetAddr
  import opened Redis
  import opened Storage
  import opened Limiter

  const HeaderAPIKey: string := "API_KEY"

  const StatusOK: int := 200
  const StatusTooManyRequests: int := 429
  const StatusInternalServerError: int := 500

  /** time.Time{}.Unix(): the Unix second of Go's zero time, January 1 of year 1. */
  const ZeroTimeUnix: int := -62135596800

  /** The whole seconds in Go's largest duration, 2^63 - 1 nanoseconds. */
  const MaxDurationSeconds: int := 9223372036

  const LimitExceeded: string := "rate_limit_exceeded"
  const LimitExceededMessage: string :=
    "you have reached the maximum number of requests or actions allowed within a certain time frame"

  datatype Request = Request(remoteAddr: string, header: map<string, string>)

  /** The JSON body of a refusal. */
  datatype RateLimitErrorResponse = RateLimitErrorResponse(
    error: string, message: string, limit: int, remaining: int, resetAfter: int)

  datatype Body = NoBody | PlainText(text: string) | Json(payload: RateLimitErrorResponse)

  /** What the middleware does with a request: status, headers, body, and whether the next handler ran. */
  datatype Response = Response(status: int, header: map<string, string>, body: Body, nextCalled: bool)

  /** getToken: the API_KEY header's value, "" when absent. */
  function GetToken(r: Request): (token: string)
    ensures HeaderAPIKey !in r.header ==> token == ""
    ensures HeaderAPIKey in r.header ==> token == r.header[HeaderAPIKey]
  {
    if HeaderAPIKey in r.header then r.header[HeaderAPIKey] else ""
  }

  /** getIP: the host part of the remote address, port stripped. */
  function GetIP(r: Request): (ip: string)
    ensures ':' !in r.remoteAddr ==> ip == ""
    ensures '[' !in ip && ']' !in ip
  {
    HostOf(r.remoteAddr)
  }

  /** The key of a request: a non-empty token wins over the address. */
  function KeyFor(r: Request): (rk: RateLimitKey)
    ensures GetToken(r) != "" ==> rk == RateLimitKey(GetToken(r), Token)
    ensures GetToken(r) == "" ==> rk == RateLimitKey(GetIP(r), API)
  {
    var token := GetToken(r);
    if token != "" then RateLimitKey(token, Token) else RateLimitKey(GetIP(r), API)
  }

  /** t.Unix() of a response time; an unset time is Go's zero time. */
  function Unix(t: Option<int>): (seconds: int)
    ensures t.Some? ==> seconds == t.value
    ensures t.None? ==> seconds == ZeroTimeUnix
  {
    if t.Some? then t.value else ZeroTimeUnix
  }

  /**
   * int(time.Until(t).Seconds()): the seconds from now until t, where the
   * nanosecond duration saturates at the bounds of a signed 64-bit integer.
   */
  function UntilSeconds(t: int, now: int): (seconds: int)
    ensures -MaxDurationSeconds <= seconds <= MaxDurationSeconds
    ensures -MaxDurationSeconds <= t - now <= MaxDurationSeconds ==> seconds == t - now
  {
    if t - now > MaxDurationSeconds then MaxDurationSeconds
    else if t - now < -MaxDurationSeconds then -MaxDurationSeconds
    else t - now
  }

  /** The headers set on a request that is let through. */
  function AllowedHeaders(resp: RateLimiterResponse): map<string, string> {
    map["X-RateLimit-Limit" := Itoa(resp.limit),
        "X-RateLimit-Remaining" := Itoa(resp.requestsLeft),
        "X-RateLimit-Reset" := Itoa(Unix(resp.resetTime))]
  }

  /** The headers set on a refused request: its limit, "0" left, the reset time and the seconds to wait. */
  function DeniedHeaders(limit: int, resetTime: int, retryAfterSeconds: int): (h: map<string, string>)
    ensures h.Keys == {"Content-Type", "X-RateLimit-Limit", "X-RateLimit-Remaining", "X-RateLimit-Reset", "Retry-After"}
    ensures h["Content-Type"] == "application/json"
    ensures h["X-RateLimit-Limit"] == Itoa(limit) && h["X-RateLimit-Remaining"] == "0"
    ensures h["X-RateLimit-Reset"] == Itoa(resetTime) && h["Retry-After"] == Itoa(retryAfterSeconds)
  {
    map["Content-Type" := "application/json",
        "X-RateLimit-Limit" := Itoa(limit),
        "X-RateLimit-Remaining" := Itoa(0),
        "X-RateLimit-Reset" := Itoa(resetTime),
        "Retry-After" := Itoa(retryAfterSeconds)]
  }

  /**
   * The translation of the engine's answer. On an error: 500 and nothing
   * else. On a denial: 429, the reset time taken from RetryAfter, a
   * Retry-After equal to the body's reset_after, and the JSON body. On
   * an allowance: the three rate-limit headers, then the next handler.
   */
  function Respond(resp: RateLimiterResponse, err: Option<Error>, now: int): (w: Response)
    ensures w.nextCalled <==> err.None? && resp.allowed
    ensures err.Some? ==> w.status == StatusInternalServerError && w.body == PlainText("internal server error\n")
    ensures err.Some? ==> w.header.Keys == {"Content-Type", "X-Content-Type-Options"}
    ensures err.None? && resp.allowed ==>
      && w.status == StatusOK && w.body == NoBody
      && w.header == AllowedHeaders(resp)
    ensures err.None? && !resp.allowed ==>
      && w.status == StatusTooManyRequests
      && w.header.Keys == {"Content-Type", "X-RateLimit-Limit", "X-RateLimit-Remaining", "X-RateLimit-Reset", "Retry-After"}
      && w.header["Content-Type"] == "application/json"
      && w.header["X-RateLimit-Limit"] == Itoa(resp.limit)
      && w.header["X-RateLimit-Remaining"] == "0"
      && w.header["X-RateLimit-Reset"] == Itoa(Unix(resp.retryAfter))
      && w.body.Json?
      && w.header["Retry-After"] == Itoa(w.body.payload.resetAfter)
      && w.body.payload.resetAfter == UntilSeconds(Unix(resp.retryAfter), now)
      && w.body.payload.error == LimitExceeded
      && w.body.payload.remaining == 0
      && w.body.payload.limit == resp.limit
  {
    if err.Some? then
      Response(StatusInternalServerError,
               map["Content-Type" := "text/plain; charset=utf-8", "X-Content-Type-Options" := "nosniff"],
               PlainText("internal server error\n"), false)
    else if !resp.allowed then
      var retryAfterSeconds := UntilSeconds(Unix(resp.retryAfter), now);
      Response(StatusTooManyRequests, DeniedHeaders(resp.limit, Unix(resp.retryAfter), retryAfterSeconds),
               Json(RateLimitErrorResponse(LimitExceeded, LimitExceededMessage, resp.limit, 0, retryAfterSeconds)),
               false)
    else
      Response(StatusOK, AllowedHeaders(resp), NoBody, true)
  }

  /**
   * A client reading the headers of a response that was let through gets
   * back the engine's Limit, RequestsLeft and reset time.
   */
  lemma AllowedHeadersReadBack(resp: RateLimiterResponse, now: int)
    requires resp.allowed
    ensures var w := Respond(resp, None, now);
      && ParseDecimal(w.header["X-RateLimit-Limit"]) == Some(resp.limit)
      && ParseDecimal(w.header["X-RateLimit-Remaining"]) == Some(resp.requestsLeft)
      && ParseDecimal(w.header["X-RateLimit-Reset"]) == Some(Unix(resp.resetTime))
  {
    ItoaRoundTrip(resp.limit);
    ItoaRoundTrip(resp.requestsLeft);
    ItoaRoundTrip(Unix(resp.resetTime));
  }

  /**
   * On a refusal the headers read back as the limit, nothing remaining,
   * the time of RetryAfter, and the seconds until then, the same number
   * the body carries as reset_after.
   */
  lemma DeniedHeadersReadBack(resp: RateLimiterResponse, now: int)
    requires !resp.allowed
    ensures var w := Respond(resp, None, now);
      && ParseDecimal(w.header["X-RateLimit-Limit"]) == Some(resp.limit)
      && ParseDecimal(w.header["X-RateLimit-Remaining"]) == Some(0)
      && ParseDecimal(w.header["X-RateLimit-Reset"]) == Some(Unix(resp.retryAfter))
      && ParseDecimal(w.header["Retry-After"]) == Some(w.body.payload.resetAfter)
  {
    ItoaRoundTrip(resp.limit);
    ItoaRoundTrip(0);
    ItoaRoundTrip(Unix(resp.retryAfter));
    ItoaRoundTrip(UntilSeconds(Unix(resp.retryAfter), now));
  }

  /** Requests carrying the same non-empty token share one key, whatever their addresses. */
  lemma TokenOverridesAddress(r: Request, r': Request)
    requires GetToken(r) != "" && GetToken(r) == GetToken(r')
    ensures KeyFor(r) == KeyFor(r') && KeyFor(r).keyType == Token
  {
  }

  /** Without a token, connections from one host share one key whatever their ports. */
  lemma AddressKeyIgnoresPort(host: string, port: string, port': string, header: map<string, string>)
    requires HeaderAPIKey !in header
    requires Bracketless(host) && Bracketless(port) && Bracketless(port') && ':' !in port && ':' !in port'
    ensures KeyFor(Request(JoinHostPort(host, port), header)) == RateLimitKey(host, API)
    ensures KeyFor(Request(JoinHostPort(host, port), header)) == KeyFor(Request(JoinHostPort(host, port'), header))
  {
    HostOfJoin(host, port);
    HostOfJoin(host, port');
  }

  /**
   * The scenario of the middleware's header test: a token request counted
   * third of ten passes on with "10" and "7".
   */
  lemma ThirdTokenRequestHeaders(now: int)
    ensures var rk := RateLimitKey("test-key", Token);
      var o := Decide(TestOptions, rk, now, Replies(BlockedReply(false, 0, None), IncrReply(3, 60, None)));
      var w := Respond(o.response, o.err, now);
      w.status == StatusOK && w.nextCalled &&
      w.header["X-RateLimit-Limit"] == "10" && w.header["X-RateLimit-Remaining"] == "7" &&
      w.header["X-RateLimit-Reset"] == Itoa(now + 60)
  {
    assert Itoa(10) == "10" && Itoa(7) == "7";
  }

  /**
   * The scenario of the middleware's refusal tests: the eleventh token
   * request is refused with 429, "10" and "0", the reset time and
   * Retry-After of the block just written, and the next handler does not run.
   */
  lemma EleventhTokenRequestRefused(now: int)
    ensures var rk := RateLimitKey("test-key", Token);
      var o := Decide(TestOptions, rk, now, Replies(BlockedReply(false, 0, None), IncrReply(11, 60, None)));
      var w := Respond(o.response, o.err, now);
      w.status == StatusTooManyRequests && !w.nextCalled &&
      w.header["X-RateLimit-Limit"] == "10" && w.header["X-RateLimit-Remaining"] == "0" &&
      w.header["X-RateLimit-Reset"] == Itoa(now + 300) && w.header["Retry-After"] == "300"
  {
    assert Itoa(10) == "10" && Itoa(300) == "300";
  }

  class RateLimiterMiddleware {
    const limiter: RateLimiter

    constructor (limiter: RateLimiter)
      ensures this.limiter == limiter
    {
      this.limiter := limiter;
    }

    /** Handles one request at clock reading `now`. */
    method Handler(r: Request, now: int, failing: set<Command>) returns (w: Response)
      modifies limiter.storage
      ensures var s := AllowStep(limiter.opts, KeyFor(r), now, old(limiter.storage.table), failing);
        limiter.storage.table == s.table && w == Respond(s.reply.response, s.reply.err, now)
    {
      var ip := GetIP(r);
      var token := GetToken(r);
      var rk := if token != "" then RateLimitKey(token, Token) else RateLimitKey(ip, API);
      var resp, err := limiter.Allow(rk, now, failing);
      w := Respond(resp, err, now);
    }
  }
}
