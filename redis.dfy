/**
 * The shared key-value store the adapter talks to, reduced to the
 * commands the rate limiter issues (INCR, EXPIRE, TTL, SET, DEL, GET)
 * over a table from key to value and remaining time-to-live. Durations
 * are whole seconds. A command whose round trip never reaches the
 * store is named in the `failing` set and changes nothing.
 */
module Redis {
  import opened Base

  /** The largest value INCR can produce: Redis counters are signed 64-bit. */
  const MaxInt64: int := 0x7fff_ffff_ffff_ffff

  /**
   * A stored value: an integer counter, or a string. A string is never
   * read as a number here, even one made of digits.
   */
  datatype Value = Int(n: int) | Text(s: string)

  /** Whether a key expires, and after how many more seconds. */
  datatype Expiry = Persistent | ExpiresIn(seconds: int)

  datatype Entry = Entry(value: Value, expiry: Expiry)

  type Table = map<string, Entry>

  /**
   * Errors a command reports: Nil is go-redis' "key does not exist"
   * reply, ConnectionError a failed round trip.
   */
  datatype Error = Nil | ConnectionError | NotAnInteger | Overflow

  datatype Reply<+T> = Ok(value: T) | Err(error: Error)

  /** What a command leaves in the store, and what it answers. */
  datatype Step<+R> = Step(table: Table, reply: R)

  /** A round trip, identified by its command and the key it addresses. */
  datatype Command = IncrCmd(key: string) | ExpireCmd(key: string) | TtlCmd(key: string)
                   | SetCmd(key: string) | DelCmd(key: string) | GetCmd(key: string)
                   | ExistsCmd(key: string)

  /** The TTL command's answer: no such key, a key without expiry, or the seconds left. */
  datatype TtlReply = NoSuchKey | NoExpiry | Remaining(seconds: int)

  /** Every expiring entry has time left; expired entries are gone. */
  ghost predicate Valid(t: Table) {
    forall k :: k in t && t[k].expiry.ExpiresIn? ==> t[k].expiry.seconds > 0
  }

  /** The counter a key holds, 0 for an absent key, as INCR reads it. */
  function CounterOf(t: Table, key: string): Option<int> {
    if key !in t then Some(0)
    else match t[key].value
      case Int(n) => Some(n)
      case Text(_) => None
  }

  /** INCR: adds one to the counter, creating it at 1 without expiry; the TTL is kept. */
  function Incr(t: Table, key: string, failing: set<Command>): (s: Step<Reply<int>>)
    ensures Valid(t) ==> Valid(s.table)
    ensures s.reply.Err? ==> s.table == t
    ensures s.reply.Ok? <==> IncrCmd(key) !in failing && CounterOf(t, key).Some? && CounterOf(t, key).value < MaxInt64
    ensures s.reply.Ok? ==>
      && CounterOf(t, key).Some?
      && s.reply.value == CounterOf(t, key).value + 1
      && s.table == t[key := Entry(Int(s.reply.value), if key in t then t[key].expiry else Persistent)]
  {
    if IncrCmd(key) in failing then Step(t, Err(ConnectionError))
    else if key !in t then Step(t[key := Entry(Int(1), Persistent)], Ok(1))
    else match t[key].value
      case Text(_) => Step(t, Err(NotAnInteger))
      case Int(n) =>
        if n >= MaxInt64 then Step(t, Err(Overflow))
        else Step(t[key := t[key].(value := Int(n + 1))], Ok(n + 1))
  }

  /**
   * EXPIRE: gives an existing key `seconds` to live and answers true; a
   * non-positive timeout deletes it; an absent key is left alone (false).
   */
  function Expire(t: Table, key: string, seconds: int, failing: set<Command>): (s: Step<Reply<bool>>)
    ensures Valid(t) ==> Valid(s.table)
    ensures s.reply.Err? <==> ExpireCmd(key) in failing
    ensures s.reply.Err? || key !in t ==> s.table == t
    ensures s.reply.Ok? ==> s.reply.value == (key in t)
    ensures s.reply.Ok? && key in t && seconds > 0 ==>
      s.table == t[key := Entry(t[key].value, ExpiresIn(seconds))]
    ensures s.reply.Ok? && seconds <= 0 ==> key !in s.table && s.table == t - {key}
  {
    if ExpireCmd(key) in failing then Step(t, Err(ConnectionError))
    else if key !in t then Step(t, Ok(false))
    else if seconds <= 0 then Step(t - {key}, Ok(true))
    else Step(t[key := t[key].(expiry := ExpiresIn(seconds))], Ok(true))
  }

  /** TTL: reads a key's remaining lifetime; changes nothing. */
  function Ttl(t: Table, key: string, failing: set<Command>): (r: Reply<TtlReply>)
    ensures r.Err? <==> TtlCmd(key) in failing
    ensures r.Ok? ==> (r.value == NoSuchKey <==> key !in t)
    ensures r.Ok? && key in t ==>
      (r.value == NoExpiry <==> t[key].expiry == Persistent) &&
      (r.value.Remaining? ==> t[key].expiry == ExpiresIn(r.value.seconds))
  {
    if TtlCmd(key) in failing then Err(ConnectionError)
    else if key !in t then Ok(NoSuchKey)
    else match t[key].expiry
      case Persistent => Ok(NoExpiry)
      case ExpiresIn(d) => Ok(Remaining(d))
  }

  /**
   * SET with an expiration as go-redis sends it for a whole-second
   * duration: a positive expiration becomes the key's TTL, anything else
   * stores the key without expiry. Overwrites any value and its TTL.
   */
  function Set(t: Table, key: string, v: Value, expiration: int, failing: set<Command>): (s: Step<Reply<()>>)
    ensures Valid(t) ==> Valid(s.table)
    ensures s.reply.Err? <==> SetCmd(key) in failing
    ensures s.reply.Err? ==> s.table == t
    ensures s.reply.Ok? ==> key in s.table && s.table[key].value == v && s.table - {key} == t - {key}
    ensures s.reply.Ok? && expiration > 0 ==> s.table[key].expiry == ExpiresIn(expiration)
    ensures s.reply.Ok? && expiration <= 0 ==> s.table[key].expiry == Persistent
  {
    if SetCmd(key) in failing then Step(t, Err(ConnectionError))
    else
      var expiry := if expiration > 0 then ExpiresIn(expiration) else Persistent;
      Step(t[key := Entry(v, expiry)], Ok(()))
  }

  /** DEL: removes the key and answers how many keys were removed. */
  function Del(t: Table, key: string, failing: set<Command>): (s: Step<Reply<int>>)
    ensures Valid(t) ==> Valid(s.table)
    ensures s.reply.Err? <==> DelCmd(key) in failing
    ensures s.reply.Err? ==> s.table == t
    ensures s.reply.Ok? ==> s.table == t - {key} && s.reply.value == (if key in t then 1 else 0)
  {
    if DelCmd(key) in failing then Step(t, Err(ConnectionError))
    else Step(t - {key}, Ok(if key in t then 1 else 0))
  }

  /** GET: the stored value, or the Nil error for an absent key. */
  function Get(t: Table, key: string, failing: set<Command>): (r: Reply<Value>)
    ensures r.Ok? <==> GetCmd(key) !in failing && key in t
    ensures r.Ok? ==> r.value == t[key].value
    ensures GetCmd(key) !in failing && key !in t ==> r == Err(Nil)
  {
    if GetCmd(key) in failing then Err(ConnectionError)
    else if key !in t then Err(Nil)
    else Ok(t[key].value)
  }

  /** EXISTS: how many of the given keys (here one) are present; changes nothing. */
  function Exists(t: Table, key: string, failing: set<Command>): (r: Reply<int>)
    ensures r.Err? <==> ExistsCmd(key) in failing
    ensures r.Ok? ==> r.value == (if key in t then 1 else 0)
  {
    if ExistsCmd(key) in failing then Err(ConnectionError)
    else Ok(if key in t then 1 else 0)
  }

  /** go-redis' Val() of an integer reply: the value, or 0 when the command failed. */
  function IntVal(r: Reply<int>): int {
    if r.Ok? then r.value else 0
  }

  /**
   * The passage of `elapsed` seconds: every TTL shrinks by that much and
   * keys whose TTL runs out disappear. Persistent keys stay.
   */
  function Advance(t: Table, elapsed: nat): (t': Table)
    requires Valid(t)
    ensures Valid(t')
    ensures forall k :: k in t' <==> k in t && (t[k].expiry.ExpiresIn? ==> t[k].expiry.seconds > elapsed)
    ensures forall k :: k in t' ==> t'[k].value == t[k].value
  {
    map k | k in t && (t[k].expiry.ExpiresIn? ==> t[k].expiry.seconds > elapsed) ::
      match t[k].expiry
      case Persistent => t[k]
      case ExpiresIn(d) => Entry(t[k].value, ExpiresIn(d - elapsed))
  }
}
