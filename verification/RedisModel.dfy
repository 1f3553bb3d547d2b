/** The part of Redis that rate limiting uses: counters with an optional expiry.
    Times are milliseconds of one clock; TTL answers in rounded seconds. */
module RedisModel {
  import opened Collections

  type Seconds = n: int | 1 <= n witness 1

  /** `since` is when the counter was created, which names the window it counts. */
  datatype Entry = Entry(count: nat, since: int, expiry: Option<int>)

  type Db = map<string, Entry>

  predicate Live(e: Entry, now: int) {
    e.expiry.Some? ==> now < e.expiry.value
  }

  /** What a command sees under `key`: an expired counter is absent. */
  function Peek(db: Db, now: int, key: string): Option<Entry> {
    if key in db && Live(db[key], now) then Some(db[key]) else None
  }

  /** INCR: creates a counter without expiry, or adds one and keeps the expiry. */
  function Incr(db: Db, now: int, key: string): Db {
    match Peek(db, now, key)
    case None => db[key := Entry(1, now, None)]
    case Some(e) => db[key := e.(count := e.count + 1)]
  }

  /** EXPIRE: re-arms a live counter, and does nothing when there is none. */
  function Expire(db: Db, now: int, key: string, ttl: Seconds): Db {
    match Peek(db, now, key)
    case None => db
    case Some(e) => db[key := e.(expiry := Some(now + ttl * 1000))]
  }

  /** TTL: -2 without a counter, -1 without an expiry, otherwise rounded seconds. */
  function Ttl(db: Db, now: int, key: string): int {
    match Peek(db, now, key)
    case None => -2
    case Some(e) => if e.expiry.None? then -1 else (e.expiry.value - now + 500) / 1000
  }

  /** The Lua script: increment, and arm the expiry on the first hit of a window. */
  function IncrWithTtl(db: Db, now: int, key: string, ttl: Seconds): Db {
    var counted := Incr(db, now, key);
    if counted[key].count == 1 then Expire(counted, now, key, ttl) else counted
  }
}
