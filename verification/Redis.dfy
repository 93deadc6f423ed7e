/** The Redis commands the scripts use, over integer counters with an optional expiry. */
module Redis {
  import opened Wrappers

  datatype Entry = Entry(value: int, expireAt: Option<int>)

  type Db = map<string, Entry>

  /** An expiry instant is the first at which the key is gone. */
  predicate Live(db: Db, k: string, at: int) {
    k in db && (db[k].expireAt.Some? ==> at < db[k].expireAt.value)
  }

  /** GET with an absent counter read as zero. */
  function Get(db: Db, k: string, at: int): int {
    if Live(db, k, at) then db[k].value else 0
  }

  /** INCRBY keeps the expiry of a live key and creates an absent one without expiry. */
  function IncrBy(db: Db, k: string, n: int, at: int): Db {
    db[k := Entry(Get(db, k, at) + n, if Live(db, k, at) then db[k].expireAt else None)]
  }

  function Expire(db: Db, k: string, ttl: int, at: int): Db {
    if Live(db, k, at) then db[k := db[k].(expireAt := Some(at + ttl))] else db
  }
}
