/** The expiring key-value store (Redis in backend/config/redis.js) as a finite
    map from key to value and expiry instant. Time is in milliseconds; a key is
    live while the clock is before its expiry. */
module Kv {
  import opened Wrappers

  datatype Entry = Entry(value: string, expiresAt: int)

  type Cache = map<string, Entry>

  const MsPerSecond: nat := 1000

  /** `GET key` at instant now: the value of a key that has not expired. */
  function Get(kv: Cache, key: string, now: int): (r: Option<string>)
    ensures r.Some? <==> key in kv && now < kv[key].expiresAt
    ensures r.Some? ==> r.value == kv[key].value
  {
    if key in kv && now < kv[key].expiresAt then Some(kv[key].value) else None
  }

  /** `SETEX key ttl value` at instant now. The key reads as the value until
      ttl seconds have passed and as absent from then on; no other key changes. */
  function SetEx(kv: Cache, key: string, ttlSeconds: nat, value: string, now: int): (r: Cache)
    ensures forall t :: Get(r, key, t) == (if t < now + ttlSeconds * MsPerSecond then Some(value) else None)
    ensures forall k, t | k != key :: Get(r, k, t) == Get(kv, k, t)
    ensures r.Keys == kv.Keys + {key}
  {
    kv[key := Entry(value, now + ttlSeconds * MsPerSecond)]
  }

  /** `DEL key`: the key reads as absent at every instant; no other key changes. */
  function Del(kv: Cache, key: string): (r: Cache)
    ensures forall t :: Get(r, key, t) == None
    ensures forall k, t | k != key :: Get(r, k, t) == Get(kv, k, t)
    ensures r.Keys == kv.Keys - {key}
  {
    kv - {key}
  }

  /** Writing a key twice: the second write wins. */
  lemma LastWriteWins(kv: Cache, key: string, ttl1: nat, v1: string, t1: int,
                      ttl2: nat, v2: string, t2: int)
    ensures SetEx(SetEx(kv, key, ttl1, v1, t1), key, ttl2, v2, t2) == SetEx(kv, key, ttl2, v2, t2)
  {
  }
}
