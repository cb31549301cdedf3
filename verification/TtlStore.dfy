/** The part of Redis the repository relies on: string keys with an expiry, and the atomic
    commands SET NX, GET, DEL, EXPIRE and the two value-guarded scripts redsync runs.
    A cell whose expiry has come is as good as absent. */
module TtlStore {
  import opened Wrappers

  type Time = int
  type Duration = d: int | 0 < d witness 1

  datatype Cell<V> = Cell(value: V, expiry: Time)
  type Store<V> = map<string, Cell<V>>

  predicate Live<V>(store: Store<V>, now: Time, key: string) {
    key in store && now < store[key].expiry
  }

  function Get<V>(store: Store<V>, now: Time, key: string): Option<V> {
    if Live(store, now, key) then Some(store[key].value) else None
  }

  function SetNX<V>(store: Store<V>, now: Time, key: string, value: V, ttl: Duration): Store<V> {
    if Live(store, now, key) then store else store[key := Cell(value, now + ttl)]
  }

  function Del<V>(store: Store<V>, key: string): Store<V> {
    store - {key}
  }

  function Expire<V>(store: Store<V>, now: Time, key: string, ttl: Duration): Store<V> {
    if Live(store, now, key) then store[key := store[key].(expiry := now + ttl)] else store
  }

  // A key reads as written until its expiry and not from then on; a live key is not written.
  lemma SetNXReads<V>(store: Store<V>, now: Time, key: string, value: V, ttl: Duration, k: string, at: Time)
    requires now <= at
    ensures Live(store, now, key) ==> SetNX(store, now, key, value, ttl) == store
    ensures !Live(store, now, key) ==>
      Get(SetNX(store, now, key, value, ttl), at, k) ==
        if k != key then Get(store, at, k) else if at - now < ttl then Some(value) else None
  {
  }

  // A live key keeps its value for exactly ttl from now; one that is not live stays so.
  lemma ExpireReads<V>(store: Store<V>, now: Time, key: string, ttl: Duration, k: string, at: Time)
    requires now <= at
    ensures Get(Expire(store, now, key, ttl), at, k) ==
      if k != key then Get(store, at, k) else if at - now < ttl then Get(store, now, k) else None
  {
  }

  lemma DelReads<V>(store: Store<V>, key: string, k: string, at: Time)
    ensures Get(Del(store, key), at, k) == if k == key then None else Get(store, at, k)
  {
  }

  // redsync's unlock script: delete the key only while it holds this value.
  function DelIf<V(==)>(store: Store<V>, now: Time, key: string, value: V): Store<V> {
    if Get(store, now, key) == Some(value) then Del(store, key) else store
  }

  // redsync's extend script: renew the key only while it holds this value.
  function ExpireIf<V(==)>(store: Store<V>, now: Time, key: string, value: V, ttl: Duration): Store<V> {
    if Get(store, now, key) == Some(value) then Expire(store, now, key, ttl) else store
  }
}
