module RedisServer {
  import opened Wrappers
  import opened TtlStore

  /** One Redis server. The caller passes the clock reading at which the command takes effect. */
  class Redis<V(==)> {
    var store: Store<V>

    constructor ()
      ensures store == map[]
    {
      store := map[];
    }

    method SetNX(now: Time, key: string, value: V, ttl: Duration) returns (wrote: bool)
      modifies this
      ensures wrote == !Live(old(store), now, key)
      ensures store == TtlStore.SetNX(old(store), now, key, value, ttl)
    {
      wrote := !Live(store, now, key);
      if wrote {
        store := store[key := Cell(value, now + ttl)];
      }
    }

    method Get(now: Time, key: string) returns (value: Option<V>)
      ensures value == TtlStore.Get(store, now, key)
    {
      value := if key in store && now < store[key].expiry then Some(store[key].value) else None;
    }

    method Del(key: string)
      modifies this
      ensures store == TtlStore.Del(old(store), key)
    {
      store := store - {key};
    }

    method Expire(now: Time, key: string, ttl: Duration)
      modifies this
      ensures store == TtlStore.Expire(old(store), now, key, ttl)
    {
      if Live(store, now, key) {
        store := store[key := Cell(store[key].value, now + ttl)];
      }
    }

    method DelIf(now: Time, key: string, value: V) returns (matched: bool)
      modifies this
      ensures matched == (TtlStore.Get(old(store), now, key) == Some(value))
      ensures store == TtlStore.DelIf(old(store), now, key, value)
    {
      matched := Live(store, now, key) && store[key].value == value;
      if matched {
        store := store - {key};
      }
    }

    method ExpireIf(now: Time, key: string, value: V, ttl: Duration) returns (matched: bool)
      modifies this
      ensures matched == (TtlStore.Get(old(store), now, key) == Some(value))
      ensures store == TtlStore.ExpireIf(old(store), now, key, value, ttl)
    {
      matched := Live(store, now, key) && store[key].value == value;
      if matched {
        store := store[key := Cell(value, now + ttl)];
      }
    }
  }
}
