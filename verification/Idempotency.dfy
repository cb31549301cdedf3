/** redis/idempotency.go: Seen records a key and reports whether it was there already. */
module Idempotency {
  import opened TtlStore
  import opened RedisServer

  const PREFIX := "eywa:idempotency"

  function Key(key: string): string {
    PREFIX + ":" + key
  }

  lemma KeysDistinct(a: string, b: string)
    requires Key(a) == Key(b)
    ensures a == b
  {
    assert Key(a)[|PREFIX| + 1..] == a && Key(b)[|PREFIX| + 1..] == b;
  }

  class IdempotencyStore {
    const redis: Redis<int>

    constructor (redis: Redis<int>)
      ensures this.redis == redis
    {
      this.redis := redis;
    }

    method Seen(key: string, ttl: Duration, now: Time) returns (duplicate: bool)
      modifies redis
      ensures duplicate == Duplicate(State(now, old(redis.store)), key)
      ensures forall k :: k != "eywa:idempotency:" + key ==>
        (k in redis.store <==> k in old(redis.store)) && (k in redis.store ==> redis.store[k] == old(redis.store)[k])
      ensures redis.store == Apply(State(now, old(redis.store)), Ask(key, ttl)).store
    {
      var wrote := redis.SetNX(now, Key(key), 1, ttl);
      duplicate := !wrote;
    }
  }

  datatype State = State(now: Time, store: Store<int>)

  datatype Event = Tick(d: nat) | Ask(key: string, ttl: Duration)

  predicate Duplicate(s: State, key: string) {
    Live(s.store, s.now, Key(key))
  }

  function Apply(s: State, e: Event): State {
    match e
    case Tick(d) => s.(now := s.now + d)
    case Ask(key, ttl) => s.(store := SetNX(s.store, s.now, Key(key), 1, ttl))
  }

  function Exec(events: seq<Event>): State {
    if events == [] then State(0, map[]) else Apply(Exec(events[..|events| - 1]), events[|events| - 1])
  }

  // The call at position n recorded its key first.
  predicate First(events: seq<Event>, n: nat) {
    n < |events| && events[n].Ask? && !Duplicate(Exec(events[..n]), events[n].key)
  }

  // Until the recorded ttl is over nothing touches the key.
  lemma {:induction false} RecordLasts(events: seq<Event>, n: nat, k: nat)
    requires First(events, n) && n < k <= |events|
    requires Exec(events[..k]).now < Exec(events[..n]).now + events[n].ttl
    ensures var s := Exec(events[..k]); var key := Key(events[n].key);
      key in s.store && s.store[key].expiry == Exec(events[..n]).now + events[n].ttl
    decreases k - n
  {
    assert events[..k][..k - 1] == events[..k - 1] && events[..k][k - 1] == events[k - 1];
    if k > n + 1 {
      RecordLasts(events, n, k - 1);
    }
  }

  /** A key is processed at most once per ttl window: two calls on one key that both answer "not a
      duplicate" are at least the first one's ttl apart, however calls and time interleave. */
  lemma FirstsAreATtlApart(events: seq<Event>, n: nat, k: nat)
    requires First(events, n) && First(events, k) && n < k && events[n].key == events[k].key
    ensures Exec(events[..k]).now - Exec(events[..n]).now >= events[n].ttl
  {
    if Exec(events[..k]).now < Exec(events[..n]).now + events[n].ttl {
      RecordLasts(events, n, k);
    }
  }

  // The call at position m recorded this key first, and at position n its ttl is not over.
  predicate Covers(events: seq<Event>, m: nat, n: nat, key: string) {
    && m < n <= |events|
    && First(events, m) && events[m].key == key
    && Exec(events[..n]).now - Exec(events[..m]).now < events[m].ttl
  }

  // One more step keeps a record covered, or makes it.
  lemma CoverStep(events: seq<Event>, n: nat, key: string) returns (m: nat)
    requires n < |events| && Duplicate(Exec(events[..n + 1]), key)
    requires Duplicate(Exec(events[..n]), key) ==> exists m: nat :: Covers(events, m, n, key)
    ensures Covers(events, m, n + 1, key)
  {
    var e, s := events[n], Exec(events[..n]);
    assert events[..n + 1][..n] == events[..n];
    if e.Ask? && Key(e.key) == Key(key) { KeysDistinct(e.key, key); }
    if Duplicate(s, key) {
      m :| Covers(events, m, n, key);
      RecordLasts(events, m, n);
    } else {
      m := n;
    }
  }

  lemma {:induction false} DuplicateIsCovered(events: seq<Event>, n: nat, key: string) returns (m: nat)
    requires n <= |events| && Duplicate(Exec(events[..n]), key)
    ensures Covers(events, m, n, key)
    decreases n
  {
    assert n > 0;
    if Duplicate(Exec(events[..n - 1]), key) {
      var before := DuplicateIsCovered(events, n - 1, key);
    }
    m := CoverStep(events, n - 1, key);
  }

  /** Exactly so: at any point of a run a key counts as seen if and only if a call that recorded it first
      lies less than its ttl back. */
  lemma SeenIff(events: seq<Event>, n: nat, key: string)
    requires n <= |events|
    ensures Duplicate(Exec(events[..n]), key) <==> exists m: nat :: Covers(events, m, n, key)
  {
    if Duplicate(Exec(events[..n]), key) {
      var m := DuplicateIsCovered(events, n, key);
    }
    if m: nat :| Covers(events, m, n, key) {
      RecordLasts(events, m, n);
    }
  }

  /** A key that was free is seen for exactly the ttl it was recorded with. */
  lemma RecordExpires(events: seq<Event>, key: string, ttl: Duration, d: nat)
    requires !Duplicate(Exec(events), key)
    ensures Duplicate(Exec(events + [Ask(key, ttl), Tick(d)]), key) <==> d < ttl
  {
    var two := events + [Ask(key, ttl), Tick(d)];
    assert two[..|two| - 1] == events + [Ask(key, ttl)];
    assert (events + [Ask(key, ttl)])[..|events|] == events;
  }
}
