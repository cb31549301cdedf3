/** redis/bond.go in its own form: one instance of the distributed lock provider, its map of entry
    objects and the Redis commands it issues. Each method takes the clock readings it makes and the
    fate of its Redis command as parameters; interleaving with other calls is the subject of
    BondProtocol, which uses the same table functions. */
module Bond {
  import opened Wrappers
  import opened TtlStore
  import opened RedisServer
  import opened BondTable

  datatype Mutex = Mutex(name: string, value: LockValue, expiry: Duration)

  // What happened to a command: it was answered, it never reached Redis, or only its answer was lost.
  datatype Fate = Answered | NeverArrived | AnswerLost

  datatype BondError = Infrastructure | LockNotFound | ExtendFailed

  class MutexEntry {
    var mutex: Mutex
    var expiresAt: Time

    constructor (mutex: Mutex, expiresAt: Time)
      ensures this.mutex == mutex && this.expiresAt == expiresAt
    {
      this.mutex := mutex;
      this.expiresAt := expiresAt;
    }
  }

  class BondManager {
    const redis: Redis<LockValue>
    var entries: map<string, MutexEntry>

    constructor (redis: Redis<LockValue>)
      ensures Valid() && this.redis == redis && Slots() == map[]
    {
      this.redis := redis;
      entries := map[];
    }

    // No entry object is stored under two keys, so writing to one changes one slot.
    ghost predicate Valid()
      reads this, entries.Values
    {
      && (forall key :: key in entries ==> entries[key].mutex.name == key)
      && (forall k, l :: k in entries && l in entries && entries[k] == entries[l] ==> k == l)
    }

    ghost function Slots(): Table<MutexEntry>
      reads this, entries.Values
    {
      map key | key in entries :: Slot(entries[key], entries[key].mutex.value, entries[key].expiresAt)
    }

    method ReapExpired(now: Time)
      requires Valid()
      modifies this`entries
      ensures Valid() && Slots() == Reap(old(Slots()), now)
      ensures entries.Values <= old(entries.Values)
    {
      var pending := entries.Keys;
      while pending != {}
        invariant pending <= old(entries.Keys)
        invariant forall key :: key in entries <==>
          key in old(entries) && (key in pending || !(old(entries)[key].expiresAt < now))
        invariant forall key :: key in entries ==> entries[key] == old(entries)[key]
        decreases |pending|
      {
        var key :| key in pending;
        if key in entries && entries[key].expiresAt < now {
          entries := entries - {key};
        }
        pending := pending - {key};
      }
    }

    // `value` is the random lock value redsync generates for this mutex.
    method AcquireLock(key: string, ttl: Duration, value: LockValue, reapAt: Time, sentAt: Time, fate: Fate, insertAt: Time)
      returns (r: Result<bool, BondError>)
      requires Valid()
      modifies this`entries, redis
      ensures Valid()
      ensures r == Success(true) <==> fate.Answered? && !Live(old(redis.store), sentAt, key)
      ensures r == Success(false) <==> fate.Answered? && Live(old(redis.store), sentAt, key)
      ensures r.Failure? ==> r.error == Infrastructure
      ensures redis.store == if fate.NeverArrived? then old(redis.store)
                             else TtlStore.SetNX(old(redis.store), sentAt, key, value, ttl)
      ensures r != Success(true) ==> Slots() == Reap(old(Slots()), reapAt)
      ensures r == Success(true) ==> key in entries && fresh(entries[key])
      ensures r == Success(true) ==>
        Slots() == Insert(Reap(old(Slots()), reapAt), key, entries[key], value, insertAt + ttl)
    {
      ReapExpired(reapAt);
      if fate.NeverArrived? {
        return Failure(Infrastructure);
      }
      var mutex := Mutex(key, value, ttl);
      var wrote := redis.SetNX(sentAt, mutex.name, mutex.value, mutex.expiry);
      if fate.AnswerLost? {
        return Failure(Infrastructure);
      }
      if !wrote {
        return Success(false);
      }
      InsertEntry(mutex, insertAt + ttl);
      return Success(true);
    }

    method InsertEntry(mutex: Mutex, expiresAt: Time)
      requires Valid()
      modifies this`entries
      ensures Valid() && mutex.name in entries && fresh(entries[mutex.name])
      ensures Slots() == Insert(old(Slots()), mutex.name, entries[mutex.name], mutex.value, expiresAt)
    {
      var entry := new MutexEntry(mutex, expiresAt);
      entries := entries[mutex.name := entry];
    }

    // `missIsError` says whether the lock library reports an unlock that found another value, or none,
    // as an error or merely as not done; ReleaseLock passes on the first and swallows the second.
    method ReleaseLock(key: string, sentAt: Time, fate: Fate, missIsError: bool) returns (r: Result<(), BondError>)
      requires Valid()
      modifies this`entries, redis
      ensures Valid() && Slots() == Claim(old(Slots()), key)
      ensures r.Failure? ==> r.error == Infrastructure
      ensures r.Success? <==>
        || key !in old(Slots())
        || (fate.Answered?
            && (missIsError ==> TtlStore.Get(old(redis.store), sentAt, key) == Some(old(Slots())[key].value)))
      ensures redis.store ==
        if key in old(Slots()) && !fate.NeverArrived?
        then TtlStore.DelIf(old(redis.store), sentAt, key, old(Slots())[key].value)
        else old(redis.store)
    {
      if key !in entries {
        return Success(());
      }
      var entry := entries[key];
      entries := entries - {key};
      if fate.NeverArrived? {
        return Failure(Infrastructure);
      }
      var matched := redis.DelIf(sentAt, key, entry.mutex.value);
      if fate.AnswerLost? || (!matched && missIsError) {
        return Failure(Infrastructure);
      }
      return Success(());
    }

    method ExtendLock(key: string, ttl: Duration, sentAt: Time, fate: Fate, confirmAt: Time)
      returns (r: Result<(), BondError>)
      requires Valid()
      modifies redis, entries.Values
      ensures Valid()
      ensures r == Failure(LockNotFound) <==> key !in old(Slots())
      ensures r.Failure? && key in old(Slots()) ==> r.error == ExtendFailed
      ensures r.Success? <==>
        key in old(Slots()) && fate.Answered? && TtlStore.Get(old(redis.store), sentAt, key) == Some(old(Slots())[key].value)
      ensures redis.store ==
        if key in old(Slots()) && !fate.NeverArrived?
        then TtlStore.ExpireIf(old(redis.store), sentAt, key, old(Slots())[key].value, ttl)
        else old(redis.store)
      ensures Slots() ==
        if r.Success? then Confirm(old(Slots()), key, old(entries)[key], old(Slots())[key].value, confirmAt + ttl)
        else old(Slots())
    {
      if key !in entries {
        return Failure(LockNotFound);
      }
      var entry := entries[key];
      var mutex := Mutex(key, entry.mutex.value, ttl);
      if fate.NeverArrived? {
        return Failure(ExtendFailed);
      }
      var matched := redis.ExpireIf(sentAt, mutex.name, mutex.value, mutex.expiry);
      if fate.AnswerLost? || !matched {
        return Failure(ExtendFailed);
      }
      if key in entries && entries[key] == entry {
        entry.mutex := mutex;
        entry.expiresAt := confirmAt + ttl;
      }
      return Success(());
    }
  }
}
