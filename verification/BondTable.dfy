/** What one BondManager remembers: for each key, which entry object it holds, the lock value that
    entry's mutex carries and the local expiry. The four operations are the blocks of code that run
    under `mu`. They are generic in the identity of an entry: the class BondManager instantiates it
    with object references, the protocol model with numbers. */
module BondTable {
  import opened TtlStore

  // A redsync lock value; the generator never hands out the same one twice.
  type LockValue = nat

  datatype Slot<R> = Slot(ref: R, value: LockValue, expiresAt: Time)
  type Table<R> = map<string, Slot<R>>

  function Reap<R>(table: Table<R>, now: Time): Table<R> {
    map key | key in table && !(table[key].expiresAt < now) :: table[key]
  }

  function Insert<R>(table: Table<R>, key: string, ref: R, value: LockValue, expiresAt: Time): Table<R> {
    table[key := Slot(ref, value, expiresAt)]
  }

  function Claim<R>(table: Table<R>, key: string): Table<R> {
    table - {key}
  }

  function Confirm<R(==)>(table: Table<R>, key: string, ref: R, value: LockValue, expiresAt: Time): Table<R> {
    if key in table && table[key].ref == ref then table[key := Slot(ref, value, expiresAt)] else table
  }
}
