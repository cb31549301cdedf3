/** Any number of BondManager instances sharing one Redis, with any number of calls in flight.
    Every event is one atomic step: a block under an instance's `mu`, or one Redis command.
    An event whose call is not at that step is ignored, so every sequence of events is a run. */
module BondProtocol {
  import opened Wrappers
  import opened TtlStore
  import opened BondTable
  import opened Bond

  type Instance = nat
  type CallId = nat
  type EntryId = nat

  // Where a call stands: what it will do next, with what it read so far.
  datatype Phase =
    | Setting(ttl: Duration)
    | Inserting(value: LockValue, ttl: Duration)
    | Deleting(value: LockValue)
    | Touching(ref: EntryId, value: LockValue, ttl: Duration)
    | Confirming(ref: EntryId, value: LockValue, ttl: Duration)

  datatype Call = Call(instance: Instance, key: string, phase: Phase)

  // makers[v] is the instance that generated lock value v; entry objects are numbered from 0.
  datatype System = System(
    now: Time,
    redis: Store<LockValue>,
    tables: Tables,
    calls: map<CallId, Call>,
    makers: seq<Instance>,
    entryCount: nat)

  datatype Event =
    | Tick(d: nat)
    | StartAcquire(call: CallId, instance: Instance, key: string, ttl: Duration)
    | SendSetNX(call: CallId, fate: Fate)
    | InsertEntry(call: CallId)
    | StartRelease(call: CallId, instance: Instance, key: string)
    | SendDelete(call: CallId, fate: Fate)
    | StartExtend(call: CallId, instance: Instance, key: string, ttl: Duration)
    | SendTouch(call: CallId, fate: Fate)
    | ConfirmEntry(call: CallId)

  const INIT := System(0, map[], map[], map[], [], 0)

  type Tables = map<Instance, Table<EntryId>>

  // An instance not mentioned yet has an empty table.
  function TableOf(tables: Tables, i: Instance): Table<EntryId> {
    if i in tables then tables[i] else map[]
  }

  function At(s: System, c: CallId): Option<Phase> {
    if c in s.calls then Some(s.calls[c].phase) else None
  }

  function Finish(s: System, c: CallId): System {
    s.(calls := s.calls - {c})
  }

  function Goto(s: System, c: CallId, phase: Phase): System
    requires c in s.calls
  {
    s.(calls := s.calls[c := s.calls[c].(phase := phase)])
  }

  function Begin(s: System, c: CallId, call: Call): System {
    s.(calls := s.calls[c := call])
  }

  // AcquireLock up to its Redis command: reap the local table.
  function DoStartAcquire(s: System, c: CallId, i: Instance, key: string, ttl: Duration): System {
    Begin(s.(tables := s.tables[i := Reap(TableOf(s.tables, i), s.now)]), c, Call(i, key, Setting(ttl)))
  }

  // A lost answer leaves the value in Redis with nobody owning it; redsync then tries to undo it.
  function DoSendSetNX(s: System, c: CallId, ttl: Duration, fate: Fate): System
    requires c in s.calls
  {
    var value := |s.makers|;
    var key := s.calls[c].key;
    var s1 := s.(makers := s.makers + [s.calls[c].instance]);
    if fate.NeverArrived? || Live(s.redis, s.now, key) then Finish(s1, c)
    else
      var s2 := s1.(redis := SetNX(s.redis, s.now, key, value, ttl));
      Goto(s2, c, if fate.Answered? then Inserting(value, ttl) else Deleting(value))
  }

  function DoInsertEntry(s: System, c: CallId, value: LockValue, ttl: Duration): System
    requires c in s.calls
  {
    var i := s.calls[c].instance;
    var table := Insert(TableOf(s.tables, i), s.calls[c].key, s.entryCount, value, s.now + ttl);
    Finish(s.(tables := s.tables[i := table], entryCount := s.entryCount + 1), c)
  }

  function DoStartRelease(s: System, c: CallId, i: Instance, key: string): System {
    var table := TableOf(s.tables, i);
    if key !in table then s
    else Begin(s.(tables := s.tables[i := Claim(table, key)]), c, Call(i, key, Deleting(table[key].value)))
  }

  function DoSendDelete(s: System, c: CallId, value: LockValue, fate: Fate): System
    requires c in s.calls
  {
    if fate.NeverArrived? then Finish(s, c)
    else Finish(s.(redis := DelIf(s.redis, s.now, s.calls[c].key, value)), c)
  }

  function DoStartExtend(s: System, c: CallId, i: Instance, key: string, ttl: Duration): System {
    var table := TableOf(s.tables, i);
    if key !in table then s
    else Begin(s, c, Call(i, key, Touching(table[key].ref, table[key].value, ttl)))
  }

  function DoSendTouch(s: System, c: CallId, ref: EntryId, value: LockValue, ttl: Duration, fate: Fate): System
    requires c in s.calls
  {
    var key := s.calls[c].key;
    if fate.NeverArrived? || Get(s.redis, s.now, key) != Some(value) then Finish(s, c)
    else
      var s1 := s.(redis := ExpireIf(s.redis, s.now, key, value, ttl));
      if fate.Answered? then Goto(s1, c, Confirming(ref, value, ttl)) else Finish(s1, c)
  }

  function DoConfirmEntry(s: System, c: CallId, ref: EntryId, value: LockValue, ttl: Duration): System
    requires c in s.calls
  {
    var i := s.calls[c].instance;
    var table := Confirm(TableOf(s.tables, i), s.calls[c].key, ref, value, s.now + ttl);
    Finish(s.(tables := s.tables[i := table]), c)
  }

  function Apply(s: System, e: Event): System {
    match e
    case Tick(d) => s.(now := s.now + d)
    case StartAcquire(c, i, key, ttl) => if c in s.calls then s else DoStartAcquire(s, c, i, key, ttl)
    case StartRelease(c, i, key) => if c in s.calls then s else DoStartRelease(s, c, i, key)
    case StartExtend(c, i, key, ttl) => if c in s.calls then s else DoStartExtend(s, c, i, key, ttl)
    case SendSetNX(c, fate) =>
      (match At(s, c)
       case Some(Setting(ttl)) => DoSendSetNX(s, c, ttl, fate)
       case _ => s)
    case InsertEntry(c) =>
      (match At(s, c)
       case Some(Inserting(value, ttl)) => DoInsertEntry(s, c, value, ttl)
       case _ => s)
    case SendDelete(c, fate) =>
      (match At(s, c)
       case Some(Deleting(value)) => DoSendDelete(s, c, value, fate)
       case _ => s)
    case SendTouch(c, fate) =>
      (match At(s, c)
       case Some(Touching(ref, value, ttl)) => DoSendTouch(s, c, ref, value, ttl, fate)
       case _ => s)
    case ConfirmEntry(c) =>
      (match At(s, c)
       case Some(Confirming(ref, value, ttl)) => DoConfirmEntry(s, c, ref, value, ttl)
       case _ => s)
  }

  function Exec(s: System, events: seq<Event>): System {
    if events == [] then s else Apply(Exec(s, events[..|events| - 1]), events[|events| - 1])
  }

  lemma {:induction false} ExecConcat(s: System, first: seq<Event>, second: seq<Event>)
    ensures Exec(s, first + second) == Exec(Exec(s, first), second)
  {
    if second == [] {
      assert first + second == first;
    } else {
      var n := |second| - 1;
      assert (first + second)[..|first + second| - 1] == first + second[..n];
      ExecConcat(s, first, second[..n]);
    }
  }

  // ---- What every run keeps ----

  ghost predicate MadeBy(makers: seq<Instance>, value: LockValue, i: Instance) {
    value < |makers| && makers[value] == i
  }

  // Every value an instance remembers, or carries in a call, is one it generated itself.
  ghost predicate Sound(s: System) {
    && (forall key :: key in s.redis ==> s.redis[key].value < |s.makers|)
    && (forall i, key :: key in TableOf(s.tables, i) ==>
          MadeBy(s.makers, TableOf(s.tables, i)[key].value, i) && TableOf(s.tables, i)[key].ref < s.entryCount)
    && (forall c :: c in s.calls && !s.calls[c].phase.Setting? ==>
          MadeBy(s.makers, s.calls[c].phase.value, s.calls[c].instance))
    && (forall c :: c in s.calls && Extending(s.calls[c]) ==> s.calls[c].phase.ref < s.entryCount)
  }

  // An entry object sits in at most one slot of one table and keeps one lock value for life.
  ghost predicate SlotsDistinct(tables: Tables) {
    forall i, j, k, l :: k in TableOf(tables, i) && l in TableOf(tables, j)
      && (TableOf(tables, i)[k].ref == TableOf(tables, j)[l].ref
          || TableOf(tables, i)[k].value == TableOf(tables, j)[l].value)
      ==> i == j && k == l
  }

  predicate Extending(call: Call) {
    call.phase.Touching? || call.phase.Confirming?
  }

  // An extend and the slot it read agree, wherever that slot is now.
  ghost predicate Targets(call: Call, i: Instance, key: string, slot: Slot<EntryId>) {
    Extending(call) ==>
      && (slot.ref == call.phase.ref <==> slot.value == call.phase.value)
      && (slot.ref == call.phase.ref ==> i == call.instance && key == call.key)
  }

  ghost predicate CallsTarget(tables: Tables, calls: map<CallId, Call>) {
    forall c, i, key :: c in calls && key in TableOf(tables, i) ==> Targets(calls[c], i, key, TableOf(tables, i)[key])
  }

  // A value still waiting to be inserted is known to the inserting call alone.
  ghost predicate InsertsUnpublished(tables: Tables, calls: map<CallId, Call>) {
    && (forall c, i, key :: c in calls && calls[c].phase.Inserting? && key in TableOf(tables, i) ==>
          TableOf(tables, i)[key].value != calls[c].phase.value)
    && (forall c, d :: c in calls && d in calls && c != d && calls[c].phase.Inserting? && !calls[d].phase.Setting? ==>
          calls[c].phase.value != calls[d].phase.value)
  }

  ghost predicate Inv(s: System) {
    && Sound(s)
    && SlotsDistinct(s.tables)
    && CallsTarget(s.tables, s.calls)
    && InsertsUnpublished(s.tables, s.calls)
  }

  // Every slot of `after` was already in `before`.
  ghost predicate Shrunk(before: Tables, after: Tables) {
    forall i, key :: key in TableOf(after, i) ==>
      key in TableOf(before, i) && TableOf(after, i)[key] == TableOf(before, i)[key]
  }

  // `after` differs from `before` in one slot at most.
  ghost predicate Wrote(before: Tables, after: Tables, i: Instance, key: string, slot: Slot<EntryId>) {
    && (key in TableOf(after, i) && TableOf(after, i)[key] == slot)
    && (forall j, k :: k in TableOf(after, j) && (j != i || k != key) ==>
          k in TableOf(before, j) && TableOf(after, j)[k] == TableOf(before, j)[k])
  }

  lemma ShrinkKeepsInv(s: System, tables: Tables)
    requires Inv(s) && Shrunk(s.tables, tables)
    ensures Inv(s.(tables := tables))
  {
  }

  ghost predicate UnlikeOthers(tables: Tables, i: Instance, key: string, slot: Slot<EntryId>) {
    forall j, k :: k in TableOf(tables, j) && (j != i || k != key) ==>
      TableOf(tables, j)[k].ref != slot.ref && TableOf(tables, j)[k].value != slot.value
  }

  ghost predicate KnownToCalls(calls: map<CallId, Call>, i: Instance, key: string, slot: Slot<EntryId>) {
    forall c :: c in calls ==>
      Targets(calls[c], i, key, slot) && (calls[c].phase.Inserting? ==> calls[c].phase.value != slot.value)
  }

  // Writing a slot that no other slot and no call contradicts.
  lemma WriteKeepsInv(s: System, tables: Tables, i: Instance, key: string, slot: Slot<EntryId>)
    requires Inv(s) && Wrote(s.tables, tables, i, key, slot)
    requires MadeBy(s.makers, slot.value, i) && slot.ref < s.entryCount
    requires UnlikeOthers(s.tables, i, key, slot) && KnownToCalls(s.calls, i, key, slot)
    ensures Inv(s.(tables := tables))
  {
  }

  lemma FinishKeepsInv(s: System, c: CallId)
    requires Inv(s)
    ensures Inv(Finish(s, c))
  {
  }

  // A call may start, or move on, with a value its own instance made and nobody is about to insert.
  lemma BeginKeepsInv(s: System, c: CallId, call: Call)
    requires Inv(s)
    requires !call.phase.Inserting?
    requires !call.phase.Setting? ==> MadeBy(s.makers, call.phase.value, call.instance)
    requires !call.phase.Setting? ==> forall d :: d in s.calls && d != c && s.calls[d].phase.Inserting? ==>
      s.calls[d].phase.value != call.phase.value
    requires Extending(call) ==> call.phase.ref < s.entryCount
    requires forall i, key :: key in TableOf(s.tables, i) ==> Targets(call, i, key, TableOf(s.tables, i)[key])
    ensures Inv(Begin(s, c, call))
  {
  }

  lemma StartAcquireKeepsInv(s: System, c: CallId, i: Instance, key: string, ttl: Duration)
    requires Inv(s) && c !in s.calls
    ensures Inv(DoStartAcquire(s, c, i, key, ttl))
  {
    var tables := s.tables[i := Reap(TableOf(s.tables, i), s.now)];
    assert TableOf(tables, i) == Reap(TableOf(s.tables, i), s.now);
    ShrinkKeepsInv(s, tables);
    BeginKeepsInv(s.(tables := tables), c, Call(i, key, Setting(ttl)));
  }

  lemma StartReleaseKeepsInv(s: System, c: CallId, i: Instance, key: string)
    requires Inv(s) && c !in s.calls
    ensures Inv(DoStartRelease(s, c, i, key))
  {
    var table := TableOf(s.tables, i);
    if key in table {
      var tables := s.tables[i := Claim(table, key)];
      assert Shrunk(s.tables, tables);
      ShrinkKeepsInv(s, tables);
      BeginKeepsInv(s.(tables := tables), c, Call(i, key, Deleting(table[key].value)));
    }
  }

  lemma StartExtendKeepsInv(s: System, c: CallId, i: Instance, key: string, ttl: Duration)
    requires Inv(s) && c !in s.calls
    ensures Inv(DoStartExtend(s, c, i, key, ttl))
  {
    var table := TableOf(s.tables, i);
    if key in table {
      BeginKeepsInv(s, c, Call(i, key, Touching(table[key].ref, table[key].value, ttl)));
    }
  }

  lemma SendSetNXKeepsInv(s: System, c: CallId, ttl: Duration, fate: Fate)
    requires Inv(s) && At(s, c) == Some(Setting(ttl))
    ensures Inv(DoSendSetNX(s, c, ttl, fate))
  {
  }

  lemma PutWrites(tables: Tables, i: Instance, key: string, slot: Slot<EntryId>)
    ensures Wrote(tables, tables[i := TableOf(tables, i)[key := slot]], i, key, slot)
  {
  }

  lemma InsertEntryKeepsInv(s: System, c: CallId, value: LockValue, ttl: Duration)
    requires Inv(s) && At(s, c) == Some(Inserting(value, ttl))
    ensures Inv(DoInsertEntry(s, c, value, ttl))
  {
    var i, key := s.calls[c].instance, s.calls[c].key;
    var slot := Slot(s.entryCount, value, s.now + ttl);
    var s1 := Finish(s, c).(entryCount := s.entryCount + 1);
    var tables := s.tables[i := TableOf(s.tables, i)[key := slot]];
    assert DoInsertEntry(s, c, value, ttl) == s1.(tables := tables);
    assert Inv(s1.(tables := tables)) by {
      assert UnlikeOthers(s.tables, i, key, slot);
      assert Inv(s1) by { FinishKeepsInv(s, c); }
      assert KnownToCalls(s1.calls, i, key, slot);
      PutWrites(s.tables, i, key, slot);
      WriteKeepsInv(s1, tables, i, key, slot);
    }
  }

  lemma SendTouchKeepsInv(s: System, c: CallId, ref: EntryId, value: LockValue, ttl: Duration, fate: Fate)
    requires Inv(s) && At(s, c) == Some(Touching(ref, value, ttl))
    ensures Inv(DoSendTouch(s, c, ref, value, ttl, fate))
  {
  }

  lemma ConfirmEntryKeepsInv(s: System, c: CallId, ref: EntryId, value: LockValue, ttl: Duration)
    requires Inv(s) && At(s, c) == Some(Confirming(ref, value, ttl))
    ensures Inv(DoConfirmEntry(s, c, ref, value, ttl))
  {
    var i, key := s.calls[c].instance, s.calls[c].key;
    var tables := s.tables[i := Confirm(TableOf(s.tables, i), key, ref, value, s.now + ttl)];
    assert DoConfirmEntry(s, c, ref, value, ttl) == Finish(s.(tables := tables), c);
    assert Inv(s.(tables := tables)) by {
      if key in TableOf(s.tables, i) && TableOf(s.tables, i)[key].ref == ref {
        RewriteKeepsInv(s, c, Slot(ref, value, s.now + ttl));
      } else {
        assert Shrunk(s.tables, tables);
        ShrinkKeepsInv(s, tables);
      }
    }
    FinishKeepsInv(s.(tables := tables), c);
  }

  // Writing a new expiry into the slot an extend still finds in its table.
  lemma RewriteKeepsInv(s: System, c: CallId, slot: Slot<EntryId>)
    requires Inv(s) && c in s.calls && s.calls[c].phase.Confirming?
    requires slot.ref == s.calls[c].phase.ref && slot.value == s.calls[c].phase.value
    requires s.calls[c].key in TableOf(s.tables, s.calls[c].instance)
    requires TableOf(s.tables, s.calls[c].instance)[s.calls[c].key].ref == slot.ref
    ensures Inv(s.(tables := s.tables[s.calls[c].instance := TableOf(s.tables, s.calls[c].instance)[s.calls[c].key := slot]]))
  {
    var i, key := s.calls[c].instance, s.calls[c].key;
    var was := TableOf(s.tables, i)[key];
    assert was.value == slot.value by { assert Targets(s.calls[c], i, key, was); }
    assert UnlikeOthers(s.tables, i, key, slot);
    assert KnownToCalls(s.calls, i, key, slot) by {
      assert forall d :: d in s.calls ==> Targets(s.calls[d], i, key, was);
    }
    PutWrites(s.tables, i, key, slot);
    WriteKeepsInv(s, s.tables[i := TableOf(s.tables, i)[key := slot]], i, key, slot);
  }

  lemma ApplyKeepsInv(s: System, e: Event)
    requires Inv(s)
    ensures Inv(Apply(s, e))
  {
    match e
    case Tick(_) =>
    case StartAcquire(c, i, key, ttl) =>
      if c !in s.calls { StartAcquireKeepsInv(s, c, i, key, ttl); }
    case StartRelease(c, i, key) =>
      if c !in s.calls { StartReleaseKeepsInv(s, c, i, key); }
    case StartExtend(c, i, key, ttl) =>
      if c !in s.calls { StartExtendKeepsInv(s, c, i, key, ttl); }
    case SendSetNX(c, fate) =>
      if c in s.calls && s.calls[c].phase.Setting? { SendSetNXKeepsInv(s, c, s.calls[c].phase.ttl, fate); }
    case InsertEntry(c) =>
      if c in s.calls && s.calls[c].phase.Inserting? {
        InsertEntryKeepsInv(s, c, s.calls[c].phase.value, s.calls[c].phase.ttl);
      }
    case SendDelete(_, _) =>
    case SendTouch(c, fate) =>
      if c in s.calls && s.calls[c].phase.Touching? {
        var p := s.calls[c].phase;
        SendTouchKeepsInv(s, c, p.ref, p.value, p.ttl, fate);
      }
    case ConfirmEntry(c) =>
      if c in s.calls && s.calls[c].phase.Confirming? {
        var p := s.calls[c].phase;
        ConfirmEntryKeepsInv(s, c, p.ref, p.value, p.ttl);
      }
  }

  lemma {:induction false} ExecKeepsInv(s: System, events: seq<Event>)
    requires Inv(s)
    ensures Inv(Exec(s, events))
  {
    if events != [] {
      ExecKeepsInv(s, events[..|events| - 1]);
      ApplyKeepsInv(Exec(s, events[..|events| - 1]), events[|events| - 1]);
    }
  }
}
