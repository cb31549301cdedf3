/** Mutual exclusion. A critical section opens when its SET NX takes effect, before AcquireLock even
    returns, and is named by the lock value it generated. The callers are disciplined: only the
    section's own caller releases or extends its lock, and it is out of the section before the lease
    Redis has for it is over: the ttl counted from its SET NX, or from its last extend to take effect.
    BondPromise carries this over to the deadline a caller can know. Everything else is left
    free: any number of instances and calls, lost commands and answers, stale entries, abandoned locks,
    an AcquireLock that comes back when its section is long closed. */
module BondExclusion {
  import opened Wrappers
  import opened TtlStore
  import opened BondTable
  import opened Bond
  import opened BondProtocol

  datatype Lease = Lease(instance: Instance, key: string, deadline: Time)

  type Leases = map<LockValue, Lease>

  datatype World = World(sys: System, open: Leases)

  datatype Move =
    | Happens(e: Event)
    | Releases(call: CallId, mine: LockValue)
    | Extends(call: CallId, mine: LockValue, ttl: Duration)
    | Leaves(mine: LockValue)

  const START := World(INIT, map[])

  predicate Allowed(w: World, m: Move) {
    match m
    case Happens(Tick(d)) => forall v :: v in w.open ==> w.sys.now + d < w.open[v].deadline
    case Happens(e) => !e.StartRelease? && !e.StartExtend?
    case Releases(c, mine) => c !in w.sys.calls && mine in w.open
    case Extends(c, mine, _) => c !in w.sys.calls && mine in w.open
    case Leaves(mine) => mine in w.open
  }

  // The call's SET NX will be answered and find the key free.
  predicate Opens(s: System, c: CallId, fate: Fate) {
    && c in s.calls && s.calls[c].phase.Setting?
    && fate.Answered? && !Live(s.redis, s.now, s.calls[c].key)
  }

  // The call's extend script will take effect on the lock of an open section.
  predicate Renews(w: World, c: CallId, fate: Fate) {
    && c in w.sys.calls && w.sys.calls[c].phase.Touching?
    && !fate.NeverArrived?
    && var call := w.sys.calls[c];
       && call.phase.value in w.open && w.open[call.phase.value].key == call.key
       && Get(w.sys.redis, w.sys.now, call.key) == Some(call.phase.value)
  }

  function LeasesAfter(w: World, e: Event): Leases {
    var s := w.sys;
    match e
    case SendSetNX(c, fate) =>
      if Opens(s, c, fate)
      then w.open[|s.makers| := Lease(s.calls[c].instance, s.calls[c].key, s.now + s.calls[c].phase.ttl)]
      else w.open
    case SendTouch(c, fate) =>
      if Renews(w, c, fate)
      then var v := s.calls[c].phase.value; w.open[v := w.open[v].(deadline := s.now + s.calls[c].phase.ttl)]
      else w.open
    case _ => w.open
  }

  function Next(w: World, m: Move): World {
    if !Allowed(w, m) then w else
    match m
    case Happens(e) => World(Apply(w.sys, e), LeasesAfter(w, e))
    case Releases(c, mine) =>
      World(Apply(w.sys, StartRelease(c, w.open[mine].instance, w.open[mine].key)), w.open - {mine})
    case Extends(c, mine, ttl) =>
      World(Apply(w.sys, StartExtend(c, w.open[mine].instance, w.open[mine].key, ttl)), w.open)
    case Leaves(mine) => World(w.sys, w.open - {mine})
  }

  function Play(moves: seq<Move>): World {
    if moves == [] then START else Next(Play(moves[..|moves| - 1]), moves[|moves| - 1])
  }

  // ---- The invariant ----

  // Redis holds exactly the lease of every open section.
  ghost predicate LeasesHeld(redis: Store<LockValue>, now: Time, made: nat, open: Leases) {
    forall v :: v in open ==>
      && v < made
      && open[v].key in redis
      && redis[open[v].key] == Cell(v, open[v].deadline)
      && now < open[v].deadline
  }

  // The value of an open section is only ever used where the section belongs.
  ghost predicate Belongs(open: Leases, v: LockValue, i: Instance, key: string) {
    v in open ==> open[v].instance == i && open[v].key == key
  }

  // No call is about to delete the lock of an open section.
  ghost predicate CallKnowsSections(call: Call, open: Leases) {
    && (call.phase.Inserting? || Extending(call) ==> Belongs(open, call.phase.value, call.instance, call.key))
    && (call.phase.Deleting? ==> call.phase.value !in open)
  }

  ghost predicate CallsKnowSections(calls: map<CallId, Call>, open: Leases) {
    forall c :: c in calls ==> CallKnowsSections(calls[c], open)
  }

  ghost predicate TablesKnowSections(tables: Tables, open: Leases) {
    forall i, key :: key in TableOf(tables, i) ==> Belongs(open, TableOf(tables, i)[key].value, i, key)
  }

  ghost predicate Guarded(w: World) {
    && LeasesHeld(w.sys.redis, w.sys.now, |w.sys.makers|, w.open)
    && CallsKnowSections(w.sys.calls, w.open)
    && TablesKnowSections(w.sys.tables, w.open)
  }

  lemma ShrinkKeepsKnown(before: Tables, after: Tables, open: Leases)
    requires TablesKnowSections(before, open) && Shrunk(before, after)
    ensures TablesKnowSections(after, open)
  {
  }

  lemma PutKeepsKnown(tables: Tables, i: Instance, key: string, slot: Slot<EntryId>, open: Leases)
    requires TablesKnowSections(tables, open) && Belongs(open, slot.value, i, key)
    ensures TablesKnowSections(tables[i := TableOf(tables, i)[key := slot]], open)
  {
    PutWrites(tables, i, key, slot);
  }

  lemma StartAcquireKeepsGuarded(w: World, c: CallId, i: Instance, key: string, ttl: Duration)
    requires Guarded(w) && c !in w.sys.calls
    ensures Guarded(Next(w, Happens(StartAcquire(c, i, key, ttl))))
  {
    var t := DoStartAcquire(w.sys, c, i, key, ttl);
    assert TableOf(t.tables, i) == Reap(TableOf(w.sys.tables, i), w.sys.now);
    ShrinkKeepsKnown(w.sys.tables, t.tables, w.open);
  }

  // A section opens with a value that nothing carries yet.
  lemma OpeningKeepsGuarded(w: World, c: CallId)
    requires Guarded(w) && Sound(w.sys) && Opens(w.sys, c, Answered)
    ensures Guarded(Next(w, Happens(SendSetNX(c, Answered))))
  {
    var s, t := w.sys, Next(w, Happens(SendSetNX(c, Answered)));
    var call := s.calls[c];
    assert t.open == w.open[|s.makers| := Lease(call.instance, call.key, s.now + call.phase.ttl)];
    assert t.sys.calls == s.calls[c := call.(phase := Inserting(|s.makers|, call.phase.ttl))];
    assert t.sys.redis == s.redis[call.key := Cell(|s.makers|, s.now + call.phase.ttl)];
    assert t.sys.tables == s.tables;
  }

  lemma SendSetNXKeepsGuarded(w: World, c: CallId, fate: Fate)
    requires Guarded(w) && Sound(w.sys)
    ensures Guarded(Next(w, Happens(SendSetNX(c, fate))))
  {
    if Opens(w.sys, c, fate) {
      OpeningKeepsGuarded(w, c);
    } else {
      var t := Next(w, Happens(SendSetNX(c, fate)));
      assert t.open == w.open && t.sys.tables == w.sys.tables;
    }
  }

  lemma InsertEntryKeepsGuarded(w: World, c: CallId)
    requires Guarded(w)
    ensures Guarded(Next(w, Happens(InsertEntry(c))))
  {
    if c in w.sys.calls && w.sys.calls[c].phase.Inserting? {
      var call := w.sys.calls[c];
      var slot := Slot(w.sys.entryCount, call.phase.value, w.sys.now + call.phase.ttl);
      PutKeepsKnown(w.sys.tables, call.instance, call.key, slot, w.open);
    }
  }

  lemma SendDeleteKeepsGuarded(w: World, c: CallId, fate: Fate)
    requires Guarded(w)
    ensures Guarded(Next(w, Happens(SendDelete(c, fate))))
  {
  }

  lemma SendTouchKeepsGuarded(w: World, c: CallId, fate: Fate)
    requires Guarded(w)
    ensures Guarded(Next(w, Happens(SendTouch(c, fate))))
  {
    var t := Next(w, Happens(SendTouch(c, fate)));
    assert LeasesHeld(t.sys.redis, t.sys.now, |t.sys.makers|, t.open) by {
      assert forall u, v :: u in w.open && v in w.open && u != v ==> w.open[u].key != w.open[v].key;
    }
  }

  lemma ConfirmEntryKeepsGuarded(w: World, c: CallId)
    requires Guarded(w) && CallsTarget(w.sys.tables, w.sys.calls)
    ensures Guarded(Next(w, Happens(ConfirmEntry(c))))
  {
    if c in w.sys.calls && w.sys.calls[c].phase.Confirming? {
      var call, tables := w.sys.calls[c], w.sys.tables;
      var slot := Slot(call.phase.ref, call.phase.value, w.sys.now + call.phase.ttl);
      if call.key in TableOf(tables, call.instance) && TableOf(tables, call.instance)[call.key].ref == call.phase.ref {
        assert Targets(call, call.instance, call.key, TableOf(tables, call.instance)[call.key]);
        PutKeepsKnown(tables, call.instance, call.key, slot, w.open);
      } else {
        ShrinkKeepsKnown(tables, Next(w, Happens(ConfirmEntry(c))).sys.tables, w.open);
      }
    }
  }

  lemma ReleasesKeepsGuarded(w: World, c: CallId, mine: LockValue)
    requires Guarded(w) && Allowed(w, Releases(c, mine))
    ensures Guarded(Next(w, Releases(c, mine)))
  {
    var t := Next(w, Releases(c, mine));
    ShrinkKeepsKnown(w.sys.tables, t.sys.tables, w.open);
  }

  lemma ExtendsKeepsGuarded(w: World, c: CallId, mine: LockValue, ttl: Duration)
    requires Guarded(w) && Allowed(w, Extends(c, mine, ttl))
    ensures Guarded(Next(w, Extends(c, mine, ttl)))
  {
  }

  lemma HappensKeepsGuarded(w: World, e: Event)
    requires Inv(w.sys) && Guarded(w) && Allowed(w, Happens(e))
    ensures Guarded(Next(w, Happens(e)))
  {
    match e
    case Tick(_) =>
    case StartAcquire(c, i, key, ttl) =>
      if c !in w.sys.calls { StartAcquireKeepsGuarded(w, c, i, key, ttl); }
    case SendSetNX(c, fate) => SendSetNXKeepsGuarded(w, c, fate);
    case InsertEntry(c) => InsertEntryKeepsGuarded(w, c);
    case SendDelete(c, fate) => SendDeleteKeepsGuarded(w, c, fate);
    case SendTouch(c, fate) => SendTouchKeepsGuarded(w, c, fate);
    case ConfirmEntry(c) => ConfirmEntryKeepsGuarded(w, c);
  }

  lemma NextKeepsGuarded(w: World, m: Move)
    requires Inv(w.sys) && Guarded(w)
    ensures Guarded(Next(w, m))
  {
    if Allowed(w, m) {
      match m
      case Happens(e) => HappensKeepsGuarded(w, e);
      case Releases(c, mine) => ReleasesKeepsGuarded(w, c, mine);
      case Extends(c, mine, ttl) => ExtendsKeepsGuarded(w, c, mine, ttl);
      case Leaves(_) =>
    }
  }

  lemma NextKeepsInv(w: World, m: Move)
    requires Inv(w.sys)
    ensures Inv(Next(w, m).sys)
  {
    if Allowed(w, m) {
      match m
      case Happens(e) => ApplyKeepsInv(w.sys, e);
      case Releases(c, mine) => ApplyKeepsInv(w.sys, StartRelease(c, w.open[mine].instance, w.open[mine].key));
      case Extends(c, mine, ttl) => ApplyKeepsInv(w.sys, StartExtend(c, w.open[mine].instance, w.open[mine].key, ttl));
      case Leaves(_) =>
    }
  }

  lemma {:induction false} PlayGuarded(moves: seq<Move>)
    ensures Inv(Play(moves).sys) && Guarded(Play(moves))
  {
    if moves != [] {
      var w := Play(moves[..|moves| - 1]);
      PlayGuarded(moves[..|moves| - 1]);
      NextKeepsInv(w, moves[|moves| - 1]);
      NextKeepsGuarded(w, moves[|moves| - 1]);
    }
  }

  /** At no point of any disciplined run are two critical sections open on one key, on the same
      instance or on different ones. */
  lemma MutualExclusion(moves: seq<Move>, u: LockValue, v: LockValue)
    requires var w := Play(moves); u in w.open && v in w.open && w.open[u].key == w.open[v].key
    ensures u == v
  {
    PlayGuarded(moves);
  }

  /** While a section is open Redis holds its lock exactly up to its deadline, so every other SET NX on
      the key is refused; and a table slot naming its value can only be the one of its own instance and
      key, so no release or extend on another key or instance reads it. */
  lemma OpenSectionHoldsItsLock(moves: seq<Move>, mine: LockValue)
    requires mine in Play(moves).open
    ensures var w := Play(moves); var lease := w.open[mine];
      && Live(w.sys.redis, w.sys.now, lease.key)
      && w.sys.redis[lease.key] == Cell(mine, lease.deadline)
      && (forall c, fate :: !Opens(w.sys, c, fate) || w.sys.calls[c].key != lease.key)
      && (forall i, key :: key in TableOf(w.sys.tables, i) && TableOf(w.sys.tables, i)[key].value == mine ==>
            i == lease.instance && key == lease.key)
  {
    PlayGuarded(moves);
  }

  // The section is open and its instance's table still has its entry.
  predicate Tracked(w: World, mine: LockValue) {
    && mine in w.open
    && var lease := w.open[mine];
       lease.key in TableOf(w.sys.tables, lease.instance) && TableOf(w.sys.tables, lease.instance)[lease.key].value == mine
  }

  lemma PlayTwo(moves: seq<Move>, m: Move, n: Move)
    ensures Play(moves + [m, n]) == Next(Next(Play(moves), m), n)
  {
    var two := moves + [m, n];
    assert two[..|two| - 1] == moves + [m];
    assert (moves + [m])[..|moves|] == moves;
  }

  lemma ReleaseStarts(w: World, c: CallId, mine: LockValue)
    requires mine in w.open && c !in w.sys.calls
    ensures var w1, lease := Next(w, Releases(c, mine)), w.open[mine];
      var table := TableOf(w.sys.tables, lease.instance);
      && w1.sys.redis == w.sys.redis && w1.sys.now == w.sys.now && w1.open == w.open - {mine}
      && w1.sys.calls == if lease.key in table
           then w.sys.calls[c := Call(lease.instance, lease.key, Deleting(table[lease.key].value))] else w.sys.calls
  {
  }

  // The delete that answers a release, whether or not a call is there to send it.
  lemma DeleteEnds(w: World, c: CallId)
    requires c in w.sys.calls ==> w.sys.calls[c].phase.Deleting?
    ensures var t := Next(w, Happens(SendDelete(c, Answered)));
      && t.open == w.open && t.sys.calls == w.sys.calls - {c}
      && t.sys.redis == if c in w.sys.calls
           then DelIf(w.sys.redis, w.sys.now, w.sys.calls[c].key, w.sys.calls[c].phase.value) else w.sys.redis
  {
    assert c !in w.sys.calls ==> w.sys.calls - {c} == w.sys.calls;
  }

  lemma ReleaseOutcome(w: World, c: CallId, mine: LockValue)
    requires Guarded(w) && mine in w.open && c !in w.sys.calls
    ensures var t := Next(Next(w, Releases(c, mine)), Happens(SendDelete(c, Answered)));
      && t.sys.redis == (if Tracked(w, mine) then w.sys.redis - {w.open[mine].key} else w.sys.redis)
      && t.open == w.open - {mine} && t.sys.calls == w.sys.calls
  {
    ReleaseStarts(w, c, mine);
    var w1, lease := Next(w, Releases(c, mine)), w.open[mine];
    DeleteEnds(w1, c);
    assert w1.sys.calls - {c} == w.sys.calls;
  }

  /** A release by the section's own caller, if its delete is the very next thing that happens and is
      answered, takes the key out of Redis exactly when the instance's table still has the section's entry;
      otherwise it leaves Redis as it was. BondRelease has what holds when other steps come in between. */
  lemma ReleaseFreesIffTracked(moves: seq<Move>, c: CallId, mine: LockValue)
    requires mine in Play(moves).open && c !in Play(moves).sys.calls
    ensures var w := Play(moves); var t := Play(moves + [Releases(c, mine), Happens(SendDelete(c, Answered))]);
      && (w.open[mine].key !in t.sys.redis <==> Tracked(w, mine))
      && t.sys.redis == (if Tracked(w, mine) then w.sys.redis - {w.open[mine].key} else w.sys.redis)
      && t.open == w.open - {mine} && t.sys.calls == w.sys.calls
  {
    PlayGuarded(moves);
    PlayTwo(moves, Releases(c, mine), Happens(SendDelete(c, Answered)));
    ReleaseOutcome(Play(moves), c, mine);
  }

  lemma RenewsAs(w: World, c: CallId, fate: Fate)
    requires Renews(w, c, fate)
    ensures var t, call := Next(w, Happens(SendTouch(c, fate))), w.sys.calls[c];
      var v, deadline := call.phase.value, w.sys.now + call.phase.ttl;
      && t.open == w.open[v := w.open[v].(deadline := deadline)]
      && t.sys.redis == w.sys.redis[call.key := Cell(v, deadline)]
  {
  }

  lemma TouchFindsItsLock(w: World, c: CallId, fate: Fate)
    requires Guarded(w) && c in w.sys.calls && w.sys.calls[c].phase.Touching? && !fate.NeverArrived?
    requires w.sys.calls[c].phase.value in w.open
    ensures Renews(w, c, fate) && w.sys.calls[c].key == w.open[w.sys.calls[c].phase.value].key
  {
    assert CallKnowsSections(w.sys.calls[c], w.open);
  }

  // The extend of an open section finds its lock and renews lock and section.
  ghost predicate RenewedBy(w: World, t: World, c: CallId)
    requires c in w.sys.calls && w.sys.calls[c].phase.Touching? && w.sys.calls[c].phase.value in w.open
  {
    var mine, deadline := w.sys.calls[c].phase.value, w.sys.now + w.sys.calls[c].phase.ttl;
    && t.open == w.open[mine := w.open[mine].(deadline := deadline)]
    && t.sys.redis == w.sys.redis[w.open[mine].key := Cell(mine, deadline)]
  }

  lemma TouchRenews(w: World, c: CallId, fate: Fate)
    requires Guarded(w) && c in w.sys.calls && w.sys.calls[c].phase.Touching? && !fate.NeverArrived?
    requires w.sys.calls[c].phase.value in w.open
    ensures RenewedBy(w, Next(w, Happens(SendTouch(c, fate))), c)
  {
    TouchFindsItsLock(w, c, fate);
    RenewsAs(w, c, fate);
  }

  /** Whenever an extend of an open section's value reaches Redis, it finds the lock there and renews lock
      and section together, to exactly its ttl from that moment. */
  lemma ExtendProlongsItsLock(moves: seq<Move>, c: CallId, fate: Fate)
    requires var w := Play(moves);
      c in w.sys.calls && w.sys.calls[c].phase.Touching? && w.sys.calls[c].phase.value in w.open && !fate.NeverArrived?
    ensures RenewedBy(Play(moves), Next(Play(moves), Happens(SendTouch(c, fate))), c)
  {
    PlayGuarded(moves);
    TouchRenews(Play(moves), c, fate);
  }
}
