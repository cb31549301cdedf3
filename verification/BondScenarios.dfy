/** Runs that show what each assumption of the other modules is there for. */
module BondScenarios {
  import opened Wrappers
  import opened TtlStore
  import opened BondTable
  import opened Bond
  import opened BondProtocol
  import opened BondExclusion
  import opened BondExpiry
  import opened BondPromise

  // The bookkeeping of BondExclusion with nobody keeping to any discipline.
  function After(w: World, e: Event): World {
    World(Apply(w.sys, e), LeasesAfter(w, e))
  }

  function Watch(events: seq<Event>): World {
    if events == [] then START else After(Watch(events[..|events| - 1]), events[|events| - 1])
  }

  // Watching runs the protocol itself.
  lemma {:induction false} WatchRuns(events: seq<Event>)
    ensures Watch(events).sys == Exec(INIT, events)
  {
    if events != [] { WatchRuns(events[..|events| - 1]); }
  }

  ghost predicate Seen(w: World) {
    exists events :: Watch(events) == w
  }

  lemma Then(w: World, e: Event, t: World)
    requires Seen(w) && After(w, e) == t
    ensures Seen(t)
  {
    var events :| Watch(events) == w;
    assert (events + [e])[..|events|] == events;
    assert Watch(events + [e]) == t;
  }

  lemma Start()
    ensures Seen(START)
  {
    assert Watch([]) == START;
  }

  lemma Reached(w: World)
    requires Seen(w)
    ensures exists events :: Exec(INIT, events) == w.sys
  {
    var events :| Watch(events) == w;
    WatchRuns(events);
  }

  lemma DropOnly<K, V>(k: K, v: V)
    ensures map[k := v] - {k} == map[]
  {
  }

  // Writing a new expiry into the only entry of the only table.
  lemma RewriteOnly(key: string, was: Slot<EntryId>, expiresAt: Time)
    ensures var tables: Tables := map[0 := map[key := was]];
      tables[0 := Confirm(TableOf(tables, 0), key, was.ref, was.value, expiresAt)] ==
        map[0 := map[key := Slot(was.ref, was.value, expiresAt)]]
  {
    assert map[key := was][key := Slot(was.ref, was.value, expiresAt)] == map[key := Slot(was.ref, was.value, expiresAt)];
  }

  // ---- One section inside ----

  // The first acquire has set the key.
  function OneInserting(key: string, ttl: Duration): World {
    World(System(0, map[key := Cell(0, ttl)], map[0 := map[]], map[0 := Call(0, key, Inserting(0, ttl))], [0], 0),
          map[0 := Lease(0, key, ttl)])
  }

  lemma FirstSectionOpens(key: string, ttl: Duration)
    ensures Seen(OneInserting(key, ttl))
  {
    Start();
    var w := World(System(0, map[], map[0 := map[]], map[0 := Call(0, key, Setting(ttl))], [], 0), map[]);
    assert Reap<EntryId>(map[], 0) == map[];
    Then(START, StartAcquire(0, 0, key, ttl), w);
    Then(w, SendSetNX(0, Answered), OneInserting(key, ttl));
  }

  // One caller of instance 0 is in its section.
  function OneInside(key: string, ttl: Duration): World {
    World(System(0, map[key := Cell(0, ttl)], map[0 := map[key := Slot(0, 0, ttl)]], map[], [0], 1),
          map[0 := Lease(0, key, ttl)])
  }

  lemma FirstSectionReturns(key: string, ttl: Duration)
    ensures Seen(OneInside(key, ttl))
  {
    FirstSectionOpens(key, ttl);
    DropOnly(0, OneInserting(key, ttl).sys.calls[0]);
    Then(OneInserting(key, ttl), InsertEntry(0), OneInside(key, ttl));
  }

  // ---- Leaving the discipline ----

  // The section is still open but its lock is gone.
  function LockLost(key: string, ttl: Duration): World {
    World(System(0, map[], map[0 := map[]], map[], [0], 1), map[0 := Lease(0, key, ttl)])
  }

  lemma ForeignReleaseLosesLock(key: string, ttl: Duration)
    ensures Seen(LockLost(key, ttl))
  {
    FirstSectionReturns(key, ttl);
    var w := OneInside(key, ttl);
    var w1 := World(System(0, w.sys.redis, map[0 := map[]], map[1 := Call(0, key, Deleting(0))], [0], 1), w.open);
    DropOnly(key, Slot(0, 0, ttl));
    Then(w, StartRelease(1, 0, key), w1);
    DropOnly(1, w1.sys.calls[1]);
    DropOnly(key, Cell(0, ttl));
    Then(w1, SendDelete(1, Answered), LockLost(key, ttl));
  }

  /** Ownership is per instance and key, not per caller: a ReleaseLock by a caller that never acquired
      the lock, on the instance that holds it, lets a second section open inside the first. */
  lemma ForeignReleaseBreaksExclusion(key: string, ttl: Duration)
    ensures exists events :: var w := Watch(events);
      w.sys.now < ttl && w.open == map[0 := Lease(0, key, ttl), 1 := Lease(1, key, ttl)]
  {
    ForeignReleaseLosesLock(key, ttl);
    var w := LockLost(key, ttl);
    var w1 := w.(sys := System(0, map[], map[0 := map[], 1 := map[]], map[2 := Call(1, key, Setting(ttl))], [0], 1));
    Then(w, StartAcquire(2, 1, key, ttl), w1);
    var w2 := After(w1, SendSetNX(2, Answered));
    Then(w1, SendSetNX(2, Answered), w2);
    var events :| Watch(events) == w2;
  }

  // The section is still open, its lock has just expired and another instance is about to try.
  function Overstaying(key: string, ttl: Duration): World {
    World(System(ttl, map[key := Cell(0, ttl)], map[0 := map[key := Slot(0, 0, ttl)], 1 := map[]],
                 map[1 := Call(1, key, Setting(ttl))], [0], 1),
          map[0 := Lease(0, key, ttl)])
  }

  lemma StaysTooLong(key: string, ttl: Duration)
    ensures Seen(Overstaying(key, ttl))
  {
    FirstSectionReturns(key, ttl);
    var w := OneInside(key, ttl);
    var w1 := w.(sys := w.sys.(now := ttl));
    Then(w, Tick(ttl), w1);
    assert Reap<EntryId>(map[], ttl) == map[];
    assert w1.sys.tables[1 := map[]] == map[0 := map[key := Slot(0, 0, ttl)], 1 := map[]];
    Then(w1, StartAcquire(1, 1, key, ttl), Overstaying(key, ttl));
  }

  /** So does a section that outlives its ttl: the next one opens the moment the lock expires. */
  lemma OverstayBreaksExclusion(key: string, ttl: Duration)
    ensures exists events :: var w := Watch(events);
      w.sys.now == ttl && w.open == map[0 := Lease(0, key, ttl), 1 := Lease(1, key, ttl + ttl)]
  {
    StaysTooLong(key, ttl);
    var w := After(Overstaying(key, ttl), SendSetNX(1, Answered));
    Then(Overstaying(key, ttl), SendSetNX(1, Answered), w);
    assert w.open == map[0 := Lease(0, key, ttl), 1 := Lease(1, key, ttl + ttl)];
    var events :| Watch(events) == w;
  }

  // ---- A release that is interrupted ----

  ghost predicate Played(w: World) {
    exists moves :: Play(moves) == w
  }

  lemma ThenPlay(w: World, m: Move, t: World)
    requires Played(w) && Next(w, m) == t
    ensures Played(t)
  {
    var moves :| Play(moves) == w;
    assert (moves + [m])[..|moves|] == moves;
    assert Play(moves + [m]) == t;
  }

  lemma SectionPlayed(key: string, ttl: Duration)
    ensures Played(OneInside(key, ttl))
  {
    assert Play([]) == START;
    var w := World(System(0, map[], map[0 := map[]], map[0 := Call(0, key, Setting(ttl))], [], 0), map[]);
    assert Reap<EntryId>(map[], 0) == map[];
    ThenPlay(START, Happens(StartAcquire(0, 0, key, ttl)), w);
    ThenPlay(w, Happens(SendSetNX(0, Answered)), OneInserting(key, ttl));
    DropOnly(0, OneInserting(key, ttl).sys.calls[0]);
    ThenPlay(OneInserting(key, ttl), Happens(InsertEntry(0)), OneInside(key, ttl));
  }

  // The entry is claimed, its delete is not sent, the lock has expired and another instance is about to try.
  function ReleaseInterrupted(key: string, ttl: Duration): World {
    World(System(ttl, map[key := Cell(0, ttl)], map[0 := map[], 1 := map[]],
                 map[1 := Call(0, key, Deleting(0)), 2 := Call(1, key, Setting(ttl))], [0], 1),
          map[])
  }

  lemma ReleaseIsInterrupted(key: string, ttl: Duration)
    ensures Played(ReleaseInterrupted(key, ttl))
  {
    SectionPlayed(key, ttl);
    var w := OneInside(key, ttl);
    var w1 := World(System(0, w.sys.redis, map[0 := map[]], map[1 := Call(0, key, Deleting(0))], [0], 1), map[]);
    DropOnly(key, Slot(0, 0, ttl));
    DropOnly(0, Lease(0, key, ttl));
    ThenPlay(w, Releases(1, 0), w1);
    var w2 := w1.(sys := w1.sys.(now := ttl));
    ThenPlay(w1, Happens(Tick(ttl)), w2);
    assert Reap<EntryId>(map[], ttl) == map[];
    assert w2.sys.tables[1 := map[]] == map[0 := map[], 1 := map[]];
    ThenPlay(w2, Happens(StartAcquire(2, 1, key, ttl)), ReleaseInterrupted(key, ttl));
  }

  /** An answered release by the section's own caller need not leave the key free: when the lock expires
      between the claim and the delete, the key may hold the next section's lock, which the delete spares. */
  lemma InterruptedReleaseSparesNext(key: string, ttl: Duration)
    ensures exists moves :: var w := Play(moves);
      && w.open == map[1 := Lease(1, key, ttl + ttl)]
      && 1 in w.sys.calls && w.sys.calls[1] == Call(0, key, Deleting(0))
      && Get(Apply(w.sys, SendDelete(1, Answered)).redis, w.sys.now, key) == Some(1)
  {
    ReleaseIsInterrupted(key, ttl);
    var w := Next(ReleaseInterrupted(key, ttl), Happens(SendSetNX(2, Answered)));
    ThenPlay(ReleaseInterrupted(key, ttl), Happens(SendSetNX(2, Answered)), w);
    assert w.sys.redis[key] == Cell(1, ttl + ttl);
    var moves :| Play(moves) == w;
  }

  // ---- Promises not kept ----

  ghost predicate Struck(p: Pact) {
    exists moves :: Run(moves) == p
  }

  lemma ThenStrike(p: Pact, m: Move, t: Pact)
    requires Struck(p) && WithinPromise(p, m) && Pact(Effect(p.world, m), if m.Happens? then ToldAfter(p, m.e) else p.told) == t
    ensures Struck(t)
  {
    var moves :| Run(moves) == p;
    assert (moves + [m])[..|moves|] == moves;
    assert Run(moves + [m]) == t;
  }

  lemma SectionPromised(key: string, ttl: Duration)
    ensures Struck(Pact(OneInside(key, ttl), map[0 := ttl]))
  {
    assert Run([]) == FRESH;
    var w := World(System(0, map[], map[0 := map[]], map[0 := Call(0, key, Setting(ttl))], [], 0), map[]);
    assert Reap<EntryId>(map[], 0) == map[];
    ThenStrike(FRESH, Happens(StartAcquire(0, 0, key, ttl)), Pact(w, map[]));
    ThenStrike(Pact(w, map[]), Happens(SendSetNX(0, Answered)), Pact(OneInserting(key, ttl), map[0 := ttl]));
    DropOnly(0, OneInserting(key, ttl).sys.calls[0]);
    ThenStrike(Pact(OneInserting(key, ttl), map[0 := ttl]), Happens(InsertEntry(0)), Pact(OneInside(key, ttl), map[0 := ttl]));
  }

  // A section that was promised more than Redis has for it.
  function CutShort(key: string, short: Duration, promised: Duration): World {
    World(System(0, map[key := Cell(0, short)], map[0 := map[key := Slot(0, 0, promised)]], map[], [0], 1),
          map[0 := Lease(0, key, short)])
  }

  // It was acquired for `promised`, and then extended for less with the answer lost.
  lemma ShorterExtendCuts(key: string, short: Duration, promised: Duration)
    ensures Struck(Pact(CutShort(key, short, promised), map[0 := promised]))
  {
    SectionPromised(key, promised);
    var w, told := OneInside(key, promised), map[0 := promised];
    var w1 := w.(sys := w.sys.(calls := map[1 := Call(0, key, Touching(0, 0, short))]));
    ThenStrike(Pact(w, told), Extends(1, 0, short), Pact(w1, told));
    DropOnly(1, w1.sys.calls[1]);
    assert LeasesAfter(w1, SendTouch(1, AnswerLost)) == map[0 := Lease(0, key, short)];
    ThenStrike(Pact(w1, told), Happens(SendTouch(1, AnswerLost)), Pact(CutShort(key, short, promised), told));
  }

  // Or it was acquired for `short` and extended twice at once: for `promised`, answered, and then for `short`, lost.
  function TwoTouching(key: string, short: Duration, promised: Duration): World {
    World(System(0, map[key := Cell(0, short)], map[0 := map[key := Slot(0, 0, short)]],
                 map[1 := Call(0, key, Touching(0, 0, short)), 2 := Call(0, key, Touching(0, 0, promised))], [0], 1),
          map[0 := Lease(0, key, short)])
  }

  lemma TwoExtendsStart(key: string, short: Duration, promised: Duration)
    ensures Struck(Pact(TwoTouching(key, short, promised), map[0 := short]))
  {
    SectionPromised(key, short);
    var w, told := OneInside(key, short), map[0 := short];
    var w1 := w.(sys := w.sys.(calls := map[1 := Call(0, key, Touching(0, 0, short))]));
    ThenStrike(Pact(w, told), Extends(1, 0, short), Pact(w1, told));
    ThenStrike(Pact(w1, told), Extends(2, 0, promised), Pact(TwoTouching(key, short, promised), told));
  }

  function LaterExtendDone(key: string, short: Duration, promised: Duration): World {
    World(System(0, map[key := Cell(0, promised)], map[0 := map[key := Slot(0, 0, promised)]],
                 map[1 := Call(0, key, Touching(0, 0, short))], [0], 1),
          map[0 := Lease(0, key, promised)])
  }

  function LaterExtendAnswered(key: string, short: Duration, promised: Duration): World {
    World(System(0, map[key := Cell(0, promised)], map[0 := map[key := Slot(0, 0, short)]],
                 map[1 := Call(0, key, Touching(0, 0, short)), 2 := Call(0, key, Confirming(0, 0, promised))], [0], 1),
          map[0 := Lease(0, key, promised)])
  }

  lemma LaterExtendReturns(key: string, short: Duration, promised: Duration)
    ensures Struck(Pact(LaterExtendAnswered(key, short, promised), map[0 := promised]))
  {
    TwoExtendsStart(key, short, promised);
    var w := TwoTouching(key, short, promised);
    assert LeasesAfter(w, SendTouch(2, Answered)) == map[0 := Lease(0, key, promised)];
    ThenStrike(Pact(w, map[0 := short]), Happens(SendTouch(2, Answered)),
               Pact(LaterExtendAnswered(key, short, promised), map[0 := promised]));
  }

  lemma LaterExtendConfirmed(key: string, short: Duration, promised: Duration)
    ensures Struck(Pact(LaterExtendDone(key, short, promised), map[0 := promised]))
  {
    LaterExtendReturns(key, short, promised);
    var w, t := LaterExtendAnswered(key, short, promised), LaterExtendDone(key, short, promised);
    RewriteOnly(key, Slot(0, 0, short), promised);
    assert w.sys.calls - {2} == t.sys.calls;
    assert Apply(w.sys, ConfirmEntry(2)) == t.sys;
    ThenStrike(Pact(w, map[0 := promised]), Happens(ConfirmEntry(2)), Pact(t, map[0 := promised]));
  }

  lemma OverlappingExtendCuts(key: string, short: Duration, promised: Duration)
    ensures Struck(Pact(CutShort(key, short, promised), map[0 := promised]))
  {
    LaterExtendConfirmed(key, short, promised);
    var w, told := LaterExtendDone(key, short, promised), map[0 := promised];
    DropOnly(1, w.sys.calls[1]);
    assert LeasesAfter(w, SendTouch(1, AnswerLost)) == map[0 := Lease(0, key, short)];
    ThenStrike(Pact(w, told), Happens(SendTouch(1, AnswerLost)), Pact(CutShort(key, short, promised), told));
  }

  // The next section is about to open inside the promise.
  function PromiseOverrun(key: string, short: Duration, promised: Duration): World {
    World(System(short, map[key := Cell(0, short)], map[0 := map[key := Slot(0, 0, promised)], 1 := map[]],
                 map[3 := Call(1, key, Setting(promised))], [0], 1),
          map[0 := Lease(0, key, short)])
  }

  lemma PromiseOverruns(key: string, short: Duration, promised: Duration)
    requires short < promised && Struck(Pact(CutShort(key, short, promised), map[0 := promised]))
    ensures Struck(Pact(PromiseOverrun(key, short, promised), map[0 := promised]))
  {
    var w, told := CutShort(key, short, promised), map[0 := promised];
    var w1 := w.(sys := w.sys.(now := short));
    ThenStrike(Pact(w, told), Happens(Tick(short)), Pact(w1, told));
    assert Reap<EntryId>(map[], short) == map[];
    assert w1.sys.tables[1 := map[]] == map[0 := map[key := Slot(0, 0, promised)], 1 := map[]];
    ThenStrike(Pact(w1, told), Happens(StartAcquire(3, 1, key, promised)), Pact(PromiseOverrun(key, short, promised), told));
  }

  /** Being out before the ttl counted from the last successful extend is not enough by itself. A shorter
      extend whose answer was lost, or one of two overlapping extends that takes effect last and whose
      answer was lost, lets a second section open while the first is still within its promise. */
  lemma LostExtendBreaksPromise(key: string, short: Duration, promised: Duration, overlapping: bool)
    requires short < promised
    ensures exists moves :: var p := Run(moves);
      && 0 in p.told && p.world.sys.now < p.told[0] == promised
      && p.world.open == map[0 := Lease(0, key, short), 1 := Lease(1, key, short + promised)]
  {
    if overlapping { OverlappingExtendCuts(key, short, promised); } else { ShorterExtendCuts(key, short, promised); }
    PromiseOverruns(key, short, promised);
    var w, told := PromiseOverrun(key, short, promised), map[0 := promised];
    var m := Happens(SendSetNX(3, Answered));
    var t := Pact(Effect(w, m), ToldAfter(Pact(w, told), m.e));
    ThenStrike(Pact(w, told), m, t);
    assert t.world.open == map[0 := Lease(0, key, short), 1 := Lease(1, key, short + promised)];
    assert t.told == map[0 := promised, 1 := short + promised];
    var moves :| Run(moves) == t;
  }

  // ---- The local expiry falling behind ----

  // How it came about: the extend is about to write its expiry, its answer was lost and it never will, or
  // it has been overtaken by an extend that asked for more, and then wrote its own expiry last.
  datatype Cause = Pending | Unanswered | Overtaken

  // Redis has been given a later expiry than the entry.
  function ExtendedInRedis(key: string, ttl: Duration, longer: Duration, cause: Cause): World {
    World(System(0, map[key := Cell(0, longer)], map[0 := map[key := Slot(0, 0, ttl)]],
                 if cause.Pending? then map[1 := Call(0, key, Confirming(0, 0, longer))] else map[], [0], 1),
          map[0 := Lease(0, key, longer)])
  }

  lemma OneExtendFallsBehind(key: string, ttl: Duration, longer: Duration, cause: Cause)
    requires !cause.Overtaken?
    ensures Seen(ExtendedInRedis(key, ttl, longer, cause))
  {
    FirstSectionReturns(key, ttl);
    var w := OneInside(key, ttl);
    var w1 := w.(sys := w.sys.(calls := map[1 := Call(0, key, Touching(0, 0, longer))]));
    Then(w, StartExtend(1, 0, key, longer), w1);
    DropOnly(1, w1.sys.calls[1]);
    var fate := if cause.Unanswered? then AnswerLost else Answered;
    assert LeasesAfter(w1, SendTouch(1, fate)) == map[0 := Lease(0, key, longer)];
    Then(w1, SendTouch(1, fate), ExtendedInRedis(key, ttl, longer, cause));
  }

  // Two extends have renewed Redis, the one for `longer` last.
  function TwoConfirming(key: string, ttl: Duration, longer: Duration): World {
    World(System(0, map[key := Cell(0, longer)], map[0 := map[key := Slot(0, 0, ttl)]],
                 map[1 := Call(0, key, Confirming(0, 0, ttl)), 2 := Call(0, key, Confirming(0, 0, longer))], [0], 1),
          map[0 := Lease(0, key, longer)])
  }

  lemma OneConfirming(key: string, ttl: Duration, longer: Duration)
    ensures Seen(World(System(0, map[key := Cell(0, ttl)], map[0 := map[key := Slot(0, 0, ttl)]],
                       map[1 := Call(0, key, Confirming(0, 0, ttl)), 2 := Call(0, key, Touching(0, 0, longer))], [0], 1),
                       map[0 := Lease(0, key, ttl)]))
  {
    FirstSectionReturns(key, ttl);
    var w := OneInside(key, ttl);
    var w1 := w.(sys := w.sys.(calls := map[1 := Call(0, key, Touching(0, 0, ttl))]));
    Then(w, StartExtend(1, 0, key, ttl), w1);
    assert w1.sys.calls[2 := Call(0, key, Touching(0, 0, longer))] == TwoTouching(key, ttl, longer).sys.calls;
    Then(w1, StartExtend(2, 0, key, longer), TwoTouching(key, ttl, longer));
    Then(TwoTouching(key, ttl, longer), SendTouch(1, Answered),
         World(System(0, map[key := Cell(0, ttl)], map[0 := map[key := Slot(0, 0, ttl)]],
               map[1 := Call(0, key, Confirming(0, 0, ttl)), 2 := Call(0, key, Touching(0, 0, longer))], [0], 1),
               map[0 := Lease(0, key, ttl)]));
  }

  lemma BothConfirming(key: string, ttl: Duration, longer: Duration)
    ensures Seen(TwoConfirming(key, ttl, longer))
  {
    OneConfirming(key, ttl, longer);
    var w := World(System(0, map[key := Cell(0, ttl)], map[0 := map[key := Slot(0, 0, ttl)]],
                   map[1 := Call(0, key, Confirming(0, 0, ttl)), 2 := Call(0, key, Touching(0, 0, longer))], [0], 1),
                   map[0 := Lease(0, key, ttl)]);
    assert LeasesAfter(w, SendTouch(2, Answered)) == map[0 := Lease(0, key, longer)];
    Then(w, SendTouch(2, Answered), TwoConfirming(key, ttl, longer));
  }

  lemma OvertakenExtendFallsBehind(key: string, ttl: Duration, longer: Duration)
    ensures Seen(ExtendedInRedis(key, ttl, longer, Overtaken))
  {
    BothConfirming(key, ttl, longer);
    var w := TwoConfirming(key, ttl, longer);
    var w1 := w.(sys := System(0, map[key := Cell(0, longer)], map[0 := map[key := Slot(0, 0, longer)]],
                               map[1 := Call(0, key, Confirming(0, 0, ttl))], [0], 1));
    assert w.sys.calls - {2} == w1.sys.calls;
    RewriteOnly(key, Slot(0, 0, ttl), longer);
    Then(w, ConfirmEntry(2), w1);
    DropOnly(1, w1.sys.calls[1]);
    RewriteOnly(key, Slot(0, 0, longer), ttl);
    Then(w1, ConfirmEntry(1), ExtendedInRedis(key, ttl, longer, Overtaken));
  }

  // Instance 0 has forgotten the key, and Redis still holds the lock it made.
  predicate Forgotten(s: System, key: string) {
    key !in TableOf(s.tables, 0) && Get(s.redis, s.now, key) == Some(0) && s.makers == [0]
  }

  /** A reap does forget a lock that Redis still holds for its instance: in the window of an extend, after
      an extend whose answer was lost, and after two overlapping extends, every answer delivered, of which
      the one that asked for less writes its expiry last. */
  lemma ReapForgetsLiveLock(key: string, ttl: Duration, longer: Duration, cause: Cause)
    requires ttl + 1 < longer
    ensures exists events :: var s := Exec(INIT, events);
      Forgotten(s, key) && (InWindow(s.calls, 0) <==> cause.Pending?)
  {
    if cause.Overtaken? { OvertakenExtendFallsBehind(key, ttl, longer); } else { OneExtendFallsBehind(key, ttl, longer, cause); }
    var w := ExtendedInRedis(key, ttl, longer, cause);
    var w1 := w.(sys := w.sys.(now := ttl + 1));
    Then(w, Tick(ttl + 1), w1);
    var w2 := After(w1, StartAcquire(2, 0, key, ttl));
    Then(w1, StartAcquire(2, 0, key, ttl), w2);
    assert cause.Pending? ==> w2.sys.calls[1].phase.Confirming? && w2.sys.calls[1].phase.value == 0;
    Reached(w2);
  }

  // ---- A late insert ----

  // The second acquire of the instance has set the key too, the first one's lock being over.
  function TwoInserting(key: string, ttl: Duration): World {
    World(System(ttl, map[key := Cell(1, ttl + ttl)], map[0 := map[]],
                 map[0 := Call(0, key, Inserting(0, ttl)), 1 := Call(0, key, Inserting(1, ttl))], [0, 0], 0),
          map[0 := Lease(0, key, ttl), 1 := Lease(0, key, ttl + ttl)])
  }

  // Just before that.
  function SecondSetting(key: string, ttl: Duration): World {
    World(System(ttl, map[key := Cell(0, ttl)], map[0 := map[]],
                 map[0 := Call(0, key, Inserting(0, ttl)), 1 := Call(0, key, Setting(ttl))], [0], 0),
          map[0 := Lease(0, key, ttl)])
  }

  lemma SecondStarts(key: string, ttl: Duration)
    ensures Seen(SecondSetting(key, ttl))
  {
    FirstSectionOpens(key, ttl);
    var w := OneInserting(key, ttl);
    var w1 := w.(sys := w.sys.(now := ttl));
    Then(w, Tick(ttl), w1);
    assert Reap<EntryId>(map[], ttl) == map[];
    assert w.sys.tables[0 := map[]] == map[0 := map[]];
    Then(w1, StartAcquire(1, 0, key, ttl), SecondSetting(key, ttl));
  }

  lemma BothSet(key: string, ttl: Duration)
    ensures Seen(TwoInserting(key, ttl))
  {
    SecondStarts(key, ttl);
    Then(SecondSetting(key, ttl), SendSetNX(1, Answered), TwoInserting(key, ttl));
  }

  // The newer entry was stored first and the older one has replaced it.
  function Overwritten(key: string, ttl: Duration): World {
    var w := TwoInserting(key, ttl);
    w.(sys := System(ttl, w.sys.redis, map[0 := map[key := Slot(1, 0, ttl + ttl)]], map[], [0, 0], 2))
  }

  lemma LateInsertWins(key: string, ttl: Duration)
    ensures Seen(Overwritten(key, ttl))
  {
    BothSet(key, ttl);
    var w := TwoInserting(key, ttl);
    var s := w.sys;
    var w1 := w.(sys := System(ttl, s.redis, map[0 := map[key := Slot(0, 1, ttl + ttl)]], map[0 := s.calls[0]], [0, 0], 1));
    assert s.calls - {1} == map[0 := s.calls[0]];
    Then(w, InsertEntry(1), w1);
    DropOnly(0, s.calls[0]);
    var slot := Slot(1, 0, ttl + ttl);
    assert TableOf(w1.sys.tables, 0)[key := slot] == map[key := slot];
    assert Apply(w1.sys, InsertEntry(0)).tables == map[0 := map[key := slot]];
    Then(w1, InsertEntry(0), Overwritten(key, ttl));
  }

  /** An AcquireLock that records its entry after its ttl overwrites the entry of a newer acquire on the
      same instance: the release that follows is answered, and yet leaves the newer lock in Redis. */
  lemma LateInsertStrandsLock(key: string, ttl: Duration)
    ensures exists events :: var s := Exec(INIT, events);
      s.calls == map[] && key !in TableOf(s.tables, 0) && Get(s.redis, s.now, key) == Some(1) && s.makers == [0, 0]
  {
    LateInsertWins(key, ttl);
    var w := Overwritten(key, ttl);
    var w1 := w.(sys := w.sys.(tables := map[0 := map[]], calls := map[2 := Call(0, key, Deleting(0))]));
    DropOnly(key, w.sys.tables[0][key]);
    Then(w, StartRelease(2, 0, key), w1);
    DropOnly(2, w1.sys.calls[2]);
    var w2 := After(w1, SendDelete(2, Answered));
    Then(w1, SendDelete(2, Answered), w2);
    Reached(w2);
  }
}
