/** A release among other calls. ReleaseLock claims the entry first and sends its delete later, and
    anything may happen in between: the lock may expire and the next section take the key. What a release
    promises under every interleaving is that its own lock is gone from then on, and that nobody else's is
    touched. */
module BondRelease {
  import opened Wrappers
  import opened TtlStore
  import opened BondTable
  import opened Bond
  import opened BondProtocol
  import opened BondExclusion
  import opened BondTracking

  predicate SendsDelete(e: Event, c: CallId) {
    e.SendDelete? && e.call == c
  }

  predicate DeleteWaits(events: seq<Event>, c: CallId) {
    forall e :: e in events ==> !SendsDelete(e, c)
  }

  // Redis does not hold this value, and no generator will make it again.
  predicate Gone(s: System, key: string, value: LockValue) {
    value < |s.makers| && Get(s.redis, s.now, key) != Some(value)
  }

  // ---- A pending delete stays pending ----

  lemma StepKeepsPending(s: System, e: Event, c: CallId)
    requires At(s, c).Some? && At(s, c).value.Deleting? && !SendsDelete(e, c)
    ensures c in Apply(s, e).calls && Apply(s, e).calls[c] == s.calls[c]
  {
  }

  lemma {:induction false} ExecKeepsPending(s: System, events: seq<Event>, c: CallId)
    requires At(s, c).Some? && At(s, c).value.Deleting? && DeleteWaits(events, c)
    ensures c in Exec(s, events).calls && Exec(s, events).calls[c] == s.calls[c]
  {
    if events != [] {
      var front, e := events[..|events| - 1], events[|events| - 1];
      assert e in events && forall d :: d in front ==> d in events;
      ExecKeepsPending(s, front, c);
      StepKeepsPending(Exec(s, front), e, c);
    }
  }

  // ---- A value that is gone stays gone ----

  lemma StepKeepsGone(s: System, e: Event, key: string, value: LockValue)
    requires Gone(s, key, value)
    ensures Gone(Apply(s, e), key, value)
  {
  }

  /** A released or expired lock never comes back, whatever is still on its way: SET NX brings a fresh
      value, and an extend only renews what is there. */
  lemma {:induction false} GoneForGood(s: System, events: seq<Event>, key: string, value: LockValue)
    requires Gone(s, key, value)
    ensures Gone(Exec(s, events), key, value)
  {
    if events != [] {
      GoneForGood(s, events[..|events| - 1], key, value);
      StepKeepsGone(Exec(s, events[..|events| - 1]), events[|events| - 1], key, value);
    }
  }

  // ---- The release ----

  lemma DeleteStep(s: System, c: CallId, value: LockValue, fate: Fate)
    requires At(s, c) == Some(Deleting(value)) && !fate.NeverArrived?
    ensures Apply(s, SendDelete(c, fate)) == Finish(s.(redis := DelIf(s.redis, s.now, s.calls[c].key, value)), c)
    ensures Get(DelIf(s.redis, s.now, s.calls[c].key, value), s.now, s.calls[c].key) != Some(value)
  {
  }

  lemma ReleaseBegins(s: System, c: CallId, i: Instance, key: string)
    requires c !in s.calls && key in TableOf(s.tables, i)
    ensures var t := Apply(s, StartRelease(c, i, key));
      && t.redis == s.redis && t.now == s.now && t.makers == s.makers
      && c in t.calls && t.calls[c] == Call(i, key, Deleting(TableOf(s.tables, i)[key].value))
  {
  }

  // The makers of a state are those of any state before it, and some more.
  lemma {:induction false} MakersGrow(s: System, events: seq<Event>)
    ensures |s.makers| <= |Exec(s, events).makers|
  {
    if events != [] { MakersGrow(s, events[..|events| - 1]); }
  }

  lemma ReleaseFrom(s: System, c: CallId, i: Instance, key: string, more: seq<Event>, fate: Fate, later: seq<Event>)
    requires Inv(s) && c !in s.calls && key in TableOf(s.tables, i)
    requires DeleteWaits(more, c) && !fate.NeverArrived?
    ensures var value := TableOf(s.tables, i)[key].value;
      var u := Exec(Apply(s, StartRelease(c, i, key)), more);
      var t := Apply(u, SendDelete(c, fate));
      && t == Finish(u.(redis := DelIf(u.redis, u.now, key, value)), c)
      && Gone(Exec(t, later), key, value)
  {
    var value := TableOf(s.tables, i)[key].value;
    var s1 := Apply(s, StartRelease(c, i, key));
    ReleaseBegins(s, c, i, key);
    ExecKeepsPending(s1, more, c);
    var u := Exec(s1, more);
    DeleteStep(u, c, value, fate);
    assert value < |s.makers| by { assert MadeBy(s.makers, value, i); }
    MakersGrow(s1, more);
    GoneForGood(Apply(u, SendDelete(c, fate)), later, key, value);
  }

  /** In every run, disciplined or not: whatever happens between the claim of an entry and the delete that
      follows it, the delete takes exactly the entry's own lock out of Redis if it is still there and
      nothing else, and that lock is never in Redis again, whatever happens later. */
  lemma ReleaseEndsItsLock(events: seq<Event>, c: CallId, i: Instance, key: string,
                           more: seq<Event>, fate: Fate, later: seq<Event>)
    requires var s := Exec(INIT, events); c !in s.calls && key in TableOf(s.tables, i)
    requires DeleteWaits(more, c) && !fate.NeverArrived?
    ensures var s := Exec(INIT, events);
      var value := TableOf(s.tables, i)[key].value;
      var u := Exec(Apply(s, StartRelease(c, i, key)), more);
      var t := Apply(u, SendDelete(c, fate));
      var x := Exec(t, later);
      && t.redis == DelIf(u.redis, u.now, key, value)
      && (Live(t.redis, t.now, key) <==> Live(u.redis, u.now, key) && u.redis[key].value != value)
      && Get(x.redis, x.now, key) != Some(value)
  {
    ExecKeepsInv(INIT, events);
    ReleaseFrom(Exec(INIT, events), c, i, key, more, fate, later);
  }

  // ---- Of a critical section ----

  // What a disciplined move does to the system is one event, or none.
  lemma MoveIsEvent(w: World, m: Move) returns (e: Event)
    ensures Next(w, m).sys == Apply(w.sys, e)
    ensures SendsDeleteMove(m, e)
  {
    if !Allowed(w, m) || m.Leaves? {
      return Tick(0);
    }
    match m
    case Happens(h) => return h;
    case Releases(c, mine) => return StartRelease(c, w.open[mine].instance, w.open[mine].key);
    case Extends(c, mine, ttl) => return StartExtend(c, w.open[mine].instance, w.open[mine].key, ttl);
  }

  predicate SendsDeleteMove(m: Move, e: Event) {
    e.SendDelete? ==> m == Happens(e)
  }

  predicate MovesWait(moves: seq<Move>, c: CallId) {
    forall m :: m in moves ==> !(m.Happens? && SendsDelete(m.e, c))
  }

  // Going on with a disciplined run is running some events, and none of them a delete of this call.
  lemma {:induction false} PlayGoesOn(moves: seq<Move>, more: seq<Move>, c: CallId) returns (events: seq<Event>)
    requires MovesWait(more, c)
    ensures Play(moves + more).sys == Exec(Play(moves).sys, events) && DeleteWaits(events, c)
  {
    events := [];
    if more == [] {
      assert moves + more == moves;
    } else {
      var front, m := more[..|more| - 1], more[|more| - 1];
      assert m in more && forall n :: n in front ==> n in more;
      assert (moves + more)[..|moves + more| - 1] == moves + front;
      var before := PlayGoesOn(moves, front, c);
      var e := MoveIsEvent(Play(moves + front), m);
      assert (before + [e])[..|before|] == before;
      events := before + [e];
    }
  }

  // What the delete of a release does to Redis: with the section's entry claimed it removes the section's
  // lock if that is still there, and with any other entry claimed it does nothing.
  function DeleteOf(w: World, u: System, mine: LockValue): Store<LockValue>
    requires mine in w.open
  {
    if Tracked(w, mine) then DelIf(u.redis, u.now, w.open[mine].key, mine) else u.redis
  }

  lemma OtherEntryIsDead(w: World, mine: LockValue)
    requires Inv(w.sys) && Guarded(w) && mine in w.open && !Tracked(w, mine)
    requires w.open[mine].key in TableOf(w.sys.tables, w.open[mine].instance)
    ensures Gone(w.sys, w.open[mine].key, TableOf(w.sys.tables, w.open[mine].instance)[w.open[mine].key].value)
  {
    var lease := w.open[mine];
    assert MadeBy(w.sys.makers, TableOf(w.sys.tables, lease.instance)[lease.key].value, lease.instance);
  }

  lemma SectionReleaseFrom(w: World, c: CallId, mine: LockValue, more: seq<Event>, fate: Fate, later: seq<Event>)
    requires Inv(w.sys) && Guarded(w) && mine in w.open && c !in w.sys.calls
    requires w.open[mine].key in TableOf(w.sys.tables, w.open[mine].instance)
    requires DeleteWaits(more, c) && !fate.NeverArrived?
    ensures var key := w.open[mine].key;
      var u := Exec(Next(w, Releases(c, mine)).sys, more);
      var t := Apply(u, SendDelete(c, fate));
      && t.redis == DeleteOf(w, u, mine)
      && (Tracked(w, mine) ==> Gone(Exec(t, later), key, mine))
  {
    var lease := w.open[mine];
    var value := TableOf(w.sys.tables, lease.instance)[lease.key].value;
    ReleaseFrom(w.sys, c, lease.instance, lease.key, more, fate, later);
    if !Tracked(w, mine) {
      OtherEntryIsDead(w, mine);
      ReleaseBegins(w.sys, c, lease.instance, lease.key);
      GoneForGood(Apply(w.sys, StartRelease(c, lease.instance, lease.key)), more, lease.key, value);
    }
  }

  /** In every disciplined run a release by the section's own caller, whatever moves come between its claim
      and its delete, removes the section's lock if and where it still is when the section's entry was
      stored, and removes nothing otherwise; and the removed lock stays out of Redis for good. */
  lemma SectionReleaseEndsItsLock(moves: seq<Move>, c: CallId, mine: LockValue, more: seq<Move>, fate: Fate, later: seq<Event>)
    requires var w := Play(moves);
      && mine in w.open && c !in w.sys.calls
      && w.open[mine].key in TableOf(w.sys.tables, w.open[mine].instance)
    requires MovesWait(more, c) && !fate.NeverArrived?
    ensures var w := Play(moves);
      var u := Play(moves + [Releases(c, mine)] + more).sys;
      var t := Apply(u, SendDelete(c, fate));
      && t.redis == DeleteOf(w, u, mine)
      && (Tracked(w, mine) ==> Gone(Exec(t, later), w.open[mine].key, mine))
  {
    PlayGuarded(moves);
    assert (moves + [Releases(c, mine)])[..|moves|] == moves;
    var events := PlayGoesOn(moves + [Releases(c, mine)], more, c);
    SectionReleaseFrom(Play(moves), c, mine, events, fate, later);
  }

  /** What a caller relies on, under every interleaving: once AcquireLock has returned true, in time, a
      ReleaseLock whose delete reaches Redis leaves its lock neither then nor ever after in Redis, and
      takes nobody else's. */
  lemma TimelyReleaseEndsItsLock(moves: seq<Move>, c: CallId, mine: LockValue, more: seq<Event>, fate: Fate, later: seq<Event>)
    requires var w := PlayTimely(moves);
      mine in w.open && !Unrecorded(w.sys, mine) && c !in w.sys.calls
    requires DeleteWaits(more, c) && !fate.NeverArrived?
    ensures var w := PlayTimely(moves);
      var key := w.open[mine].key;
      var u := Exec(Next(w, Releases(c, mine)).sys, more);
      var t := Apply(u, SendDelete(c, fate));
      && t.redis == DelIf(u.redis, u.now, key, mine)
      && Gone(Exec(t, later), key, mine)
  {
    PlayTimelyOrderly(moves);
    SectionReleaseFrom(PlayTimely(moves), c, mine, more, fate, later);
  }
}
