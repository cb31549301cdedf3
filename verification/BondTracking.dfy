/** When a release does free its lock. A section's entry is what ReleaseLock goes by; it is in the table
    from the moment AcquireLock records it, and is lost in exactly two ways: a reap drops it, or the late
    insert of an acquire whose own section is over replaces it. */
module BondTracking {
  import opened Wrappers
  import opened TtlStore
  import opened BondTable
  import opened Bond
  import opened BondProtocol
  import opened BondExpiry
  import opened BondExclusion

  // The section's AcquireLock has yet to record its entry.
  ghost predicate Unrecorded(s: System, v: LockValue) {
    exists c :: c in s.calls && s.calls[c].phase.Inserting? && s.calls[c].phase.value == v
  }

  ghost predicate AllTracked(w: World) {
    forall v :: v in w.open ==> Tracked(w, v) || Unrecorded(w.sys, v)
  }

  // A reap on the section's instance finds its entry past its local expiry.
  ghost predicate ReapsSection(w: World, m: Move, v: LockValue) {
    && m.Happens? && m.e.StartAcquire? && m.e.call !in w.sys.calls
    && Tracked(w, v) && w.open[v].instance == m.e.instance
    && TableOf(w.sys.tables, w.open[v].instance)[w.open[v].key].expiresAt < w.sys.now
  }

  // An acquire whose section is over records its entry over that of the section.
  predicate OverwritesSection(w: World, m: Move, v: LockValue) {
    && m.Happens? && m.e.InsertEntry? && m.e.call in w.sys.calls && w.sys.calls[m.e.call].phase.Inserting?
    && w.sys.calls[m.e.call].phase.value !in w.open
    && Tracked(w, v)
    && w.open[v].instance == w.sys.calls[m.e.call].instance && w.open[v].key == w.sys.calls[m.e.call].key
  }

  ghost predicate LosesSection(w: World, m: Move) {
    exists v :: ReapsSection(w, m, v) || OverwritesSection(w, m, v)
  }

  // Sections of one table keep their slots and their unfinished acquires.
  lemma StillTracked(w: World, t: World)
    requires AllTracked(w)
    requires forall v :: v in t.open ==> v in w.open && t.open[v].instance == w.open[v].instance && t.open[v].key == w.open[v].key
    requires forall v :: v in t.open && Tracked(w, v) ==> Tracked(t, v)
    requires forall c :: c in w.sys.calls && w.sys.calls[c].phase.Inserting? ==> c in t.sys.calls && t.sys.calls[c] == w.sys.calls[c]
    ensures AllTracked(t)
  {
    forall v | v in t.open ensures Tracked(t, v) || Unrecorded(t.sys, v) {
      if Unrecorded(w.sys, v) {
        var c :| c in w.sys.calls && w.sys.calls[c].phase.Inserting? && w.sys.calls[c].phase.value == v;
        assert c in t.sys.calls;
      }
    }
  }

  lemma StartAcquireTracksIff(w: World, c: CallId, i: Instance, key: string, ttl: Duration)
    requires InsertsUnpublished(w.sys.tables, w.sys.calls) && AllTracked(w)
    ensures var m := Happens(StartAcquire(c, i, key, ttl)); AllTracked(Next(w, m)) <==> !LosesSection(w, m)
  {
    var m := Happens(StartAcquire(c, i, key, ttl));
    var t := Next(w, m);
    if c !in w.sys.calls {
      assert TableOf(t.sys.tables, i) == Reap(TableOf(w.sys.tables, i), w.sys.now);
      assert forall j :: j != i ==> TableOf(t.sys.tables, j) == TableOf(w.sys.tables, j);
      if LosesSection(w, m) {
        var v :| ReapsSection(w, m, v) || OverwritesSection(w, m, v);
        NeverBoth(w, v);
        assert !Unrecorded(t.sys, v) by {
          assert forall d :: d in t.sys.calls && t.sys.calls[d].phase.Inserting? ==> d in w.sys.calls && w.sys.calls[d] == t.sys.calls[d];
        }
        assert !Tracked(t, v);
      } else {
        forall v | v in t.open && Tracked(w, v) ensures Tracked(t, v) {
          assert !ReapsSection(w, m, v);
        }
        StillTracked(w, t);
      }
    }
  }

  lemma NeverBoth(w: World, v: LockValue)
    requires InsertsUnpublished(w.sys.tables, w.sys.calls) && Tracked(w, v)
    ensures !Unrecorded(w.sys, v)
  {
  }

  lemma InsertEntryTracksIff(w: World, c: CallId)
    requires Inv(w.sys) && Guarded(w) && AllTracked(w)
    ensures var m := Happens(InsertEntry(c)); AllTracked(Next(w, m)) <==> !LosesSection(w, m)
  {
    var m := Happens(InsertEntry(c));
    var t := Next(w, m);
    if c in w.sys.calls && w.sys.calls[c].phase.Inserting? {
      var call := w.sys.calls[c];
      var u := call.phase.value;
      var slot := Slot(w.sys.entryCount, u, w.sys.now + call.phase.ttl);
      assert t.sys.tables == w.sys.tables[call.instance := TableOf(w.sys.tables, call.instance)[call.key := slot]];
      assert t.sys.calls == w.sys.calls - {c};
      PutWrites(w.sys.tables, call.instance, call.key, slot);
      if LosesSection(w, m) {
        var v :| ReapsSection(w, m, v) || OverwritesSection(w, m, v);
        NeverBoth(w, v);
        assert !Tracked(t, v) && !Unrecorded(t.sys, v);
      } else {
        InsertTracks(w, t, c, slot);
      }
    }
  }

  // The insert of an open section tracks it, and any other insert spares the open sections.
  lemma InsertTracks(w: World, t: World, c: CallId, slot: Slot<EntryId>)
    requires Guarded(w) && AllTracked(w) && !LosesSection(w, Happens(InsertEntry(c)))
    requires c in w.sys.calls && w.sys.calls[c].phase.Inserting? && slot.value == w.sys.calls[c].phase.value
    requires t.open == w.open && t.sys.calls == w.sys.calls - {c}
    requires t.sys.tables == w.sys.tables[w.sys.calls[c].instance :=
      TableOf(w.sys.tables, w.sys.calls[c].instance)[w.sys.calls[c].key := slot]]
    ensures AllTracked(t)
  {
    var call := w.sys.calls[c];
    forall v | v in t.open ensures Tracked(t, v) || Unrecorded(t.sys, v) {
      assert !OverwritesSection(w, Happens(InsertEntry(c)), v);
      assert CallKnowsSections(call, w.open);
      if v != slot.value && Unrecorded(w.sys, v) {
        var d :| d in w.sys.calls && w.sys.calls[d].phase.Inserting? && w.sys.calls[d].phase.value == v;
        assert d in t.sys.calls;
      }
    }
  }

  lemma SendSetNXTracks(w: World, c: CallId, fate: Fate)
    requires Guarded(w) && AllTracked(w)
    ensures AllTracked(Next(w, Happens(SendSetNX(c, fate))))
  {
    var t := Next(w, Happens(SendSetNX(c, fate)));
    if Opens(w.sys, c, fate) {
      assert c in t.sys.calls && t.sys.calls[c].phase == Inserting(|w.sys.makers|, w.sys.calls[c].phase.ttl);
      forall v | v in t.open ensures Tracked(t, v) || Unrecorded(t.sys, v) {
        if v != |w.sys.makers| && Unrecorded(w.sys, v) {
          var d :| d in w.sys.calls && w.sys.calls[d].phase.Inserting? && w.sys.calls[d].phase.value == v;
          assert d in t.sys.calls;
        }
      }
    } else {
      StillTracked(w, t);
    }
  }

  lemma ConfirmEntryTracks(w: World, c: CallId)
    requires Inv(w.sys) && AllTracked(w)
    ensures AllTracked(Next(w, Happens(ConfirmEntry(c))))
  {
    var t := Next(w, Happens(ConfirmEntry(c)));
    if c in w.sys.calls && w.sys.calls[c].phase.Confirming? {
      ConfirmKeepsValues(w.sys, c);
      StillTracked(w, t);
    }
  }

  lemma ConfirmKeepsValues(s: System, c: CallId)
    requires CallsTarget(s.tables, s.calls) && c in s.calls && s.calls[c].phase.Confirming?
    ensures var t := Apply(s, ConfirmEntry(c));
      && t.calls == s.calls - {c}
      && forall i, key :: key in TableOf(s.tables, i) ==>
           key in TableOf(t.tables, i) && TableOf(t.tables, i)[key].value == TableOf(s.tables, i)[key].value
  {
    var call := s.calls[c];
    assert call.key in TableOf(s.tables, call.instance) ==>
      Targets(call, call.instance, call.key, TableOf(s.tables, call.instance)[call.key]);
  }

  // A move that keeps every table and every acquire about to record its entry.
  lemma OtherMovesTrack(w: World, m: Move)
    requires AllTracked(w) && Allowed(w, m)
    requires m.Extends? || m.Leaves? || (m.Happens? && (m.e.Tick? || m.e.SendDelete? || m.e.SendTouch?))
    ensures AllTracked(Next(w, m))
  {
    var t := Next(w, m);
    assert t.sys.tables == w.sys.tables;
    StillTracked(w, t);
  }

  lemma ReleasesTracks(w: World, c: CallId, mine: LockValue)
    requires Guarded(w) && AllTracked(w)
    ensures AllTracked(Next(w, Releases(c, mine)))
  {
    var t := Next(w, Releases(c, mine));
    if Allowed(w, Releases(c, mine)) {
      forall v | v in t.open && Tracked(w, v) ensures Tracked(t, v) {
        assert w.open[v].key != w.open[mine].key;
      }
      StillTracked(w, t);
    }
  }

  lemma MoveTracksIff(w: World, m: Move)
    requires Inv(w.sys) && Guarded(w) && AllTracked(w) && Allowed(w, m)
    ensures AllTracked(Next(w, m)) <==> !LosesSection(w, m)
  {
    match m
    case Happens(StartAcquire(c, i, key, ttl)) => StartAcquireTracksIff(w, c, i, key, ttl);
    case Happens(InsertEntry(c)) => InsertEntryTracksIff(w, c);
    case Happens(SendSetNX(c, fate)) => SendSetNXTracks(w, c, fate);
    case Happens(ConfirmEntry(c)) => ConfirmEntryTracks(w, c);
    case Releases(c, mine) => ReleasesTracks(w, c, mine);
    case _ => OtherMovesTrack(w, m);
  }

  /** In any disciplined run in which every open section has its entry, or has yet to record it, the next
      move takes an entry away exactly when it is such a reap or such a late insert. */
  lemma EntryIsLostIff(moves: seq<Move>, m: Move)
    requires AllTracked(Play(moves)) && Allowed(Play(moves), m)
    ensures !AllTracked(Next(Play(moves), m)) <==> LosesSection(Play(moves), m)
  {
    PlayGuarded(moves);
    MoveTracksIff(Play(moves), m);
  }

  // ---- Timely runs ----

  // No reap while an extend of that instance is between its Redis command and its map update, no step
  // that leaves an entry behind Redis, and an AcquireLock records its entry while its section is open.
  ghost predicate Timely(w: World, m: Move) {
    m.Happens? ==>
      && !Lags(w.sys, m.e)
      && (m.e.StartAcquire? ==>
            forall c :: c in w.sys.calls && w.sys.calls[c].phase.Confirming? ==> w.sys.calls[c].instance != m.e.instance)
      && (m.e.InsertEntry? && m.e.call in w.sys.calls && w.sys.calls[m.e.call].phase.Inserting? ==>
            w.sys.calls[m.e.call].phase.value in w.open)
  }

  ghost function PlayTimely(moves: seq<Move>): World {
    if moves == [] then START
    else
      var w := PlayTimely(moves[..|moves| - 1]);
      if Timely(w, moves[|moves| - 1]) then Next(w, moves[|moves| - 1]) else w
  }

  ghost predicate Orderly(w: World) {
    Inv(w.sys) && InsertsReach(w.sys) && UpToDate(w.sys) && Guarded(w) && AllTracked(w)
  }

  // The reap of a timely run only meets entries of open sections that are not past.
  lemma TimelyLosesNothing(w: World, m: Move)
    requires Inv(w.sys) && UpToDate(w.sys) && Guarded(w) && Timely(w, m)
    ensures !LosesSection(w, m)
  {
    if v :| ReapsSection(w, m, v) || OverwritesSection(w, m, v) {
      var lease := w.open[v];
      ForgetsLiveIff(w.sys, m.e.call, m.e.instance, m.e.key, m.e.ttl, lease.key);
      assert false;
    }
  }

  lemma NextUpToDate(w: World, m: Move)
    requires Inv(w.sys) && InsertsReach(w.sys) && UpToDate(w.sys) && Timely(w, m)
    ensures InsertsReach(Next(w, m).sys) && UpToDate(Next(w, m).sys)
  {
    if Allowed(w, m) && !m.Leaves? {
      var e := match m
        case Happens(e) => e
        case Releases(c, mine) => StartRelease(c, w.open[mine].instance, w.open[mine].key)
        case Extends(c, mine, ttl) => StartExtend(c, w.open[mine].instance, w.open[mine].key, ttl);
      assert Next(w, m).sys == Apply(w.sys, e);
      StepKeepsInsertsReach(w.sys, e);
      StepKeepsUpIff(w.sys, e);
    }
  }

  lemma {:induction false} PlayTimelyOrderly(moves: seq<Move>)
    ensures Orderly(PlayTimely(moves))
  {
    if moves != [] {
      var w, m := PlayTimely(moves[..|moves| - 1]), moves[|moves| - 1];
      PlayTimelyOrderly(moves[..|moves| - 1]);
      if Timely(w, m) && Allowed(w, m) {
        NextUpToDate(w, m);
        NextKeepsInv(w, m);
        NextKeepsGuarded(w, m);
        TimelyLosesNothing(w, m);
        MoveTracksIff(w, m);
      }
    }
  }

  /** In every timely run an open section's entry is in its instance's table from the moment AcquireLock
      has recorded it until the section is closed. */
  lemma SectionsAreTracked(moves: seq<Move>, mine: LockValue)
    requires mine in PlayTimely(moves).open
    ensures var w := PlayTimely(moves); Tracked(w, mine) <==> !Unrecorded(w.sys, mine)
  {
    PlayTimelyOrderly(moves);
    var w := PlayTimely(moves);
    if Tracked(w, mine) { NeverBoth(w, mine); }
  }

  /** What a caller relies on: once AcquireLock has returned true, in time, an uninterrupted and answered
      ReleaseLock frees the key at once. TimelyReleaseEndsItsLock of BondRelease is the interleaved case. */
  lemma ReleaseFreesItsLock(moves: seq<Move>, c: CallId, mine: LockValue)
    requires var w := PlayTimely(moves);
      mine in w.open && !Unrecorded(w.sys, mine) && c !in w.sys.calls
    ensures var w := PlayTimely(moves);
      var t := Next(Next(w, Releases(c, mine)), Happens(SendDelete(c, Answered)));
      t.sys.redis == w.sys.redis - {w.open[mine].key} && t.open == w.open - {mine} && t.sys.calls == w.sys.calls
  {
    PlayTimelyOrderly(moves);
    ReleaseOutcome(PlayTimely(moves), c, mine);
  }
}
