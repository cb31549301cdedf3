/** Who can disturb what, in every run and with no assumption on the callers. */
module BondOwnership {
  import opened Wrappers
  import opened TtlStore
  import opened BondTable
  import opened Bond
  import opened BondProtocol

  // The event sends the unlock or extend script for exactly this key and value, on behalf of the
  // instance that generated the value.
  ghost predicate OwnScript(s: System, e: Event, key: string) {
    && (e.SendDelete? || e.SendTouch?)
    && e.call in s.calls
    && var call := s.calls[e.call];
    && (call.phase.Deleting? || call.phase.Touching?)
    && key in s.redis
    && call.key == key
    && call.phase.value == s.redis[key].value
    && MadeBy(s.makers, s.redis[key].value, call.instance)
  }

  /** A live lock is deleted, shortened or lengthened only by the instance that acquired it, through
      the unlock or extend script carrying that very lock's value. */
  lemma OnlyTheOwnerTouchesALock(events: seq<Event>, e: Event, key: string)
    requires var s := Exec(INIT, events); Live(s.redis, s.now, key) && !OwnScript(s, e, key)
    ensures var s := Exec(INIT, events); var t := Apply(s, e);
      key in t.redis && t.redis[key] == s.redis[key]
  {
    ExecKeepsInv(INIT, events);
  }

  // Some event of `later` sends a script of the lock's own instance for the value now at `key`.
  ghost predicate OwnScriptIn(s: System, later: seq<Event>, key: string) {
    exists n :: 0 <= n < |later| && OwnScript(Exec(s, later[..n]), later[n], key)
  }

  /** Whatever all the instances do, a lock its own instance leaves alone stays as it is until its
      expiry: no stale entry, delayed command or foreign call cuts it short or prolongs it. */
  lemma {:induction false} LockLastsUntilExpiry(events: seq<Event>, later: seq<Event>, key: string)
    requires var s := Exec(INIT, events);
      && Live(s.redis, s.now, key)
      && !OwnScriptIn(s, later, key)
      && Exec(s, later).now < s.redis[key].expiry
    ensures var s := Exec(INIT, events); var t := Exec(s, later);
      key in t.redis && t.redis[key] == s.redis[key]
  {
    var s := Exec(INIT, events);
    if later != [] {
      var n := |later| - 1;
      var u := Exec(s, later[..n]);
      assert !OwnScriptIn(s, later[..n], key) by {
        forall m | 0 <= m < n ensures !OwnScript(Exec(s, later[..n][..m]), later[..n][m], key) {
          assert later[..n][..m] == later[..m];
        }
      }
      ClockMonotone(u, later[n]);
      LockLastsUntilExpiry(events, later[..n], key);
      ExecConcat(INIT, events, later[..n]);
      OnlyTheOwnerTouchesALock(events + later[..n], later[n], key);
    }
  }

  lemma ClockMonotone(s: System, e: Event)
    ensures s.now <= Apply(s, e).now
  {
  }

  // ---- Entries and releases ----

  // An entry object older than state `s` that is still in a table of `t` was at the same place in `s`,
  // with the same lock value.
  ghost predicate EntriesPersist(s: System, t: System) {
    && s.entryCount <= t.entryCount
    && (forall i, key :: key in TableOf(t.tables, i) && TableOf(t.tables, i)[key].ref < s.entryCount ==>
          && key in TableOf(s.tables, i)
          && TableOf(s.tables, i)[key].ref == TableOf(t.tables, i)[key].ref
          && TableOf(s.tables, i)[key].value == TableOf(t.tables, i)[key].value)
  }

  lemma ConfirmPersists(s: System, c: CallId)
    requires Inv(s) && c in s.calls && s.calls[c].phase.Confirming?
    ensures EntriesPersist(s, Apply(s, ConfirmEntry(c)))
  {
    var i, key := s.calls[c].instance, s.calls[c].key;
    assert key in TableOf(s.tables, i) ==> Targets(s.calls[c], i, key, TableOf(s.tables, i)[key]);
  }

  lemma ReapPersists(s: System, c: CallId, i: Instance, key: string, ttl: Duration)
    requires c !in s.calls
    ensures EntriesPersist(s, Apply(s, StartAcquire(c, i, key, ttl)))
  {
    assert TableOf(DoStartAcquire(s, c, i, key, ttl).tables, i) == Reap(TableOf(s.tables, i), s.now);
  }

  lemma InsertPersists(s: System, c: CallId)
    ensures EntriesPersist(s, Apply(s, InsertEntry(c)))
  {
  }

  lemma ReleasePersists(s: System, c: CallId, i: Instance, key: string)
    ensures EntriesPersist(s, Apply(s, StartRelease(c, i, key)))
  {
  }

  lemma StepPersists(s: System, e: Event)
    requires Inv(s)
    ensures EntriesPersist(s, Apply(s, e))
  {
    match e
    case StartAcquire(c, i, key, ttl) =>
      if c !in s.calls { ReapPersists(s, c, i, key, ttl); }
    case InsertEntry(c) => InsertPersists(s, c);
    case StartRelease(c, i, key) => ReleasePersists(s, c, i, key);
    case ConfirmEntry(c) =>
      if c in s.calls && s.calls[c].phase.Confirming? { ConfirmPersists(s, c); }
    case _ =>
      assert Apply(s, e).tables == s.tables && Apply(s, e).entryCount == s.entryCount;
  }

  /** An extend, and everything else, leaves each entry's lock value alone: from any point of any run
      on, an entry object that is still stored is at the same key of the same instance with the same
      value. Nothing ever puts a forgotten entry back. */
  lemma {:induction false} EntryKeepsItsValue(events: seq<Event>, later: seq<Event>)
    ensures EntriesPersist(Exec(INIT, events), Exec(Exec(INIT, events), later))
  {
    if later != [] {
      var n := |later| - 1;
      var u := Exec(Exec(INIT, events), later[..n]);
      EntryKeepsItsValue(events, later[..n]);
      ExecKeepsInv(INIT, events);
      ExecKeepsInv(Exec(INIT, events), later[..n]);
      StepPersists(u, later[n]);
    }
  }

  /** The map update that ends an extend changes at most the slot of the very entry object the extend
      read, and of that slot only the expiry: no slot comes or goes, no lock value changes, and an entry
      installed by a release and re-acquire in between is left untouched. */
  lemma ConfirmChangesOnlyItsEntry(events: seq<Event>, c: CallId, i: Instance, key: string)
    requires var s := Exec(INIT, events); c in s.calls && s.calls[c].phase.Confirming?
    ensures var s := Exec(INIT, events); var t := Apply(s, ConfirmEntry(c)); var call := s.calls[c];
      && (key in TableOf(t.tables, i) <==> key in TableOf(s.tables, i))
      && (key in TableOf(s.tables, i) ==>
            TableOf(t.tables, i)[key] ==
              if TableOf(s.tables, i)[key].ref == call.phase.ref
              then TableOf(s.tables, i)[key].(expiresAt := s.now + call.phase.ttl)
              else TableOf(s.tables, i)[key])
  {
    ExecKeepsInv(INIT, events);
    var s := Exec(INIT, events);
    if key in TableOf(s.tables, i) {
      assert Targets(s.calls[c], i, key, TableOf(s.tables, i)[key]);
    }
  }

  // The entry object a release takes out of the map.
  function ClaimedBy(s: System, e: Event): Option<EntryId> {
    if e.StartRelease? && e.call !in s.calls && e.key in TableOf(s.tables, e.instance)
    then Some(TableOf(s.tables, e.instance)[e.key].ref) else None
  }

  lemma ClaimRemoves(s: System, e: Event)
    requires Inv(s) && ClaimedBy(s, e).Some?
    ensures ClaimedBy(s, e).value < Apply(s, e).entryCount
    ensures forall i, key :: key in TableOf(Apply(s, e).tables, i) ==>
      TableOf(Apply(s, e).tables, i)[key].ref != ClaimedBy(s, e).value
  {
    var t := Apply(s, e);
    assert t.tables == s.tables[e.instance := Claim(TableOf(s.tables, e.instance), e.key)];
    forall i, key | key in TableOf(t.tables, i)
      ensures TableOf(t.tables, i)[key].ref != ClaimedBy(s, e).value
    {
      assert key in TableOf(s.tables, i) && TableOf(s.tables, i)[key] == TableOf(t.tables, i)[key];
    }
  }

  /** However releases overlap, each stored entry is claimed by at most one of them. */
  lemma EntryClaimedOnce(events: seq<Event>, m: nat, n: nat)
    requires m < n < |events|
    requires ClaimedBy(Exec(INIT, events[..m]), events[m]).Some?
    ensures ClaimedBy(Exec(INIT, events[..n]), events[n]) != ClaimedBy(Exec(INIT, events[..m]), events[m])
  {
    var s := Exec(INIT, events[..m]);
    ExecKeepsInv(INIT, events[..m]);
    ClaimRemoves(s, events[m]);
    assert Exec(INIT, events[..m + 1]) == Apply(s, events[m]) by {
      assert events[..m + 1][..m] == events[..m];
    }
    assert Exec(INIT, events[..n]) == Exec(Exec(INIT, events[..m + 1]), events[m + 1..n]) by {
      assert events[..n] == events[..m + 1] + events[m + 1..n];
      ExecConcat(INIT, events[..m + 1], events[m + 1..n]);
    }
    EntryKeepsItsValue(events[..m + 1], events[m + 1..n]);
  }
}
