/** The local expiry against the Redis expiry. reapExpired trusts the local clock reading kept with an
    entry. An entry falls behind Redis in exactly two ways: an extend takes effect and its answer is lost,
    or an extend writes back an earlier expiry than another one has given Redis meanwhile. */
module BondExpiry {
  import opened Wrappers
  import opened TtlStore
  import opened BondTable
  import opened Bond
  import opened BondProtocol

  // Redis holds this value under this key for longer than `bound`.
  ghost predicate Outlives(redis: Store<LockValue>, key: string, value: LockValue, bound: Time) {
    key in redis && redis[key].value == value && bound < redis[key].expiry
  }

  // An extend of this value has renewed Redis and not yet the table.
  ghost predicate InWindow(calls: map<CallId, Call>, value: LockValue) {
    exists c :: c in calls && calls[c].phase.Confirming? && calls[c].phase.value == value
  }

  // An entry that Redis outlives has an extend on its way to it.
  ghost predicate NoneBehind(tables: Tables, redis: Store<LockValue>, calls: map<CallId, Call>) {
    forall i, key :: key in TableOf(tables, i)
      && Outlives(redis, key, TableOf(tables, i)[key].value, TableOf(tables, i)[key].expiresAt)
      ==> InWindow(calls, TableOf(tables, i)[key].value)
  }

  ghost predicate UpToDate(s: System) {
    NoneBehind(s.tables, s.redis, s.calls)
  }

  // ---- Inserting never falls short ----

  // An acquire about to write now + ttl does not fall short of Redis.
  ghost predicate InsertsReach(s: System) {
    forall c :: c in s.calls && s.calls[c].phase.Inserting? ==>
      !Outlives(s.redis, s.calls[c].key, s.calls[c].phase.value, s.now + s.calls[c].phase.ttl)
  }

  // What a step may put into Redis: a fresh value, or a new expiry for the value an extend carries.
  lemma StepRenews(s: System, e: Event)
    ensures s.now <= Apply(s, e).now
    ensures var t := Apply(s, e);
      forall key :: key in t.redis ==>
        || (key in s.redis && t.redis[key] == s.redis[key])
        || t.redis[key].value == |s.makers|
        || (e.SendTouch? && e.call in s.calls && s.calls[e.call].phase.Touching?
            && t.redis[key].value == s.calls[e.call].phase.value)
  {
  }

  // Which calls a step may bring to the point of writing an expiry.
  lemma StepReadies(s: System, e: Event)
    ensures var t := Apply(s, e);
      forall c :: c in t.calls && (t.calls[c].phase.Inserting? || t.calls[c].phase.Confirming?) ==>
        || (c in s.calls && t.calls[c] == s.calls[c])
        || (e == SendSetNX(c, Answered) && At(s, c) == Some(Setting(t.calls[c].phase.ttl))
            && t.calls[c].phase == Inserting(|s.makers|, t.calls[c].phase.ttl)
            && t.redis == s.redis[t.calls[c].key := Cell(|s.makers|, s.now + t.calls[c].phase.ttl)])
        || (e == SendTouch(c, Answered) && c in s.calls && s.calls[c].phase.Touching? && t.calls[c].phase.Confirming?
            && t.calls[c].phase.value == s.calls[c].phase.value
            && t.calls[c].key in t.redis
            && t.redis[t.calls[c].key].expiry == s.now + t.calls[c].phase.ttl)
  {
  }

  lemma StepKeepsInsertsReach(s: System, e: Event)
    requires Inv(s) && InsertsReach(s)
    ensures InsertsReach(Apply(s, e))
  {
    StepRenews(s, e);
    StepReadies(s, e);
    var t := Apply(s, e);
    forall c | c in t.calls && t.calls[c].phase.Inserting?
      ensures !Outlives(t.redis, t.calls[c].key, t.calls[c].phase.value, t.now + t.calls[c].phase.ttl)
    {
      if c in s.calls && t.calls[c] == s.calls[c] {
        assert MadeBy(s.makers, s.calls[c].phase.value, s.calls[c].instance);
      }
    }
  }

  lemma {:induction false} ExecInsertsReach(events: seq<Event>)
    ensures Inv(Exec(INIT, events)) && InsertsReach(Exec(INIT, events))
  {
    if events != [] {
      var s := Exec(INIT, events[..|events| - 1]);
      ExecInsertsReach(events[..|events| - 1]);
      ApplyKeepsInv(s, events[|events| - 1]);
      StepKeepsInsertsReach(s, events[|events| - 1]);
    }
  }

  // ---- The steps that leave an entry behind ----

  // The instance's table has an entry of this value whose expiry lies before `bound`.
  predicate EntryBefore(s: System, i: Instance, key: string, value: LockValue, bound: Time) {
    key in TableOf(s.tables, i) && TableOf(s.tables, i)[key].value == value && TableOf(s.tables, i)[key].expiresAt < bound
  }

  // Another extend of the same value is between its Redis command and its map update.
  ghost predicate OtherInWindow(s: System, c: CallId, value: LockValue) {
    exists d :: d in s.calls && d != c && s.calls[d].phase.Confirming? && s.calls[d].phase.value == value
  }

  // An extend's script renews Redis past the entry and its answer is lost.
  ghost predicate LosesAnswer(s: System, e: Event) {
    && e.SendTouch? && e.fate.AnswerLost?
    && e.call in s.calls && s.calls[e.call].phase.Touching?
    && var call := s.calls[e.call];
       && Get(s.redis, s.now, call.key) == Some(call.phase.value)
       && EntryBefore(s, call.instance, call.key, call.phase.value, s.now + call.phase.ttl)
       && !OtherInWindow(s, e.call, call.phase.value)
  }

  // An extend finds its entry and gives it an expiry before the one Redis has for its value by now.
  ghost predicate ConfirmsTooEarly(s: System, e: Event) {
    && e.ConfirmEntry?
    && e.call in s.calls && s.calls[e.call].phase.Confirming?
    && var call := s.calls[e.call];
       && call.key in TableOf(s.tables, call.instance)
       && TableOf(s.tables, call.instance)[call.key].ref == call.phase.ref
       && Outlives(s.redis, call.key, call.phase.value, s.now + call.phase.ttl)
       && !OtherInWindow(s, e.call, call.phase.value)
  }

  ghost predicate Lags(s: System, e: Event) {
    LosesAnswer(s, e) || ConfirmsTooEarly(s, e)
  }

  // Windows stay open when every call that was confirming still is.
  lemma WindowsStay(before: map<CallId, Call>, after: map<CallId, Call>)
    requires forall c :: c in before && before[c].phase.Confirming? ==> c in after && after[c] == before[c]
    ensures forall v :: InWindow(before, v) ==> InWindow(after, v)
  {
  }

  lemma ShrinkKeepsUp(before: Tables, after: Tables, redis: Store<LockValue>, calls: map<CallId, Call>)
    requires NoneBehind(before, redis, calls) && Shrunk(before, after)
    ensures NoneBehind(after, redis, calls)
  {
  }

  // Writing a slot that reaches the Redis expiry, or has another extend on its way, may close a window.
  lemma WriteKeepsUp(before: Tables, after: Tables, i: Instance, k: string, slot: Slot<EntryId>,
                     redis: Store<LockValue>, calls: map<CallId, Call>, left: map<CallId, Call>)
    requires NoneBehind(before, redis, calls) && Wrote(before, after, i, k, slot)
    requires Outlives(redis, k, slot.value, slot.expiresAt) ==> InWindow(left, slot.value)
    requires forall j, l :: l in TableOf(after, j) && (j != i || l != k) && InWindow(calls, TableOf(after, j)[l].value) ==>
      InWindow(left, TableOf(after, j)[l].value)
    ensures NoneBehind(after, redis, left)
  {
  }

  lemma StartAcquireKeepsUp(s: System, c: CallId, i: Instance, key: string, ttl: Duration)
    requires UpToDate(s) && c !in s.calls
    ensures UpToDate(DoStartAcquire(s, c, i, key, ttl))
  {
    var t := DoStartAcquire(s, c, i, key, ttl);
    assert TableOf(t.tables, i) == Reap(TableOf(s.tables, i), s.now);
    ShrinkKeepsUp(s.tables, t.tables, s.redis, s.calls);
    WindowsStay(s.calls, t.calls);
  }

  lemma StartReleaseKeepsUp(s: System, c: CallId, i: Instance, key: string)
    requires UpToDate(s) && c !in s.calls
    ensures UpToDate(DoStartRelease(s, c, i, key))
  {
    var t := DoStartRelease(s, c, i, key);
    assert Shrunk(s.tables, t.tables);
    ShrinkKeepsUp(s.tables, t.tables, s.redis, s.calls);
    WindowsStay(s.calls, t.calls);
  }

  lemma SendSetNXKeepsUp(s: System, c: CallId, ttl: Duration, fate: Fate)
    requires Sound(s) && UpToDate(s) && At(s, c) == Some(Setting(ttl))
    ensures UpToDate(DoSendSetNX(s, c, ttl, fate))
  {
    WindowsStay(s.calls, DoSendSetNX(s, c, ttl, fate).calls);
  }

  lemma InsertEntryKeepsUp(s: System, c: CallId, value: LockValue, ttl: Duration)
    requires UpToDate(s) && InsertsReach(s) && At(s, c) == Some(Inserting(value, ttl))
    ensures UpToDate(DoInsertEntry(s, c, value, ttl))
  {
    var t := DoInsertEntry(s, c, value, ttl);
    var i, key, slot := s.calls[c].instance, s.calls[c].key, Slot(s.entryCount, value, s.now + ttl);
    WindowsStay(s.calls, t.calls);
    PutWrites(s.tables, i, key, slot);
    WriteKeepsUp(s.tables, t.tables, i, key, slot, s.redis, s.calls, t.calls);
  }

  lemma SendDeleteKeepsUp(s: System, c: CallId, value: LockValue, fate: Fate)
    requires UpToDate(s) && At(s, c) == Some(Deleting(value))
    ensures UpToDate(DoSendDelete(s, c, value, fate))
  {
    WindowsStay(s.calls, DoSendDelete(s, c, value, fate).calls);
  }

  lemma SendTouchKeepsUpIff(s: System, c: CallId, ref: EntryId, value: LockValue, ttl: Duration, fate: Fate)
    requires UpToDate(s) && CallsTarget(s.tables, s.calls) && At(s, c) == Some(Touching(ref, value, ttl))
    ensures UpToDate(DoSendTouch(s, c, ref, value, ttl, fate)) <==> !LosesAnswer(s, SendTouch(c, fate))
  {
    var t := DoSendTouch(s, c, ref, value, ttl, fate);
    var call := s.calls[c];
    WindowsStay(s.calls, t.calls);
    forall i, key | key in TableOf(t.tables, i)
      && Outlives(t.redis, key, TableOf(t.tables, i)[key].value, TableOf(t.tables, i)[key].expiresAt)
      ensures InWindow(t.calls, TableOf(t.tables, i)[key].value) || LosesAnswer(s, SendTouch(c, fate))
    {
      if t.redis != s.redis && key == call.key && !fate.AnswerLost? {
        assert t.calls[c].phase.Confirming? && t.calls[c].phase.value == TableOf(t.tables, i)[key].value;
      } else if t.redis != s.redis && key == call.key {
        assert Targets(call, i, key, TableOf(s.tables, i)[key]);
      } else {
        assert InWindow(s.calls, TableOf(s.tables, i)[key].value);
      }
    }
    if LosesAnswer(s, SendTouch(c, fate)) {
      assert Outlives(t.redis, call.key, value, TableOf(t.tables, call.instance)[call.key].expiresAt);
      assert !InWindow(t.calls, value);
    }
  }

  lemma ConfirmEntryKeepsUpIff(s: System, c: CallId, ref: EntryId, value: LockValue, ttl: Duration)
    requires UpToDate(s) && CallsTarget(s.tables, s.calls) && SlotsDistinct(s.tables)
    requires At(s, c) == Some(Confirming(ref, value, ttl))
    ensures UpToDate(DoConfirmEntry(s, c, ref, value, ttl)) <==> !ConfirmsTooEarly(s, ConfirmEntry(c))
  {
    var t := DoConfirmEntry(s, c, ref, value, ttl);
    var i, key, slot := s.calls[c].instance, s.calls[c].key, Slot(ref, value, s.now + ttl);
    forall v | v != value && InWindow(s.calls, v) ensures InWindow(t.calls, v) {
      var d :| d in s.calls && s.calls[d].phase.Confirming? && s.calls[d].phase.value == v;
      assert d in t.calls;
    }
    assert InWindow(t.calls, value) <==> OtherInWindow(s, c, value) by {
      assert t.calls == s.calls - {c};
      if OtherInWindow(s, c, value) {
        var d :| d in s.calls && d != c && s.calls[d].phase.Confirming? && s.calls[d].phase.value == value;
        assert d in t.calls;
      }
    }
    if key in TableOf(s.tables, i) && TableOf(s.tables, i)[key].ref == ref {
      assert Targets(s.calls[c], i, key, TableOf(s.tables, i)[key]);
      PutWrites(s.tables, i, key, slot);
      assert TableOf(t.tables, i)[key] == slot;
      if !ConfirmsTooEarly(s, ConfirmEntry(c)) {
        WriteKeepsUp(s.tables, t.tables, i, key, slot, s.redis, s.calls, t.calls);
      }
    } else {
      assert forall j, l :: l in TableOf(s.tables, j) ==>
        Targets(s.calls[c], j, l, TableOf(s.tables, j)[l]) && TableOf(s.tables, j)[l].value != value;
      assert Shrunk(s.tables, t.tables);
      ShrinkKeepsUp(s.tables, t.tables, s.redis, s.calls);
    }
  }

  lemma StepKeepsUpIff(s: System, e: Event)
    requires Inv(s) && InsertsReach(s) && UpToDate(s)
    ensures UpToDate(Apply(s, e)) <==> !Lags(s, e)
  {
    match e
    case Tick(_) =>
    case StartAcquire(c, i, key, ttl) =>
      if c !in s.calls { StartAcquireKeepsUp(s, c, i, key, ttl); }
    case StartRelease(c, i, key) =>
      if c !in s.calls { StartReleaseKeepsUp(s, c, i, key); }
    case StartExtend(c, i, key, ttl) =>
      if c !in s.calls { WindowsStay(s.calls, DoStartExtend(s, c, i, key, ttl).calls); }
    case SendSetNX(c, fate) =>
      if c in s.calls && s.calls[c].phase.Setting? { SendSetNXKeepsUp(s, c, s.calls[c].phase.ttl, fate); }
    case InsertEntry(c) =>
      if c in s.calls && s.calls[c].phase.Inserting? {
        InsertEntryKeepsUp(s, c, s.calls[c].phase.value, s.calls[c].phase.ttl);
      }
    case SendDelete(c, fate) =>
      if c in s.calls && s.calls[c].phase.Deleting? { SendDeleteKeepsUp(s, c, s.calls[c].phase.value, fate); }
    case SendTouch(c, fate) =>
      if c in s.calls && s.calls[c].phase.Touching? {
        var p := s.calls[c].phase;
        SendTouchKeepsUpIff(s, c, p.ref, p.value, p.ttl, fate);
      }
    case ConfirmEntry(c) =>
      if c in s.calls && s.calls[c].phase.Confirming? {
        var p := s.calls[c].phase;
        ConfirmEntryKeepsUpIff(s, c, p.ref, p.value, p.ttl);
      }
  }

  /** In any reachable state with no entry behind Redis, the next event leaves one behind exactly when it
      is an extend's script that renews past the entry and whose answer is lost, or an extend's map update
      that falls short of what Redis has by then, with no further extend of that lock on its way. */
  lemma FallsBehindIff(events: seq<Event>, e: Event)
    requires UpToDate(Exec(INIT, events))
    ensures !UpToDate(Apply(Exec(INIT, events), e)) <==> Lags(Exec(INIT, events), e)
  {
    ExecInsertsReach(events);
    StepKeepsUpIff(Exec(INIT, events), e);
  }

  // No event of the run leaves an entry behind.
  ghost predicate Prompt(events: seq<Event>) {
    forall n :: 0 <= n < |events| ==> !Lags(Exec(INIT, events[..n]), events[n])
  }

  lemma PromptPrefix(events: seq<Event>, n: nat)
    requires Prompt(events) && n <= |events|
    ensures Prompt(events[..n])
  {
    forall m | 0 <= m < n ensures !Lags(Exec(INIT, events[..n][..m]), events[..n][m]) {
      assert events[..n][..m] == events[..m];
    }
  }

  lemma {:induction false} PromptIsUpToDate(events: seq<Event>)
    requires Prompt(events)
    ensures UpToDate(Exec(INIT, events))
  {
    if events != [] {
      var n := |events| - 1;
      PromptPrefix(events, n);
      PromptIsUpToDate(events[..n]);
      FallsBehindIff(events[..n], events[n]);
    }
  }

  /** So a run has no entry behind Redis at any point exactly when none of its events is one of those. */
  lemma NeverBehindIff(events: seq<Event>)
    ensures (forall n :: 0 <= n <= |events| ==> UpToDate(Exec(INIT, events[..n]))) <==> Prompt(events)
  {
    if Prompt(events) {
      forall n | 0 <= n <= |events| ensures UpToDate(Exec(INIT, events[..n])) {
        PromptPrefix(events, n);
        PromptIsUpToDate(events[..n]);
      }
    }
    if forall n :: 0 <= n <= |events| ==> UpToDate(Exec(INIT, events[..n])) {
      forall n | 0 <= n < |events| ensures !Lags(Exec(INIT, events[..n]), events[n]) {
        assert events[..n + 1][..n] == events[..n];
        assert UpToDate(Exec(INIT, events[..n + 1]));
        FallsBehindIff(events[..n], events[n]);
      }
    }
  }

  // ---- What a reap forgets ----

  // The acquire's reap drops an entry of its instance whose lock Redis still holds.
  ghost predicate ForgetsLive(s: System, e: Event, key: string) {
    && e.StartAcquire?
    && key in TableOf(s.tables, e.instance) && key !in TableOf(Apply(s, e).tables, e.instance)
    && Get(s.redis, s.now, key) == Some(TableOf(s.tables, e.instance)[key].value)
  }

  ghost predicate ExtendConfirming(s: System, i: Instance, value: LockValue) {
    exists c :: c in s.calls && s.calls[c].phase.Confirming? && s.calls[c].phase.value == value && s.calls[c].instance == i
  }

  lemma ForgetsLiveIff(s: System, c: CallId, i: Instance, k: string, ttl: Duration, key: string)
    requires Inv(s) && UpToDate(s) && c !in s.calls
    ensures ForgetsLive(s, StartAcquire(c, i, k, ttl), key) <==>
      && key in TableOf(s.tables, i)
      && TableOf(s.tables, i)[key].expiresAt < s.now
      && Get(s.redis, s.now, key) == Some(TableOf(s.tables, i)[key].value)
      && ExtendConfirming(s, i, TableOf(s.tables, i)[key].value)
  {
    assert TableOf(DoStartAcquire(s, c, i, k, ttl).tables, i) == Reap(TableOf(s.tables, i), s.now);
    if key in TableOf(s.tables, i) && InWindow(s.calls, TableOf(s.tables, i)[key].value) {
      var d :| d in s.calls && s.calls[d].phase.Confirming? && s.calls[d].phase.value == TableOf(s.tables, i)[key].value;
      assert MadeBy(s.makers, s.calls[d].phase.value, s.calls[d].instance);
    }
  }

  /** As long as no entry was left behind, a reap forgets a lock that Redis still holds exactly when the
      entry's expiry is past, the lock is still there, and an extend of it on that instance is between its
      Redis command and its map update. */
  lemma ReapForgetsLiveIff(events: seq<Event>, c: CallId, i: Instance, k: string, ttl: Duration, key: string)
    requires Prompt(events) && c !in Exec(INIT, events).calls
    ensures var s := Exec(INIT, events);
      ForgetsLive(s, StartAcquire(c, i, k, ttl), key) <==>
        && key in TableOf(s.tables, i)
        && TableOf(s.tables, i)[key].expiresAt < s.now
        && Get(s.redis, s.now, key) == Some(TableOf(s.tables, i)[key].value)
        && ExtendConfirming(s, i, TableOf(s.tables, i)[key].value)
  {
    ExecKeepsInv(INIT, events);
    PromptIsUpToDate(events);
    ForgetsLiveIff(Exec(INIT, events), c, i, k, ttl, key);
  }

  // ---- Quiet runs ----

  // No reap on an instance with an extend in the window, no extend script on a lock that has one there,
  // and no extend whose answer is lost after it took effect.
  ghost predicate Quiet(s: System, e: Event) {
    match e
    case StartAcquire(_, i, _, _) => forall c :: c in s.calls && s.calls[c].phase.Confirming? ==> s.calls[c].instance != i
    case SendTouch(c, fate) =>
      && !fate.AnswerLost?
      && (c in s.calls && s.calls[c].phase.Touching? ==> !InWindow(s.calls, s.calls[c].phase.value))
    case _ => true
  }

  // The runs in which only quiet events happen.
  ghost function ExecQuiet(events: seq<Event>): System {
    if events == [] then INIT
    else
      var s := ExecQuiet(events[..|events| - 1]);
      if Quiet(s, events[|events| - 1]) then Apply(s, events[|events| - 1]) else s
  }

  // An extend about to write now + ttl does not fall short of Redis, and is the only one of its lock.
  ghost predicate ConfirmsReach(s: System) {
    && (forall c :: c in s.calls && s.calls[c].phase.Confirming? ==>
          !Outlives(s.redis, s.calls[c].key, s.calls[c].phase.value, s.now + s.calls[c].phase.ttl))
    && (forall c, d :: c in s.calls && d in s.calls && c != d && s.calls[c].phase.Confirming? && s.calls[d].phase.Confirming? ==>
          s.calls[c].phase.value != s.calls[d].phase.value)
  }

  lemma QuietNeverLags(s: System, e: Event)
    requires ConfirmsReach(s) && Quiet(s, e)
    ensures !Lags(s, e)
  {
  }

  lemma QuietKeepsReach(s: System, e: Event)
    requires Inv(s) && ConfirmsReach(s) && Quiet(s, e)
    ensures ConfirmsReach(Apply(s, e))
  {
    StepRenews(s, e);
    StepReadies(s, e);
    var t := Apply(s, e);
    forall c | c in t.calls && t.calls[c].phase.Confirming?
      ensures !Outlives(t.redis, t.calls[c].key, t.calls[c].phase.value, t.now + t.calls[c].phase.ttl)
    {
      if c in s.calls && t.calls[c] == s.calls[c] {
        assert MadeBy(s.makers, s.calls[c].phase.value, s.calls[c].instance);
      }
    }
  }

  /** Every quiet run is a run that leaves no entry behind. */
  lemma {:induction false} QuietRunsArePrompt(events: seq<Event>) returns (es: seq<Event>)
    ensures Exec(INIT, es) == ExecQuiet(events) && Prompt(es)
    ensures ConfirmsReach(Exec(INIT, es))
  {
    es := [];
    if events != [] {
      var front, e := events[..|events| - 1], events[|events| - 1];
      es := QuietRunsArePrompt(front);
      var s := ExecQuiet(front);
      if Quiet(s, e) {
        ExecKeepsInv(INIT, es);
        QuietNeverLags(s, e);
        QuietKeepsReach(s, e);
        PromptSnoc(es, e);
        es := es + [e];
      }
    }
  }

  lemma PromptSnoc(events: seq<Event>, e: Event)
    requires Prompt(events) && !Lags(Exec(INIT, events), e)
    ensures Prompt(events + [e]) && Exec(INIT, events + [e]) == Apply(Exec(INIT, events), e)
  {
    var more := events + [e];
    assert more[..|events|] == events;
    forall n | 0 <= n < |more| ensures !Lags(Exec(INIT, more[..n]), more[n]) {
      assert n < |events| ==> more[..n] == events[..n];
    }
  }

  /** In every quiet run an entry's local expiry is not before the Redis expiry of its lock, except
      while an extend of that very lock is between the two. */
  lemma LocalExpiryCoversRedis(events: seq<Event>, i: Instance, key: string)
    requires var s := ExecQuiet(events);
      && key in TableOf(s.tables, i)
      && key in s.redis && s.redis[key].value == TableOf(s.tables, i)[key].value
      && !InWindow(s.calls, s.redis[key].value)
    ensures var s := ExecQuiet(events); s.redis[key].expiry <= TableOf(s.tables, i)[key].expiresAt
  {
    var es := QuietRunsArePrompt(events);
    PromptIsUpToDate(es);
  }

  /** So a quiet reap only forgets locks that Redis has dropped already. */
  lemma ReapForgetsOnlyDeadLocks(events: seq<Event>, c: CallId, i: Instance, k: string, ttl: Duration, key: string)
    requires var s := ExecQuiet(events);
      && Quiet(s, StartAcquire(c, i, k, ttl))
      && key in TableOf(s.tables, i)
      && key !in TableOf(Apply(s, StartAcquire(c, i, k, ttl)).tables, i)
    ensures var s := ExecQuiet(events); Get(s.redis, s.now, key) != Some(TableOf(s.tables, i)[key].value)
  {
    var es := QuietRunsArePrompt(events);
    ReapForgetsLiveIff(es, c, i, k, ttl, key);
  }
}
