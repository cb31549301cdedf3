/** Mutual exclusion by the deadline a caller can know. A section is promised its ttl from its SET NX, and
    then its ttl from each extend that ExtendLock reported as successful. An extend whose answer was lost
    promises nothing, although Redis may have taken it. The promise is safe exactly as long as no such
    extend cuts the lock below it; for that it is enough that callers never ask for less than they were
    promised and never have two extends of one section on their way. */
module BondPromise {
  import opened Wrappers
  import opened TtlStore
  import opened BondTable
  import opened Bond
  import opened BondProtocol
  import opened BondExclusion

  // told[v] is the promised deadline of section v.
  datatype Pact = Pact(world: World, told: map<LockValue, Time>)

  const FRESH := Pact(START, map[])

  function ToldAfter(p: Pact, e: Event): map<LockValue, Time> {
    var w, s := p.world, p.world.sys;
    match e
    case SendSetNX(c, fate) =>
      if Opens(s, c, fate) then p.told[|s.makers| := s.now + s.calls[c].phase.ttl] else p.told
    case SendTouch(c, fate) =>
      if Renews(w, c, fate) && fate.Answered? then p.told[s.calls[c].phase.value := s.now + s.calls[c].phase.ttl] else p.told
    case _ => p.told
  }

  // Another extend of the section has not been sent yet.
  ghost predicate ExtendUnderWay(s: System, mine: LockValue) {
    exists c :: c in s.calls && s.calls[c].phase.Touching? && s.calls[c].phase.value == mine
  }

  // Nobody overstays its promise, and what is released or extended is an open section of the caller's.
  ghost predicate WithinPromise(p: Pact, m: Move) {
    var w := p.world;
    match m
    case Happens(Tick(d)) => forall v :: v in w.open ==> v in p.told && w.sys.now + d < p.told[v]
    case _ => Allowed(w, m)
  }

  // An extend asks for no less than is promised already, and is the only one on its way.
  ghost predicate Careful(p: Pact, m: Move) {
    m.Extends? ==>
      && m.mine in p.told && p.told[m.mine] <= p.world.sys.now + m.ttl
      && !ExtendUnderWay(p.world.sys, m.mine)
  }

  // What a move does to the world, whether or not the Redis deadlines permit it.
  ghost function Effect(w: World, m: Move): World {
    if m.Happens? then World(Apply(w.sys, m.e), LeasesAfter(w, m.e)) else Next(w, m)
  }

  ghost function Strike(p: Pact, m: Move): Pact {
    if !WithinPromise(p, m) then p
    else Pact(Effect(p.world, m), if m.Happens? then ToldAfter(p, m.e) else p.told)
  }

  // ---- Promises kept ----

  // Redis holds every open section's lock, and for at least as long as promised.
  ghost predicate Kept(p: Pact) {
    forall v :: v in p.world.open ==>
      && v in p.told
      && var key, s := p.world.open[v].key, p.world.sys;
         Get(s.redis, s.now, key) == Some(v) && p.told[v] <= s.redis[key].expiry
  }

  // The same said of the leases, which are what Redis holds as long as BondExclusion's invariant does.
  ghost predicate LeasesCover(p: Pact) {
    forall v :: v in p.world.open ==> v in p.told && p.told[v] <= p.world.open[v].deadline
  }

  lemma KeptIffCovered(p: Pact)
    requires Guarded(p.world)
    ensures Kept(p) <==> LeasesCover(p)
  {
    assert forall v :: v in p.world.open ==> p.world.sys.redis[p.world.open[v].key] == Cell(v, p.world.open[v].deadline);
  }

  // An extend takes effect, sets a deadline before the promised one, and its answer is lost.
  ghost predicate CutsPromise(p: Pact, m: Move) {
    && m.Happens? && m.e.SendTouch? && m.e.fate.AnswerLost?
    && Renews(p.world, m.e.call, m.e.fate)
    && var phase := p.world.sys.calls[m.e.call].phase;
       phase.value in p.told && p.world.sys.now + phase.ttl < p.told[phase.value]
  }

  // A caller within its promise is within the Redis deadline as long as the leases cover the promises.
  lemma CoveredIsAllowed(p: Pact, m: Move)
    requires LeasesCover(p) && WithinPromise(p, m)
    ensures Allowed(p.world, m) && Strike(p, m).world == Next(p.world, m)
  {
  }

  lemma StrikeCoversIff(p: Pact, m: Move)
    requires LeasesCover(p)
    ensures LeasesCover(Strike(p, m)) <==> !CutsPromise(p, m)
  {
    if WithinPromise(p, m) && m.Happens? {
      match m.e
      case SendTouch(c, fate) => TouchCoversIff(p, c, fate);
      case _ =>
    }
  }

  lemma TouchCoversIff(p: Pact, c: CallId, fate: Fate)
    requires LeasesCover(p)
    ensures LeasesCover(Strike(p, Happens(SendTouch(c, fate)))) <==> !CutsPromise(p, Happens(SendTouch(c, fate)))
  {
    var t := Strike(p, Happens(SendTouch(c, fate)));
    if Renews(p.world, c, fate) {
      var phase := p.world.sys.calls[c].phase;
      assert t.world.open == p.world.open[phase.value := p.world.open[phase.value].(deadline := p.world.sys.now + phase.ttl)];
      assert t.told == if fate.Answered? then p.told[phase.value := p.world.sys.now + phase.ttl] else p.told;
    } else {
      assert t.world.open == p.world.open && t.told == p.told;
    }
  }

  // A run of callers that stay within their promises.
  ghost function Run(moves: seq<Move>): Pact {
    if moves == [] then FRESH else Strike(Run(moves[..|moves| - 1]), moves[|moves| - 1])
  }

  ghost predicate Uncut(moves: seq<Move>) {
    forall n :: 0 <= n < |moves| ==> !CutsPromise(Run(moves[..n]), moves[n])
  }

  lemma UncutPrefix(moves: seq<Move>, n: nat)
    requires Uncut(moves) && n <= |moves|
    ensures Uncut(moves[..n])
  {
    forall m | 0 <= m < n ensures !CutsPromise(Run(moves[..n][..m]), moves[..n][m]) {
      assert moves[..n][..m] == moves[..m];
    }
  }

  /** A run in which no promise is cut is a disciplined run of BondExclusion. */
  lemma {:induction false} UncutIsDisciplined(moves: seq<Move>) returns (ms: seq<Move>)
    requires Uncut(moves)
    ensures Play(ms) == Run(moves).world && LeasesCover(Run(moves))
  {
    ms := [];
    if moves != [] {
      var n := |moves| - 1;
      var p := Run(moves[..n]);
      UncutPrefix(moves, n);
      ms := UncutIsDisciplined(moves[..n]);
      StrikeCoversIff(p, moves[n]);
      if WithinPromise(p, moves[n]) {
        CoveredIsAllowed(p, moves[n]);
        assert (ms + [moves[n]])[..|ms|] == ms;
        ms := ms + [moves[n]];
      }
    }
  }

  lemma RunGuarded(moves: seq<Move>)
    requires Uncut(moves)
    ensures Inv(Run(moves).world.sys) && Guarded(Run(moves).world) && LeasesCover(Run(moves)) && Kept(Run(moves))
  {
    var ms := UncutIsDisciplined(moves);
    PlayGuarded(ms);
    KeptIffCovered(Run(moves));
  }

  // The invariant survives even the first cut: it is the promise that is broken, not the lease.
  lemma StrikeGuarded(p: Pact, m: Move)
    requires Inv(p.world.sys) && Guarded(p.world) && LeasesCover(p)
    ensures Inv(Strike(p, m).world.sys) && Guarded(Strike(p, m).world)
  {
    if WithinPromise(p, m) {
      CoveredIsAllowed(p, m);
      NextKeepsInv(p.world, m);
      NextKeepsGuarded(p.world, m);
    }
  }

  /** In a run without such a step so far, the next move leaves a section with its lock gone from Redis, or
      there for less than promised, exactly when it is an extend's script that takes effect below the
      promise and whose answer is lost. */
  lemma PromiseBreaksIff(moves: seq<Move>, m: Move)
    requires Uncut(moves)
    ensures !Kept(Strike(Run(moves), m)) <==> CutsPromise(Run(moves), m)
  {
    RunGuarded(moves);
    StrikeGuarded(Run(moves), m);
    StrikeCoversIff(Run(moves), m);
    KeptIffCovered(Strike(Run(moves), m));
  }

  lemma UncutSnoc(moves: seq<Move>, n: nat)
    requires |moves| == n + 1 && Uncut(moves[..n]) && !CutsPromise(Run(moves[..n]), moves[n])
    ensures Uncut(moves)
  {
    forall m | 0 <= m < n ensures !CutsPromise(Run(moves[..m]), moves[m]) {
      assert moves[..n][..m] == moves[..m] && moves[..n][m] == moves[m];
    }
  }

  lemma {:induction false} FirstCut(moves: seq<Move>) returns (n: nat)
    requires !Uncut(moves)
    ensures n < |moves| && Uncut(moves[..n]) && CutsPromise(Run(moves[..n]), moves[n])
  {
    n := |moves| - 1;
    if !Uncut(moves[..n]) {
      var k := FirstCut(moves[..n]);
      assert moves[..n][..k] == moves[..k];
      return k;
    }
    if !CutsPromise(Run(moves[..n]), moves[n]) {
      UncutSnoc(moves, n);
      assert false;
    }
  }

  lemma RunStep(moves: seq<Move>, n: nat)
    requires n < |moves|
    ensures Run(moves[..n + 1]) == Strike(Run(moves[..n]), moves[n])
    ensures moves[..n] + [moves[n]] == moves[..n + 1]
  {
    assert moves[..n + 1][..n] == moves[..n];
  }

  lemma FirstCutBreaks(moves: seq<Move>) returns (n: nat)
    requires !Uncut(moves)
    ensures n <= |moves| && !Kept(Run(moves[..n]))
  {
    var first := FirstCut(moves);
    PromiseBreaksIff(moves[..first], moves[first]);
    RunStep(moves, first);
    n := first + 1;
  }

  lemma UncutKeeps(moves: seq<Move>, n: nat)
    requires Uncut(moves) && n <= |moves|
    ensures Kept(Run(moves[..n]))
  {
    UncutPrefix(moves, n);
    RunGuarded(moves[..n]);
  }

  /** So Redis keeps every promise at every point of a run exactly when no step of it is one of those. */
  lemma PromisesKeptIff(moves: seq<Move>)
    ensures (forall n :: 0 <= n <= |moves| ==> Kept(Run(moves[..n]))) <==> Uncut(moves)
  {
    if Uncut(moves) {
      forall n | 0 <= n <= |moves| ensures Kept(Run(moves[..n])) { UncutKeeps(moves, n); }
    } else {
      var n := FirstCutBreaks(moves);
    }
  }

  // ---- What a cut costs ----

  // No two sections of one key are open.
  ghost predicate Exclusive(w: World) {
    forall u, v :: u in w.open && v in w.open && w.open[u].key == w.open[v].key ==> u == v
  }

  // No extend starts and none takes effect.
  predicate NoExtends(moves: seq<Move>) {
    forall m :: m in moves ==> !m.Extends? && !(m.Happens? && m.e.SendTouch?)
  }

  lemma RunSnoc(moves: seq<Move>, m: Move)
    ensures Run(moves + [m]) == Strike(Run(moves), m)
  {
    assert (moves + [m])[..|moves|] == moves;
  }

  lemma {:induction false} LeaveAll(moves: seq<Move>, others: set<LockValue>) returns (more: seq<Move>)
    requires others <= Run(moves).world.open.Keys
    ensures NoExtends(more)
    ensures var p := Run(moves);
      Run(moves + more) == Pact(World(p.world.sys, p.world.open - others), p.told)
    decreases |others|
  {
    if others == {} {
      assert moves + [] == moves && Run(moves).world.open - others == Run(moves).world.open;
      return [];
    }
    var u :| u in others;
    var first := LeaveAll(moves, others - {u});
    RunSnoc(moves + first, Leaves(u));
    more := first + [Leaves(u)];
    assert moves + more == moves + first + [Leaves(u)];
    assert Run(moves).world.open - (others - {u}) - {u} == Run(moves).world.open - others;
  }

  // Only section v is open, Redis has its lock until `deadline`, and it is promised more.
  ghost predicate Endangered(p: Pact, v: LockValue, key: string, deadline: Time) {
    && p.world.open.Keys == {v} && p.world.open[v].key == key
    && v in p.told && deadline < p.told[v] && p.world.sys.now <= deadline
    && key in p.world.sys.redis && p.world.sys.redis[key].expiry == deadline
    && v < |p.world.sys.makers|
  }

  lemma FreshCall(calls: map<CallId, Call>) returns (c: CallId)
    ensures c !in calls
  {
    c := BoundOf(calls.Keys);
  }

  lemma {:induction false} BoundOf(ids: set<CallId>) returns (bound: CallId)
    ensures forall id :: id in ids ==> id < bound
    decreases |ids|
  {
    if ids == {} {
      return 0;
    }
    var id :| id in ids;
    var rest := BoundOf(ids - {id});
    bound := if rest <= id then id + 1 else rest;
    forall x | x in ids ensures x < bound {
      assert x == id || x in ids - {id};
    }
  }

  // Time runs out in Redis, another caller acquires, and two sections are open within the promise.
  lemma SecondOpens(moves: seq<Move>, v: LockValue, key: string, deadline: Time) returns (more: seq<Move>)
    requires Endangered(Run(moves), v, key, deadline)
    ensures NoExtends(more)
    ensures var p := Run(moves + more);
      && !Exclusive(p.world)
      && v in p.world.open && v in p.told && p.world.sys.now < p.told[v]
  {
    var p := Run(moves);
    var c := FreshCall(p.world.sys.calls);
    var tick := Happens(Tick(deadline - p.world.sys.now));
    var start := Happens(StartAcquire(c, 0, key, 1));
    var sends := Happens(SendSetNX(c, Answered));
    more := [tick, start, sends];
    RunSnoc(moves, tick);
    RunSnoc(moves + [tick], start);
    RunSnoc(moves + [tick] + [start], sends);
    assert moves + more == moves + [tick] + [start] + [sends];
    var p1 := Strike(p, tick);
    assert p1.world == p.world.(sys := p.world.sys.(now := deadline)) && p1.told == p.told;
    AcquireOpens(p1, c, key, v);
  }

  lemma AcquireOpens(p: Pact, c: CallId, key: string, v: LockValue)
    requires c !in p.world.sys.calls && !Live(p.world.sys.redis, p.world.sys.now, key)
    requires v in p.world.open && p.world.open[v].key == key && v < |p.world.sys.makers|
    requires v in p.told && p.world.sys.now < p.told[v]
    ensures var t := Strike(Strike(p, Happens(StartAcquire(c, 0, key, 1))), Happens(SendSetNX(c, Answered)));
      && !Exclusive(t.world)
      && v in t.world.open && v in t.told && t.world.sys.now < t.told[v]
  {
    var p1 := Strike(p, Happens(StartAcquire(c, 0, key, 1)));
    assert p1.world.sys.calls[c] == Call(0, key, Setting(1)) && p1.world.open == p.world.open && p1.told == p.told;
    assert p1.world.sys.redis == p.world.sys.redis && p1.world.sys.now == p.world.sys.now;
    assert p1.world.sys.makers == p.world.sys.makers;
    SetOpens(p1, c, key, v);
  }

  lemma SetOpens(p: Pact, c: CallId, key: string, v: LockValue)
    requires c in p.world.sys.calls && p.world.sys.calls[c] == Call(0, key, Setting(1))
    requires !Live(p.world.sys.redis, p.world.sys.now, key)
    requires v in p.world.open && p.world.open[v].key == key && v < |p.world.sys.makers|
    requires v in p.told && p.world.sys.now < p.told[v]
    ensures var t := Strike(p, Happens(SendSetNX(c, Answered)));
      && !Exclusive(t.world)
      && v in t.world.open && v in t.told && t.world.sys.now < t.told[v]
  {
    var t := Strike(p, Happens(SendSetNX(c, Answered)));
    var u := |p.world.sys.makers|;
    assert t.world.open == p.world.open[u := Lease(0, key, p.world.sys.now + 1)];
    assert t.told == p.told[u := p.world.sys.now + 1];
    assert u != v && t.world.open[u].key == t.world.open[v].key;
  }

  // The world right after a cut, with all other sections left.
  lemma CutLeavesEndangered(moves: seq<Move>, m: Move) returns (more: seq<Move>, v: LockValue, key: string, deadline: Time)
    requires Uncut(moves) && CutsPromise(Run(moves), m)
    ensures NoExtends(more) && Endangered(Run(moves + [m] + more), v, key, deadline)
  {
    RunGuarded(moves);
    var p := Run(moves);
    var call := p.world.sys.calls[m.e.call];
    v, key, deadline := call.phase.value, call.key, p.world.sys.now + call.phase.ttl;
    RunSnoc(moves, m);
    StrikeGuarded(p, m);
    var t := Run(moves + [m]);
    CutSets(p, m);
    more := LeaveAll(moves + [m], t.world.open.Keys - {v});
    assert t.world.open - (t.world.open.Keys - {v}) == map[v := t.world.open[v]];
  }

  lemma CutSets(p: Pact, m: Move)
    requires CutsPromise(p, m)
    ensures var t, call := Strike(p, m), p.world.sys.calls[m.e.call];
      && t.told == p.told && t.world.sys.now == p.world.sys.now
      && t.world.open == p.world.open[call.phase.value := p.world.open[call.phase.value].(deadline := p.world.sys.now + call.phase.ttl)]
  {
  }

  /** A cut always endangers: after the first one, without any further extend, another section can open on
      the same key while the cut one is still within its promise. */
  lemma CutBreaksExclusion(moves: seq<Move>, m: Move) returns (more: seq<Move>, v: LockValue)
    requires Uncut(moves) && CutsPromise(Run(moves), m)
    ensures NoExtends(more)
    ensures var p := Run(moves + [m] + more);
      && !Exclusive(p.world)
      && v in p.world.open && v in p.told && p.world.sys.now < p.told[v]
  {
    var first, key, deadline;
    first, v, key, deadline := CutLeavesEndangered(moves, m);
    var second := SecondOpens(moves + [m] + first, v, key, deadline);
    more := first + second;
    assert moves + [m] + more == moves + [m] + first + second;
  }

  lemma NoExtendsStaysUncut(moves: seq<Move>, more: seq<Move>)
    requires Uncut(moves) && NoExtends(more)
    ensures Uncut(moves + more)
  {
    var all := moves + more;
    forall n | 0 <= n < |all| ensures !CutsPromise(Run(all[..n]), all[n]) {
      if n < |moves| {
        assert all[..n] == moves[..n];
      } else {
        assert all[n] in more;
      }
    }
  }

  // However the callers go on from any point of the run without extends taking effect, they exclude each other.
  ghost predicate SafeThroughout(moves: seq<Move>) {
    forall n, more :: 0 <= n <= |moves| && NoExtends(more) ==> Exclusive(Run(moves[..n] + more).world)
  }

  lemma UncutIsSafe(moves: seq<Move>, n: nat, more: seq<Move>)
    requires Uncut(moves) && n <= |moves| && NoExtends(more)
    ensures Exclusive(Run(moves[..n] + more).world)
  {
    UncutPrefix(moves, n);
    NoExtendsStaysUncut(moves[..n], more);
    RunGuarded(moves[..n] + more);
  }

  lemma CutIsUnsafe(moves: seq<Move>)
    requires !Uncut(moves)
    ensures !SafeThroughout(moves)
  {
    var n := FirstCut(moves);
    var more, v := CutBreaksExclusion(moves[..n], moves[n]);
    RunStep(moves, n);
    assert !Exclusive(Run(moves[..n + 1] + more).world);
  }

  /** Callers that stay within their promises exclude each other, at every point of a run and however it
      goes on from there without extends, exactly when no step of the run cuts a promise. */
  lemma ExclusionIff(moves: seq<Move>)
    ensures SafeThroughout(moves) <==> Uncut(moves)
  {
    if Uncut(moves) {
      forall n, more | 0 <= n <= |moves| && NoExtends(more) ensures Exclusive(Run(moves[..n] + more).world) {
        UncutIsSafe(moves, n, more);
      }
    } else {
      CutIsUnsafe(moves);
    }
  }

  // ---- Careful runs ----

  ghost predicate CarefulRun(moves: seq<Move>) {
    forall n :: 0 <= n < |moves| ==> Careful(Run(moves[..n]), moves[n])
  }

  lemma CarefulPrefix(moves: seq<Move>, n: nat)
    requires CarefulRun(moves) && n <= |moves|
    ensures CarefulRun(moves[..n])
  {
    forall m | 0 <= m < n ensures Careful(Run(moves[..n][..m]), moves[..n][m]) {
      assert moves[..n][..m] == moves[..m];
    }
  }

  // The extends on their way to an open section ask for no less than its promise, one each.
  ghost predicate ExtendsCareful(p: Pact) {
    ExtendsReach(p) && ExtendsApart(p)
  }

  ghost predicate ExtendsReach(p: Pact) {
    var calls := p.world.sys.calls;
    forall c :: c in calls && calls[c].phase.Touching? && calls[c].phase.value in p.world.open ==>
      calls[c].phase.value in p.told && p.told[calls[c].phase.value] <= p.world.sys.now + calls[c].phase.ttl
  }

  ghost predicate ExtendsApart(p: Pact) {
    var calls := p.world.sys.calls;
    forall c, d :: c in calls && d in calls && c != d && calls[c].phase.Touching? && calls[d].phase.Touching?
      ==> calls[c].phase.value !in p.world.open || calls[c].phase.value != calls[d].phase.value
  }

  lemma CarefulNeverCuts(p: Pact, m: Move)
    requires ExtendsReach(p)
    ensures !CutsPromise(p, m)
  {
  }

  // The extends on their way after a step that starts none.
  lemma EventKeepsExtends(s: System, e: Event)
    requires Sound(s) && !e.StartExtend?
    ensures var t := Apply(s, e);
      && (forall c :: c in t.calls && t.calls[c].phase.Touching? ==>
            c in s.calls && t.calls[c] == s.calls[c] && (e.SendTouch? ==> e.call != c))
      && s.now <= t.now
  {
  }

  lemma EventKeepsSections(w: World, e: Event)
    ensures forall v :: v in LeasesAfter(w, e) && v < |w.sys.makers| ==> v in w.open
  {
  }

  lemma EventKeepsCareful(p: Pact, e: Event)
    requires Sound(p.world.sys) && ExtendsCareful(p) && !e.StartExtend?
    ensures ExtendsCareful(Pact(Effect(p.world, Happens(e)), ToldAfter(p, e)))
  {
    EventKeepsExtends(p.world.sys, e);
    EventKeepsSections(p.world, e);
    assert forall c :: c in p.world.sys.calls && p.world.sys.calls[c].phase.Touching? ==>
      p.world.sys.calls[c].phase.value < |p.world.sys.makers|;
    if e.SendTouch? && Renews(p.world, e.call, e.fate) {
      var v := p.world.sys.calls[e.call].phase.value;
      assert forall c :: c in p.world.sys.calls && c != e.call && p.world.sys.calls[c].phase.Touching? ==>
        p.world.sys.calls[c].phase.value != v;
    }
  }

  // The extend reads the section's own value, or one of no open section.
  lemma ExtendsKeepsCareful(p: Pact, c: CallId, mine: LockValue, ttl: Duration)
    requires Guarded(p.world) && ExtendsCareful(p) && Allowed(p.world, Extends(c, mine, ttl)) && Careful(p, Extends(c, mine, ttl))
    ensures ExtendsCareful(Pact(Next(p.world, Extends(c, mine, ttl)), p.told))
  {
    var w, t := p.world, Next(p.world, Extends(c, mine, ttl));
    var lease := w.open[mine];
    var table := TableOf(w.sys.tables, lease.instance);
    assert t.open == w.open && t.sys.now == w.sys.now;
    if lease.key in table {
      var slot := table[lease.key];
      assert t.sys.calls == w.sys.calls[c := Call(lease.instance, lease.key, Touching(slot.ref, slot.value, ttl))];
      assert slot.value in w.open ==> slot.value == mine;
    }
  }

  lemma ReleasesKeepsCareful(p: Pact, c: CallId, mine: LockValue)
    requires ExtendsCareful(p) && Allowed(p.world, Releases(c, mine))
    ensures ExtendsCareful(Pact(Next(p.world, Releases(c, mine)), p.told))
  {
    var w, t := p.world, Next(p.world, Releases(c, mine));
    assert forall d :: d in t.sys.calls && t.sys.calls[d].phase.Touching? ==> d in w.sys.calls && t.sys.calls[d] == w.sys.calls[d];
    assert t.sys.now == w.sys.now && t.open == w.open - {mine};
  }

  lemma StrikeKeepsCareful(p: Pact, m: Move)
    requires Sound(p.world.sys) && Guarded(p.world) && ExtendsCareful(p) && Careful(p, m)
    ensures ExtendsCareful(Strike(p, m))
  {
    if WithinPromise(p, m) {
      match m
      case Happens(e) => EventKeepsCareful(p, e);
      case Releases(c, mine) => ReleasesKeepsCareful(p, c, mine);
      case Extends(c, mine, ttl) => ExtendsKeepsCareful(p, c, mine, ttl);
      case Leaves(_) =>
    }
  }

  /** Callers that are careful with their extends never have a promise cut. */
  lemma {:induction false} CarefulIsUncut(moves: seq<Move>)
    requires CarefulRun(moves)
    ensures Uncut(moves) && ExtendsCareful(Run(moves))
  {
    if moves != [] {
      var n := |moves| - 1;
      CarefulPrefix(moves, n);
      CarefulIsUncut(moves[..n]);
      RunGuarded(moves[..n]);
      StrikeKeepsCareful(Run(moves[..n]), moves[n]);
      CarefulNeverCuts(Run(moves[..n]), moves[n]);
      UncutSnoc(moves, n);
    }
  }

  /** If every caller releases and extends only its own lock, is careful with its extends, and is out
      before the ttl counted from its SET NX or from its last successful extend is over, then no two
      critical sections on one key are ever open at once, on one instance or on several. */
  lemma PromisedExclusion(moves: seq<Move>, u: LockValue, v: LockValue)
    requires CarefulRun(moves)
    requires var w := Run(moves).world; u in w.open && v in w.open && w.open[u].key == w.open[v].key
    ensures u == v
  {
    CarefulIsUncut(moves);
    var ms := UncutIsDisciplined(moves);
    MutualExclusion(ms, u, v);
  }

  /** And every open section has its lock in Redis at least until the deadline it was promised. */
  lemma LockOutlastsPromise(moves: seq<Move>, mine: LockValue)
    requires CarefulRun(moves) && mine in Run(moves).world.open
    ensures var p := Run(moves); var lease := p.world.open[mine];
      && mine in p.told
      && Get(p.world.sys.redis, p.world.sys.now, lease.key) == Some(mine)
      && p.told[mine] <= p.world.sys.redis[lease.key].expiry
  {
    CarefulIsUncut(moves);
    var ms := UncutIsDisciplined(moves);
    OpenSectionHoldsItsLock(ms, mine);
  }
}
