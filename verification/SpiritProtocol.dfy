/** Any number of repository calls in flight on one spirits collection. Create and Update are several
    database commands, RestoreVersion reads before its transaction; each event is one command or one
    transaction. Events that do not apply are ignored, so every sequence of events is a run. */
module SpiritProtocol {
  import opened Wrappers
  import opened TtlStore
  import opened SpiritStore

  type CallId = nat

  datatype Draft = Draft(content: string, changeLog: string, deactivatedAt: Option<Time>)

  datatype Call =
    | Creating(name: string, draft: Draft)
    | Clearing(name: string, read: int, draft: Draft)
    | Inserting(name: string, read: int, draft: Draft)
    | Restoring(name: string, id: Id)

  datatype State = State(now: Time, docs: Docs, calls: map<CallId, Call>)

  // `found`, `hit` and the id of Activate are the documents the database picks among those that match.
  datatype Event =
    | Tick(d: nat)
    | StartCreate(call: CallId, name: string, draft: Draft, answered: bool)
    | InsertFirst(call: CallId, id: Id)
    | StartUpdate(call: CallId, name: string, draft: Draft, found: Id)
    | ClearActive(call: CallId, hit: Option<Id>)
    | InsertNext(call: CallId, id: Id)
    | Activate(name: string, version: int, id: Id)
    | Deactivate(id: Id)
    | StartRestore(call: CallId, id: Id)
    | CommitRestore(call: CallId)
    | Abandon(call: CallId)

  const EMPTY := State(0, map[], map[])

  function Finish(s: State, c: CallId): State {
    s.(calls := s.calls - {c})
  }

  function FirstDoc(name: string, draft: Draft, now: Time): Doc {
    Doc(name, 1, true, false, draft.content, draft.changeLog, now, draft.deactivatedAt)
  }

  function NextDoc(name: string, read: int, draft: Draft, now: Time): Doc {
    Doc(name, read + 1, true, false, draft.content, draft.changeLog, now, None)
  }

  predicate Exists(docs: Docs, name: string) {
    exists id :: id in docs && Servable(docs[id], name)
  }

  // A lookup that fails does not stop Create; only a document found does.
  function DoStartCreate(s: State, c: CallId, name: string, draft: Draft, answered: bool): State {
    if name == "" || (answered && Exists(s.docs, name)) then s
    else s.(calls := s.calls[c := Creating(name, draft)])
  }

  function DoStartUpdate(s: State, c: CallId, name: string, draft: Draft, found: Id): State {
    if name != "" && found in s.docs && Servable(s.docs[found], name)
    then s.(calls := s.calls[c := Clearing(name, s.docs[found].version, draft)])
    else s
  }

  // UpdateOne clears one active document of the name, whichever it hits; matching none is no error.
  predicate Hits(docs: Docs, name: string, hit: Option<Id>) {
    match hit
    case Some(id) => id in docs && docs[id].name == name && docs[id].isActive
    case None => forall id :: id in docs && docs[id].name == name ==> !docs[id].isActive
  }

  function DoClearActive(s: State, c: CallId, call: Call, hit: Option<Id>): State
    requires call.Clearing?
  {
    if !Hits(s.docs, call.name, hit) then s
    else State(s.now, if hit.Some? then Deactivated(s.docs, hit.value) else s.docs,
               s.calls[c := Inserting(call.name, call.read, call.draft)])
  }

  function DoRestore(docs: Docs, name: string, id: Id): Docs {
    var cleared := AllCleared(docs, name);
    if id in cleared then cleared[id := cleared[id].(isActive := true, deactivatedAt := None)] else cleared
  }

  function Apply(s: State, e: Event): State {
    match e
    case Tick(d) => s.(now := s.now + d)
    case StartCreate(c, name, draft, answered) => if c in s.calls then s else DoStartCreate(s, c, name, draft, answered)
    case StartUpdate(c, name, draft, found) => if c in s.calls then s else DoStartUpdate(s, c, name, draft, found)
    case InsertFirst(c, id) =>
      if c in s.calls && s.calls[c].Creating?
      then Finish(s.(docs := InsertOne(s.docs, id, FirstDoc(s.calls[c].name, s.calls[c].draft, s.now))), c) else s
    case ClearActive(c, hit) =>
      if c in s.calls && s.calls[c].Clearing? then DoClearActive(s, c, s.calls[c], hit) else s
    case InsertNext(c, id) =>
      if c in s.calls && s.calls[c].Inserting?
      then Finish(s.(docs := InsertOne(s.docs, id, NextDoc(s.calls[c].name, s.calls[c].read, s.calls[c].draft, s.now))), c)
      else s
    case Activate(name, version, id) =>
      if name != "" && version >= 1 && id in s.docs && s.docs[id].name == name && s.docs[id].version == version
      then s.(docs := Promoted(s.docs, id)) else s
    case Deactivate(id) =>
      if id in s.docs then s.(docs := s.docs[id := s.docs[id].(isActive := false, deactivatedAt := Some(s.now))]) else s
    case StartRestore(c, id) =>
      if c !in s.calls && id in s.docs then s.(calls := s.calls[c := Restoring(s.docs[id].name, id)]) else s
    case CommitRestore(c) =>
      if c in s.calls && s.calls[c].Restoring?
      then Finish(s.(docs := DoRestore(s.docs, s.calls[c].name, s.calls[c].id)), c) else s
    case Abandon(c) => Finish(s, c)
  }

  function Exec(s: State, events: seq<Event>): State {
    if events == [] then s else Apply(Exec(s, events[..|events| - 1]), events[|events| - 1])
  }

  // ---- What every run keeps ----

  // An update has read a version that exists, a restore a document of the name it read.
  ghost predicate CallSound(docs: Docs, call: Call) {
    && ((call.Clearing? || call.Inserting?) ==> HasVersion(docs, call.name, call.read))
    && (call.Restoring? ==> call.id in docs && docs[call.id].name == call.name)
  }

  ghost predicate Stored(s: State) {
    && Indexed(s.docs)
    && Chained(s.docs)
    && (forall c :: c in s.calls ==> CallSound(s.docs, s.calls[c]))
  }

  lemma PreservedKeepsVersions(before: Docs, after: Docs)
    requires Preserved(before, after)
    ensures forall name, v :: HasVersion(before, name, v) ==> HasVersion(after, name, v)
  {
    forall name, v | HasVersion(before, name, v) ensures HasVersion(after, name, v) {
      var id :| id in before && before[id].name == name && before[id].version == v;
      assert SameVersion(before[id], after[id]);
    }
  }

  lemma RestorePreserves(docs: Docs, name: string, id: Id)
    ensures Preserved(docs, DoRestore(docs, name, id)) && DoRestore(docs, name, id).Keys == docs.Keys
  {
  }

  lemma PromotePreserves(docs: Docs, id: Id)
    requires id in docs
    ensures Preserved(docs, Promoted(docs, id)) && Promoted(docs, id).Keys == docs.Keys
  {
  }

  lemma StepPreserves(s: State, e: Event)
    ensures Preserved(s.docs, Apply(s, e).docs)
    ensures e.InsertFirst? || e.InsertNext? || Apply(s, e).docs.Keys == s.docs.Keys
  {
    match e
    case CommitRestore(c) =>
      if c in s.calls && s.calls[c].Restoring? { RestorePreserves(s.docs, s.calls[c].name, s.calls[c].id); }
    case Activate(_, _, id) =>
      if id in s.docs { PromotePreserves(s.docs, id); }
    case InsertFirst(_, _) =>
    case InsertNext(_, _) =>
    case ClearActive(_, _) =>
    case Deactivate(_) =>
    case _ =>
      assert Apply(s, e).docs == s.docs;
  }

  // Flags may change freely as long as no document comes or goes.
  lemma FlagsKeepStored(before: Docs, after: Docs)
    requires Indexed(before) && Chained(before) && Preserved(before, after) && after.Keys == before.Keys
    ensures Indexed(after) && Chained(after)
  {
    PreservedKeepsVersions(before, after);
    forall id | id in after ensures Follows(after, after[id]) {
      assert SameVersion(before[id], after[id]) && Follows(before, before[id]);
    }
  }

  lemma InsertKeepsStored(docs: Docs, id: Id, doc: Doc)
    requires Indexed(docs) && Chained(docs)
    requires Follows(docs, doc)
    ensures Indexed(InsertOne(docs, id, doc)) && Chained(InsertOne(docs, id, doc))
  {
    if !Taken(docs, id, doc) {
      var after := docs[id := doc];
      assert Preserved(docs, after);
      PreservedKeepsVersions(docs, after);
      forall a | a in after ensures Follows(after, after[a]) {
        assert a != id ==> Follows(docs, docs[a]);
      }
    }
  }

  lemma CallsStaySound(s: State, e: Event)
    requires Stored(s)
    ensures forall c :: c in Apply(s, e).calls ==> CallSound(Apply(s, e).docs, Apply(s, e).calls[c])
  {
    var t := Apply(s, e);
    StepPreserves(s, e);
    PreservedKeepsVersions(s.docs, t.docs);
    forall c | c in t.calls ensures CallSound(t.docs, t.calls[c]) {
      if c in s.calls && t.calls[c] == s.calls[c] {
        assert CallSound(s.docs, s.calls[c]);
        if s.calls[c].Restoring? { assert SameVersion(s.docs[s.calls[c].id], t.docs[s.calls[c].id]); }
      } else if e.ClearActive? {
        assert CallSound(s.docs, s.calls[c]);
      }
    }
  }

  lemma StepKeepsStored(s: State, e: Event)
    requires Stored(s)
    ensures Stored(Apply(s, e))
  {
    CallsStaySound(s, e);
    match e
    case InsertFirst(c, id) =>
      if c in s.calls && s.calls[c].Creating? {
        InsertKeepsStored(s.docs, id, FirstDoc(s.calls[c].name, s.calls[c].draft, s.now));
      }
    case InsertNext(c, id) =>
      if c in s.calls && s.calls[c].Inserting? {
        assert CallSound(s.docs, s.calls[c]);
        VersionPositive(s.docs, s.calls[c].name, s.calls[c].read);
        InsertKeepsStored(s.docs, id, NextDoc(s.calls[c].name, s.calls[c].read, s.calls[c].draft, s.now));
      }
    case _ =>
      StepPreserves(s, e);
      FlagsKeepStored(s.docs, Apply(s, e).docs);
  }

  lemma {:induction false} ExecStored(s: State, events: seq<Event>)
    requires Stored(s)
    ensures Stored(Exec(s, events))
  {
    if events != [] {
      ExecStored(s, events[..|events| - 1]);
      StepKeepsStored(Exec(s, events[..|events| - 1]), events[|events| - 1]);
    }
  }

  /** Whatever calls overlap, roll back or break off, the stored versions of every Spirit are exactly
      1..n, each stored once. */
  lemma VersionsNeverGap(events: seq<Event>, name: string)
    ensures Indexed(Exec(EMPTY, events).docs)
    ensures exists n: nat :: VersionsAre(Exec(EMPTY, events).docs, name, n)
  {
    ExecStored(EMPTY, events);
    VersionsAreContiguous(Exec(EMPTY, events).docs, name);
  }

  /** Once stored, a version is never removed, and nothing in it but its active flag and deactivation
      time ever changes. */
  lemma {:induction false} VersionsAreImmutable(events: seq<Event>, later: seq<Event>)
    ensures Preserved(Exec(EMPTY, events).docs, Exec(Exec(EMPTY, events), later).docs)
  {
    if later != [] {
      var s := Exec(EMPTY, events);
      VersionsAreImmutable(events, later[..|later| - 1]);
      ExecStored(EMPTY, events);
      ExecStored(s, later[..|later| - 1]);
      StepPreserves(Exec(s, later[..|later| - 1]), later[|later| - 1]);
    }
  }

  // ---- At most one active version ----

  // An update is between clearing the flag and inserting, and its version is not there yet.
  ghost predicate InWindow(docs: Docs, call: Call, name: string) {
    call.Inserting? && call.name == name && !HasVersion(docs, name, call.read + 1)
  }

  // Activate and RestoreVersion stay out of the windows of updates of the same Spirit.
  ghost predicate Considerate(s: State, e: Event) {
    match e
    case Activate(name, _, _) => forall c :: c in s.calls ==> !InWindow(s.docs, s.calls[c], name)
    case CommitRestore(r) =>
      r in s.calls ==> forall c :: c in s.calls ==> !InWindow(s.docs, s.calls[c], s.calls[r].name)
    case _ => true
  }

  ghost function ExecConsiderate(events: seq<Event>): State {
    if events == [] then EMPTY
    else
      var s := ExecConsiderate(events[..|events| - 1]);
      if Considerate(s, events[|events| - 1]) then Apply(s, events[|events| - 1]) else s
  }

  // The inductive core: while an update is in its window its Spirit has no active version.
  ghost predicate WindowsInactive(s: State) {
    forall c :: c in s.calls && s.calls[c].Inserting? && SomeActive(s.docs, s.calls[c].name) ==>
      HasVersion(s.docs, s.calls[c].name, s.calls[c].read + 1)
  }

  ghost predicate Single(s: State) {
    SingleActive(s.docs) && WindowsInactive(s)
  }

  // Deactivating never makes a Spirit active.
  ghost predicate Dimmed(before: Docs, after: Docs) {
    Preserved(before, after) && after.Keys == before.Keys
      && forall id :: id in before && after[id].isActive ==> before[id].isActive
  }

  lemma DimKeepsSingle(s: State, docs: Docs)
    requires Single(s) && Dimmed(s.docs, docs)
    ensures Single(s.(docs := docs))
    ensures forall name :: SomeActive(docs, name) ==> SomeActive(s.docs, name)
  {
    PreservedKeepsVersions(s.docs, docs);
    assert forall id :: id in s.docs ==> SameVersion(s.docs[id], docs[id]);
    forall name | SomeActive(docs, name) ensures SomeActive(s.docs, name) {
      var id :| id in docs && docs[id].name == name && docs[id].isActive;
      assert id in s.docs && s.docs[id].name == name && s.docs[id].isActive;
    }
  }

  // After an exclusive promotion of a considerately chosen document.
  lemma PromoteKeepsSingle(s: State, docs: Docs, id: Id)
    requires Single(s) && Preserved(s.docs, docs) && docs.Keys == s.docs.Keys && id in docs
    requires forall a :: a in docs && docs[a].name == docs[id].name && a != id ==> !docs[a].isActive
    requires forall a :: a in docs && docs[a].name != docs[id].name ==> docs[a] == s.docs[a]
    requires forall c :: c in s.calls ==> !InWindow(s.docs, s.calls[c], docs[id].name)
    ensures Single(s.(docs := docs))
  {
    PreservedKeepsVersions(s.docs, docs);
    assert forall a :: a in s.docs ==> SameVersion(s.docs[a], docs[a]);
    forall c | c in s.calls && s.calls[c].Inserting? && SomeActive(docs, s.calls[c].name)
      ensures HasVersion(docs, s.calls[c].name, s.calls[c].read + 1)
    {
      if s.calls[c].name == docs[id].name {
        assert !InWindow(s.docs, s.calls[c], docs[id].name);
      } else {
        var a :| a in docs && docs[a].name == s.calls[c].name && docs[a].isActive;
        assert a in s.docs && s.docs[a].name == s.calls[c].name && s.docs[a].isActive;
      }
    }
  }

  // A new active version may enter when its Spirit has none, and must be the next one of every window.
  lemma InsertKeepsSingle(s: State, id: Id, doc: Doc)
    requires Single(s) && !Taken(s.docs, id, doc) && !SomeActive(s.docs, doc.name)
    requires forall c :: c in s.calls && InWindow(s.docs, s.calls[c], doc.name) ==> s.calls[c].read + 1 == doc.version
    ensures Single(s.(docs := s.docs[id := doc]))
  {
    var docs := s.docs[id := doc];
    assert Preserved(s.docs, docs);
    PreservedKeepsVersions(s.docs, docs);
    assert HasVersion(docs, doc.name, doc.version) by { assert id in docs; }
    assert forall a :: a in docs && a != id ==> a in s.docs && docs[a] == s.docs[a];
    forall c | c in s.calls && s.calls[c].Inserting? && SomeActive(docs, s.calls[c].name)
      ensures HasVersion(docs, s.calls[c].name, s.calls[c].read + 1)
    {
      if s.calls[c].name == doc.name {
        assert InWindow(s.docs, s.calls[c], doc.name) || HasVersion(s.docs, doc.name, s.calls[c].read + 1);
      } else {
        var a :| a in docs && docs[a].name == s.calls[c].name && docs[a].isActive;
        assert SomeActive(s.docs, s.calls[c].name) by { assert a in s.docs; }
      }
    }
  }

  // If read + 1 is missing, read is the highest version and every other pending version exists.
  lemma OnlyNextIsMissing(docs: Docs, name: string, read: int, other: int)
    requires Chained(docs) && HasVersion(docs, name, read) && HasVersion(docs, name, other)
    requires !HasVersion(docs, name, read + 1) && !HasVersion(docs, name, other + 1)
    ensures other == read
  {
    VersionPositive(docs, name, read);
    VersionPositive(docs, name, other);
    if other < read { VersionsBelow(docs, name, read, other + 1); }
    if read < other { VersionsBelow(docs, name, other, read + 1); }
  }

  lemma NoFirstNoOther(docs: Docs, name: string)
    requires Chained(docs) && !HasVersion(docs, name, 1)
    ensures forall id :: id in docs ==> docs[id].name != name
  {
    forall id | id in docs && docs[id].name == name ensures false {
      VersionPositive(docs, name, docs[id].version);
      VersionsBelow(docs, name, docs[id].version, 1);
    }
  }

  lemma InsertFirstKeepsSingle(s: State, c: CallId, id: Id)
    requires Stored(s) && Single(s) && c in s.calls && s.calls[c].Creating?
    ensures Single(s.(docs := InsertOne(s.docs, id, FirstDoc(s.calls[c].name, s.calls[c].draft, s.now))))
  {
    var name, doc := s.calls[c].name, FirstDoc(s.calls[c].name, s.calls[c].draft, s.now);
    if !Taken(s.docs, id, doc) {
      NoFirstNoOther(s.docs, name);
      assert forall d :: d in s.calls ==> CallSound(s.docs, s.calls[d]);
      InsertKeepsSingle(s, id, doc);
    }
  }

  lemma InsertNextKeepsSingle(s: State, c: CallId, id: Id)
    requires Stored(s) && Single(s) && c in s.calls && s.calls[c].Inserting?
    ensures Single(s.(docs := InsertOne(s.docs, id, NextDoc(s.calls[c].name, s.calls[c].read, s.calls[c].draft, s.now))))
  {
    var name, read := s.calls[c].name, s.calls[c].read;
    var doc := NextDoc(name, read, s.calls[c].draft, s.now);
    if !Taken(s.docs, id, doc) {
      assert !HasVersion(s.docs, name, read + 1);
      forall d | d in s.calls && InWindow(s.docs, s.calls[d], name)
        ensures s.calls[d].read + 1 == doc.version
      {
        assert CallSound(s.docs, s.calls[c]) && CallSound(s.docs, s.calls[d]);
        OnlyNextIsMissing(s.docs, name, read, s.calls[d].read);
      }
      InsertKeepsSingle(s, id, doc);
    }
  }

  lemma ClearActiveKeepsSingle(s: State, c: CallId, hit: Option<Id>)
    requires Single(s) && c in s.calls && s.calls[c].Clearing?
    ensures Single(DoClearActive(s, c, s.calls[c], hit))
  {
    var name := s.calls[c].name;
    if Hits(s.docs, name, hit) {
      var docs := if hit.Some? then Deactivated(s.docs, hit.value) else s.docs;
      DimKeepsSingle(s, docs);
      assert !SomeActive(docs, name);
    }
  }

  lemma CommitRestoreKeepsSingle(s: State, c: CallId)
    requires Stored(s) && Single(s) && c in s.calls && s.calls[c].Restoring? && Considerate(s, CommitRestore(c))
    ensures Single(s.(docs := DoRestore(s.docs, s.calls[c].name, s.calls[c].id)))
  {
    assert CallSound(s.docs, s.calls[c]);
    RestorePreserves(s.docs, s.calls[c].name, s.calls[c].id);
    PromoteKeepsSingle(s, DoRestore(s.docs, s.calls[c].name, s.calls[c].id), s.calls[c].id);
  }

  lemma ActivateKeepsSingle(s: State, id: Id)
    requires Single(s) && id in s.docs
    requires forall c :: c in s.calls ==> !InWindow(s.docs, s.calls[c], s.docs[id].name)
    ensures Single(s.(docs := Promoted(s.docs, id)))
  {
    PromotePreserves(s.docs, id);
    PromoteKeepsSingle(s, Promoted(s.docs, id), id);
  }

  // Calls may end, or begin before their window.
  lemma CallsKeepSingle(s: State, t: State)
    requires Single(s) && t.docs == s.docs
    requires forall c :: c in t.calls && t.calls[c].Inserting? ==> c in s.calls && t.calls[c] == s.calls[c]
    ensures Single(t)
  {
  }

  // What a step does to the documents, before its call moves on.
  lemma WriteKeepsSingle(s: State, e: Event)
    requires Stored(s) && Single(s) && Considerate(s, e) && !e.ClearActive?
    ensures Single(s.(docs := Apply(s, e).docs))
  {
    match e
    case InsertFirst(c, id) =>
      if c in s.calls && s.calls[c].Creating? { InsertFirstKeepsSingle(s, c, id); }
    case InsertNext(c, id) =>
      if c in s.calls && s.calls[c].Inserting? { InsertNextKeepsSingle(s, c, id); }
    case Activate(name, version, id) =>
      if name != "" && version >= 1 && id in s.docs && s.docs[id].name == name && s.docs[id].version == version {
        ActivateKeepsSingle(s, id);
      }
    case CommitRestore(c) =>
      if c in s.calls && s.calls[c].Restoring? { CommitRestoreKeepsSingle(s, c); }
    case Deactivate(id) =>
      if id in s.docs { DimKeepsSingle(s, Apply(s, e).docs); }
    case _ =>
  }

  lemma StepKeepsSingle(s: State, e: Event)
    requires Stored(s) && Single(s) && Considerate(s, e)
    ensures Single(Apply(s, e))
  {
    if e.ClearActive? {
      if e.call in s.calls && s.calls[e.call].Clearing? { ClearActiveKeepsSingle(s, e.call, e.hit); }
    } else {
      WriteKeepsSingle(s, e);
      CallsKeepSingle(s.(docs := Apply(s, e).docs), Apply(s, e));
    }
  }

  lemma {:induction false} ExecConsiderateSingle(events: seq<Event>)
    ensures Stored(ExecConsiderate(events)) && Single(ExecConsiderate(events))
  {
    if events != [] {
      var s := ExecConsiderate(events[..|events| - 1]);
      ExecConsiderateSingle(events[..|events| - 1]);
      StepKeepsStored(s, events[|events| - 1]);
      if Considerate(s, events[|events| - 1]) { StepKeepsSingle(s, events[|events| - 1]); }
    }
  }

  /** Any number of Create, Update and Deactivate calls, interleaved command by command, together with
      Activate and RestoreVersion transactions that keep out of the updates' windows, leave at most one
      active version per Spirit at every point. */
  lemma AtMostOneActive(events: seq<Event>)
    ensures SingleActive(ExecConsiderate(events).docs)
  {
    ExecConsiderateSingle(events);
  }

  // The insert of an update that still misses its version, under a fresh id, when something of its Spirit
  // has been activated since it cleared the flag.
  ghost predicate InsertsBesideActive(s: State, e: Event) {
    && e.InsertNext? && e.call in s.calls && s.calls[e.call].Inserting?
    && e.id !in s.docs
    && !HasVersion(s.docs, s.calls[e.call].name, s.calls[e.call].read + 1)
    && SomeActive(s.docs, s.calls[e.call].name)
  }

  lemma InsertNextSingleIff(s: State, c: CallId, id: Id)
    requires SingleActive(s.docs) && c in s.calls && s.calls[c].Inserting?
    ensures SingleActive(Apply(s, InsertNext(c, id)).docs) <==> !InsertsBesideActive(s, InsertNext(c, id))
  {
    var name := s.calls[c].name;
    var doc := NextDoc(name, s.calls[c].read, s.calls[c].draft, s.now);
    if id !in s.docs && !HasVersion(s.docs, name, s.calls[c].read + 1) {
      assert !Taken(s.docs, id, doc);
      var after := s.docs[id := doc];
      if SomeActive(s.docs, name) {
        var a :| a in s.docs && s.docs[a].name == name && s.docs[a].isActive;
        assert a in after && after[a].isActive && after[a].name == name && after[id].isActive;
        assert !SingleActive(after);
      }
    }
  }

  lemma InsertFirstStaysSingle(s: State, c: CallId, id: Id)
    requires Stored(s) && SingleActive(s.docs) && c in s.calls && s.calls[c].Creating?
    ensures SingleActive(Apply(s, InsertFirst(c, id)).docs)
  {
    var doc := FirstDoc(s.calls[c].name, s.calls[c].draft, s.now);
    if !Taken(s.docs, id, doc) { NoFirstNoOther(s.docs, s.calls[c].name); }
  }

  lemma ActivateStaysSingle(docs: Docs, id: Id)
    requires SingleActive(docs) && id in docs
    ensures SingleActive(Promoted(docs, id))
  {
  }

  lemma RestoreStaysSingle(docs: Docs, name: string, id: Id)
    requires SingleActive(docs) && id in docs && docs[id].name == name
    ensures SingleActive(DoRestore(docs, name, id))
  {
  }

  lemma ClearActiveStaysSingle(s: State, c: CallId, call: Call, hit: Option<Id>)
    requires SingleActive(s.docs) && call.Clearing?
    ensures SingleActive(DoClearActive(s, c, call, hit).docs)
  {
  }

  /** The side condition is exact, and no other command can break the guarantee: in any reachable state
      with at most one active version each, a step makes two versions of a Spirit active precisely when it
      is such an insert. */
  lemma BreaksSingleIff(events: seq<Event>, e: Event)
    requires SingleActive(Exec(EMPTY, events).docs)
    ensures !SingleActive(Apply(Exec(EMPTY, events), e).docs) <==> InsertsBesideActive(Exec(EMPTY, events), e)
  {
    var s := Exec(EMPTY, events);
    ExecStored(EMPTY, events);
    match e
    case InsertNext(c, id) =>
      if c in s.calls && s.calls[c].Inserting? { InsertNextSingleIff(s, c, id); }
    case InsertFirst(c, id) =>
      if c in s.calls && s.calls[c].Creating? { InsertFirstStaysSingle(s, c, id); }
    case CommitRestore(c) =>
      if c in s.calls && s.calls[c].Restoring? {
        assert CallSound(s.docs, s.calls[c]);
        RestoreStaysSingle(s.docs, s.calls[c].name, s.calls[c].id);
      }
    case Activate(_, _, id) =>
      if id in s.docs { ActivateStaysSingle(s.docs, id); }
    case ClearActive(c, hit) =>
      if c in s.calls && s.calls[c].Clearing? { ClearActiveStaysSingle(s, c, s.calls[c], hit); }
    case Deactivate(_) =>
    case _ =>
      assert Apply(s, e).docs == s.docs;
  }

  // Of this Spirit exactly this document is active.
  ghost predicate OnlyActive(docs: Docs, name: string, id: Id) {
    && id in docs && docs[id].name == name
    && forall a :: a in docs && docs[a].name == name ==> (docs[a].isActive <==> a == id)
  }

  // The document that an Activate, or the transaction of a RestoreVersion, makes active.
  function PromotedBy(s: State, e: Event): Option<Id> {
    if e.Activate? && e.name != "" && e.version >= 1 && e.id in s.docs && s.docs[e.id].name == e.name && s.docs[e.id].version == e.version
    then Some(e.id)
    else if e.CommitRestore? && e.call in s.calls && s.calls[e.call].Restoring? then Some(s.calls[e.call].id)
    else None
  }

  /** A Spirit with two active versions does not stay so: in any reachable state, the next Activate or
      RestoreVersion of the Spirit leaves the document it names as the only active one, and every other
      Spirit as it was. */
  lemma PromotionHeals(events: seq<Event>, e: Event)
    requires PromotedBy(Exec(EMPTY, events), e).Some?
    ensures var s := Exec(EMPTY, events); var id, docs := PromotedBy(s, e).value, Apply(s, e).docs;
      && id in s.docs
      && OnlyActive(docs, s.docs[id].name, id)
      && (forall a :: a in s.docs && s.docs[a].name != s.docs[id].name ==> a in docs && docs[a] == s.docs[a])
  {
    var s := Exec(EMPTY, events);
    ExecStored(EMPTY, events);
    if e.CommitRestore? { assert CallSound(s.docs, s.calls[e.call]); }
  }

  // ---- One update per version ----

  // The insert that ends an update takes effect.
  ghost predicate Lands(s: State, e: Event) {
    && e.InsertNext? && e.call in s.calls && s.calls[e.call].Inserting?
    && Apply(s, e).docs != s.docs
  }

  lemma LandingFills(s: State, e: Event)
    requires Lands(s, e)
    ensures !HasVersion(s.docs, s.calls[e.call].name, s.calls[e.call].read + 1)
    ensures HasVersion(Apply(s, e).docs, s.calls[e.call].name, s.calls[e.call].read + 1)
  {
    var doc := NextDoc(s.calls[e.call].name, s.calls[e.call].read, s.calls[e.call].draft, s.now);
    assert !Taken(s.docs, e.id, doc);
    assert e.id in Apply(s, e).docs && Apply(s, e).docs[e.id] == doc;
  }

  lemma {:induction false} PreservedBetween(events: seq<Event>, m: nat, n: nat)
    requires m <= n <= |events|
    ensures Preserved(Exec(EMPTY, events[..m]).docs, Exec(EMPTY, events[..n]).docs)
    decreases n
  {
    if m < n {
      assert events[..n][..n - 1] == events[..n - 1];
      PreservedBetween(events, m, n - 1);
      StepPreserves(Exec(EMPTY, events[..n - 1]), events[n - 1]);
    }
  }

  lemma LaterReadsHigher(s: State, t: State, c: CallId, d: CallId)
    requires Stored(t) && c in s.calls && s.calls[c].Inserting? && d in t.calls && t.calls[d].Inserting?
    requires s.calls[c].name == t.calls[d].name
    requires HasVersion(t.docs, s.calls[c].name, s.calls[c].read + 1)
    requires !HasVersion(t.docs, t.calls[d].name, t.calls[d].read + 1)
    ensures s.calls[c].read < t.calls[d].read
  {
    assert CallSound(t.docs, t.calls[d]);
    VersionPositive(t.docs, t.calls[d].name, t.calls[d].read);
    if t.calls[d].read <= s.calls[c].read {
      VersionsBelow(t.docs, t.calls[d].name, s.calls[c].read + 1, t.calls[d].read + 1);
    }
  }

  /** The index lets every version be written by one update only: of any two updates of a Spirit whose
      inserts take effect in a run, the later one had read a higher version. So of updates that read the
      same version all but the first to insert change nothing any more. */
  lemma UpdatesLandInOrder(events: seq<Event>, m: nat, n: nat)
    requires m < n < |events|
    requires var s, t := Exec(EMPTY, events[..m]), Exec(EMPTY, events[..n]);
      Lands(s, events[m]) && Lands(t, events[n]) && s.calls[events[m].call].name == t.calls[events[n].call].name
    ensures var s, t := Exec(EMPTY, events[..m]), Exec(EMPTY, events[..n]);
      s.calls[events[m].call].read < t.calls[events[n].call].read
  {
    var s, t := Exec(EMPTY, events[..m]), Exec(EMPTY, events[..n]);
    assert events[..m + 1][..m] == events[..m];
    PreservedBetween(events, m + 1, n);
    PreservedKeepsVersions(Exec(EMPTY, events[..m + 1]).docs, t.docs);
    LandingFills(s, events[m]);
    LandingFills(t, events[n]);
    ExecStored(EMPTY, events[..n]);
    LaterReadsHigher(s, t, events[m].call, events[n].call);
  }

  lemma ExecStep(events: seq<Event>, e: Event)
    ensures Exec(EMPTY, events + [e]) == Apply(Exec(EMPTY, events), e)
  {
    assert (events + [e])[..|events + [e]| - 1] == events;
  }

  function CreateOne(name: string, d: Draft, a: Id): seq<Event> {
    [StartCreate(0, name, d, true)] + [InsertFirst(0, a)]
  }

  function UpdateUpToClear(name: string, d: Draft, a: Id): seq<Event> {
    CreateOne(name, d, a) + [StartUpdate(0, name, d, a)] + [ClearActive(0, Some(a))]
  }

  lemma CreateOneRuns(name: string, d: Draft, a: Id)
    requires name != ""
    ensures Exec(EMPTY, CreateOne(name, d, a)) == State(0, map[a := FirstDoc(name, d, 0)], map[])
  {
    var e1 := [StartCreate(0, name, d, true)];
    ExecStep([], StartCreate(0, name, d, true));
    assert [] + e1 == e1;
    assert Exec(EMPTY, e1) == State(0, map[], map[0 := Creating(name, d)]);
    ExecStep(e1, InsertFirst(0, a));
  }

  lemma UpdateUpToClearRuns(name: string, d: Draft, a: Id)
    requires name != ""
    ensures Exec(EMPTY, UpdateUpToClear(name, d, a)) ==
      State(0, map[a := FirstDoc(name, d, 0).(isActive := false)], map[0 := Inserting(name, 1, d)])
  {
    CreateOneRuns(name, d, a);
    var e2 := CreateOne(name, d, a);
    var e3 := e2 + [StartUpdate(0, name, d, a)];
    ExecStep(e2, StartUpdate(0, name, d, a));
    assert Exec(EMPTY, e3) == State(0, map[a := FirstDoc(name, d, 0)], map[0 := Clearing(name, 1, d)]);
    ExecStep(e3, ClearActive(0, Some(a)));
  }

  /** It is reachable: an Activate that lands between an Update's clear and its insert leaves versions 1
      and 2 of the Spirit both active. */
  lemma ActivateInWindowBreaksSingle(name: string, d: Draft, a: Id, b: Id)
    requires name != "" && a != b
    ensures exists events :: var docs := Exec(EMPTY, events).docs;
      docs == map[a := FirstDoc(name, d, 0), b := NextDoc(name, 1, d, 0)] && !SingleActive(docs)
  {
    var first := FirstDoc(name, d, 0);
    var cleared := first.(isActive := false);
    var e4 := UpdateUpToClear(name, d, a);
    UpdateUpToClearRuns(name, d, a);
    var e5 := e4 + [Activate(name, 1, a)];
    ExecStep(e4, Activate(name, 1, a));
    assert Promoted(map[a := cleared], a) == map[a := first];
    assert Exec(EMPTY, e5) == State(0, map[a := first], map[0 := Inserting(name, 1, d)]);
    var e6 := e5 + [InsertNext(0, b)];
    ExecStep(e5, InsertNext(0, b));
    var docs := Exec(EMPTY, e6).docs;
    assert docs == map[a := first, b := NextDoc(name, 1, d, 0)];
    assert !SingleActive(docs) by { assert a in docs && b in docs && docs[a].isActive && docs[b].isActive; }
  }

  /** An Update that breaks off between its clear and its insert leaves its Spirit with no active version,
      and no call on its way to give it one. */
  lemma AbandonedUpdateLeavesNone(name: string, d: Draft, a: Id)
    requires name != ""
    ensures exists events :: var s := Exec(EMPTY, events);
      s.calls == map[] && s.docs == map[a := FirstDoc(name, d, 0).(isActive := false)] && !SomeActive(s.docs, name)
  {
    var e4 := UpdateUpToClear(name, d, a);
    UpdateUpToClearRuns(name, d, a);
    ExecStep(e4, Abandon(0));
    var s := Exec(EMPTY, e4 + [Abandon(0)]);
    assert s.calls == map[];
  }
}
