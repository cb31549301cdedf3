/** mongo/spirit_repository.go run one call at a time, in its own form: the collection is a field, and
    each method issues the same commands in the same order. Ids, clock readings and the order of a
    cursor come from outside. What overlapping calls do is the subject of SpiritProtocol. */
module Spirits {
  import opened Wrappers
  import opened TtlStore
  import opened SpiritStore
  import opened SpiritProtocol

  datatype SpiritError = InvalidInput | NotFound | Conflict | DuplicateKey

  // What every run of SpiritProtocol keeps, whatever overlaps.
  ghost predicate Versioned(docs: Docs) {
    Indexed(docs) && Chained(docs)
  }

  ghost predicate Consistent(docs: Docs) {
    Versioned(docs) && SingleActive(docs)
  }

  // At most one active version each, of all Spirits but this one.
  ghost predicate OthersSingle(docs: Docs, name: string) {
    forall a, b :: a in docs && b in docs && docs[a].name == docs[b].name && docs[a].isActive && docs[b].isActive
      ==> docs[a].name == name || a == b
  }

  // The one document FindActiveByName can return.
  ghost function ActiveOf(docs: Docs, name: string): Option<Doc> {
    if id :| id in docs && Servable(docs[id], name) then Some(docs[id]) else None
  }

  lemma ActiveOfIs(docs: Docs, name: string, id: Id)
    requires id in docs && Servable(docs[id], name)
    requires forall a :: a in docs && Servable(docs[a], name) ==> a == id
    ensures ActiveOf(docs, name) == Some(docs[id])
  {
  }

  class SpiritRepository {
    var docs: Docs

    ghost predicate Valid()
      reads this
    {
      Consistent(docs)
    }

    constructor ()
      ensures Valid() && docs == map[]
    {
      docs := map[];
    }

    method FindActiveByName(name: string) returns (r: Result<Doc, SpiritError>)
      requires Valid()
      ensures name == "" ==> r == Failure(InvalidInput)
      ensures name != "" ==> r == match ActiveOf(docs, name) case Some(doc) => Success(doc) case None => Failure(NotFound)
      ensures r.Success? ==> exists id :: id in docs && docs[id] == r.value
      ensures r.Success? ==> r.value.name == name && r.value.isActive && !r.value.isDeleted
      ensures r == Failure(NotFound) <==>
        name != "" && forall id :: id in docs && docs[id].name == name && docs[id].isActive ==> docs[id].isDeleted
    {
      if name == "" {
        return Failure(InvalidInput);
      }
      if id :| id in docs && Servable(docs[id], name) {
        return Success(docs[id]);
      }
      return Failure(NotFound);
    }

    // The documents of an $in query, in whatever order the cursor yields them.
    method Find(names: seq<string>) returns (cursor: seq<Doc>)
      ensures forall doc :: doc in cursor <==>
        exists id :: id in docs && docs[id] == doc && doc.name in names && doc.isActive && !doc.isDeleted
    {
      cursor := [];
      var pending := docs.Keys;
      while pending != {}
        invariant pending <= docs.Keys
        invariant forall doc :: doc in cursor <==>
          exists id :: id in docs && id !in pending && docs[id] == doc && doc.name in names && Servable(doc, doc.name)
        decreases |pending|
      {
        var id :| id in pending;
        ghost var before := cursor;
        if docs[id].name in names && Servable(docs[id], docs[id].name) {
          cursor := cursor + [docs[id]];
        }
        pending := pending - {id};
        assert forall doc :: doc in cursor <==> doc in before || (doc == docs[id] && doc in cursor);
      }
    }

    /** One query for many names returns exactly what asking for each name would. */
    method FindActiveByNames(names: seq<string>) returns (r: map<string, Doc>)
      requires Valid()
      ensures forall name :: name in r <==> name in names && ActiveOf(docs, name).Some?
      ensures forall name :: name in r ==> ActiveOf(docs, name) == Some(r[name])
      ensures forall name :: name in r ==> r[name].name == name && r[name].isActive && !r[name].isDeleted
    {
      if |names| == 0 {
        return map[];
      }
      var cursor := Find(names);
      r := map[];
      for i := 0 to |cursor|
        invariant forall name :: name in r ==> name in names && ActiveOf(docs, name) == Some(r[name])
        invariant forall j :: 0 <= j < i ==> cursor[j].name in r
      {
        assert cursor[i] in cursor;
        r := r[cursor[i].name := cursor[i]];
      }
      forall name | name in names && ActiveOf(docs, name).Some? ensures name in r {
        var id :| id in docs && Servable(docs[id], name);
        assert docs[id] in cursor;
      }
    }

    /** Create succeeds exactly for a name that has no version at all: a Spirit whose versions are all
        inactive is not found by the lookup and then refused by the unique index. */
    method Create(name: string, draft: Draft, id: Id, now: Time) returns (r: Result<(), SpiritError>)
      requires Valid()
      modifies this
      ensures Valid()
      ensures r.Success? <==> name != "" && id !in old(docs) && !HasVersion(old(docs), name, 1)
      ensures r == Failure(Conflict) <==> name != "" && ActiveOf(old(docs), name).Some?
      ensures r == Failure(InvalidInput) <==> name == ""
      ensures r.Failure? ==> docs == old(docs)
      ensures r.Success? ==>
        id in docs && docs == old(docs)[id := docs[id]] && ActiveOf(docs, name) == Some(docs[id])
      ensures r.Success? ==> var d := docs[id];
        && d.name == name && d.version == 1 && d.isActive && !d.isDeleted
        && d.content == draft.content && d.changeLog == draft.changeLog
        && d.createdAt == now && d.deactivatedAt == draft.deactivatedAt
    {
      var found := FindActiveByName(name);
      if name == "" {
        return Failure(InvalidInput);
      }
      if found.Success? {
        ghost var known :| known in docs && Servable(docs[known], name);
        assert HasVersion(docs, name, docs[known].version);
        VersionPositive(docs, name, docs[known].version);
        VersionsBelow(docs, name, docs[known].version, 1);
        return Failure(Conflict);
      }
      var doc := FirstDoc(name, draft, now);
      if Taken(docs, id, doc) {
        return Failure(DuplicateKey);
      }
      NoFirstNoOther(docs, name);
      InsertKeepsConsistent(docs, id, doc);
      docs := docs[id := doc];
      ActiveOfIs(docs, name, id);
      return Success(());
    }

    /** Update succeeds exactly when the active version is the highest. After a rollback to an older
        version it clears the flag, collides with the unique index, and leaves the Spirit inactive. */
    method Update(name: string, draft: Draft, id: Id, now: Time) returns (r: Result<Doc, SpiritError>, ghost was: Id)
      requires Valid() && id !in docs
      modifies this
      ensures Valid()
      ensures name == "" ==> r == Failure(InvalidInput)
      ensures name != "" && ActiveOf(old(docs), name).None? ==> r == Failure(NotFound)
      ensures r == Failure(InvalidInput) || r == Failure(NotFound) ==> docs == old(docs)
      ensures name != "" && ActiveOf(old(docs), name).Some? ==>
        && was in old(docs) && ActiveOf(old(docs), name) == Some(old(docs)[was])
        && (r.Success? <==> Highest(old(docs), was))
        && (r.Failure? ==> r.error == DuplicateKey && docs == old(docs)[was := old(docs)[was].(isActive := false)])
        && ActiveOf(docs, name) == (if r.Success? then Some(r.value) else None)
      ensures r.Success? ==> docs == old(docs)[was := old(docs)[was].(isActive := false)][id := r.value]
      ensures r.Success? ==> var d := r.value;
        && d.name == name && d.version == old(docs)[was].version + 1 && d.isActive && !d.isDeleted
        && d.content == draft.content && d.changeLog == draft.changeLog
        && d.createdAt == now && d.deactivatedAt == None
    {
      var current := FindActiveByName(name);
      was := id;
      if current.Failure? {
        return Failure(current.error), was;
      }
      var newVersion := NextDoc(name, current.value.version, draft, now);
      was :| was in docs && Servable(docs[was], name) && docs[was] == current.value;
      NextIsFreeIffHighest(docs, was);
      UpdateKeepsConsistent(docs, was, id, newVersion);
      if hit :| hit in docs && docs[hit].name == name && docs[hit].isActive {
        docs := Deactivated(docs, hit);
      }
      if Taken(docs, id, newVersion) {
        return Failure(DuplicateKey), was;
      }
      docs := docs[id := newVersion];
      ActiveOfIs(docs, name, id);
      return Success(newVersion), was;
    }

    /** Activate leaves exactly the named version active, however many were before, or, when there is no
        such version, rolls back and leaves everything as it was. */
    method Activate(name: string, version: int) returns (r: Result<(), SpiritError>)
      requires Versioned(docs)
      modifies this
      ensures Versioned(docs) && (old(Valid()) ==> Valid())
      ensures r.Success? ==> (Valid() <==> OthersSingle(old(docs), name))
      ensures r.Success? <==> name != "" && HasVersion(old(docs), name, version)
      ensures r == Failure(InvalidInput) <==> name == "" || version < 1
      ensures r == Failure(NotFound) <==> name != "" && version >= 1 && !HasVersion(old(docs), name, version)
      ensures r.Failure? ==> docs == old(docs)
      ensures r.Success? ==> Preserved(old(docs), docs) && docs.Keys == old(docs).Keys
      ensures r.Success? ==> forall id :: id in docs && docs[id].name == name ==>
        docs[id] == old(docs)[id].(isActive := docs[id].version == version)
      ensures r.Success? ==> forall id :: id in docs && docs[id].name != name ==> docs[id] == old(docs)[id]
    {
      if name == "" || version < 1 {
        assert HasVersion(docs, name, version) ==> name == "" by {
          if HasVersion(docs, name, version) { VersionPositive(docs, name, version); }
        }
        return Failure(InvalidInput);
      }
      var cleared := AllCleared(docs, name);
      if hit :| hit in cleared && cleared[hit].name == name && cleared[hit].version == version {
        PromotionIsExclusive(docs, hit);
        docs := cleared[hit := cleared[hit].(isActive := true)];
        return Success(());
      }
      assert forall id :: id in docs ==> id in cleared && cleared[id].name == docs[id].name && cleared[id].version == docs[id].version;
      return Failure(NotFound);
    }

    /** The history of a Spirit is its versions n, n-1, ..., 1, whatever was rolled back or deactivated. */
    method FindVersionHistory(name: string) returns (r: Result<seq<Doc>, SpiritError>)
      requires Versioned(docs)
      ensures r == Failure(InvalidInput) <==> name == ""
      ensures r.Success? ==> VersionsAre(docs, name, |r.value|)
      ensures r.Success? ==> forall j :: 0 <= j < |r.value| ==> r.value[j].version == |r.value| - j
      ensures r.Success? ==> forall j :: 0 <= j < |r.value| ==>
        exists id :: id in docs && docs[id] == r.value[j] && docs[id].name == name
    {
      if name == "" {
        return Failure(InvalidInput);
      }
      ghost var n := HighestVersion(docs, name, docs.Keys);
      VersionsUpTo(docs, name, n);
      // The cursor, sorted by version: each step takes the highest version not yet returned.
      var pending := set id | id in docs && docs[id].name == name;
      var history: seq<Doc> := [];
      while pending != {}
        invariant forall id :: id in pending <==> id in docs && docs[id].name == name && docs[id].version <= n - |history|
        invariant |history| <= n
        invariant forall j :: 0 <= j < |history| ==>
          history[j].version == n - j && exists id :: id in docs && docs[id] == history[j] && docs[id].name == name
        decreases |pending|
      {
        var top := HighestOf(pending);
        NextHighest(docs, name, n, n - |history|, top);
        history := history + [docs[top]];
        pending := pending - {top};
      }
      assert HasVersion(docs, name, n - |history|) <==> |history| < n;
      return Success(history);
    }

    method HighestOf(ids: set<Id>) returns (top: Id)
      requires ids != {} && ids <= docs.Keys
      ensures top in ids && forall id :: id in ids ==> docs[id].version <= docs[top].version
    {
      top :| top in ids;
      var rest := ids - {top};
      while rest != {}
        invariant rest <= ids && top in ids
        invariant forall id :: id in ids && id !in rest ==> docs[id].version <= docs[top].version
        decreases |rest|
      {
        var id :| id in rest;
        if docs[top].version < docs[id].version {
          top := id;
        }
        rest := rest - {id};
      }
    }

    method Deactivate(id: Id, now: Time) returns (r: Result<(), SpiritError>)
      requires Versioned(docs)
      modifies this
      ensures Versioned(docs) && (old(Valid()) ==> Valid())
      ensures r.Success? <==> id != ""
      ensures docs == if id != "" && id in old(docs)
        then old(docs)[id := old(docs)[id].(isActive := false, deactivatedAt := Some(now))] else old(docs)
    {
      if id == "" {
        return Failure(InvalidInput);
      }
      if id in docs {
        ghost var before := docs;
        docs := docs[id := docs[id].(isActive := false, deactivatedAt := Some(now))];
        FlagsKeepStored(before, docs);
      }
      return Success(());
    }

    /** RestoreVersion makes the given document the only active version of its Spirit, however many were
        active before. */
    method RestoreVersion(id: Id) returns (r: Result<(), SpiritError>)
      requires Versioned(docs)
      modifies this
      ensures Versioned(docs) && (old(Valid()) ==> Valid())
      ensures r.Success? <==> id != "" && id in old(docs)
      ensures r.Success? ==> (Valid() <==> OthersSingle(old(docs), old(docs)[id].name))
      ensures r.Success? ==> forall a :: a in docs && docs[a].name == old(docs)[id].name ==> (docs[a].isActive <==> a == id)
      ensures r == Failure(InvalidInput) <==> id == ""
      ensures r == Failure(NotFound) <==> id != "" && id !in old(docs)
      ensures r.Failure? ==> docs == old(docs)
      ensures r.Success? ==> Preserved(old(docs), docs) && docs.Keys == old(docs).Keys
      ensures r.Success? ==> forall a :: a in docs && a != id && docs[a].name == docs[id].name ==>
        docs[a] == old(docs)[a].(isActive := false)
      ensures r.Success? ==> docs[id] == old(docs)[id].(isActive := true, deactivatedAt := None)
      ensures r.Success? ==>
        ActiveOf(docs, old(docs)[id].name) == Some(old(docs)[id].(isActive := true, deactivatedAt := None))
      ensures r.Success? ==> forall a :: a in docs && docs[a].name != docs[id].name ==> docs[a] == old(docs)[a]
    {
      if id == "" {
        return Failure(InvalidInput);
      }
      if id !in docs {
        return Failure(NotFound);
      }
      ghost var before := docs;
      assert Follows(docs, docs[id]);
      RestorePreserves(docs, docs[id].name, id);
      var cleared := AllCleared(docs, docs[id].name);
      docs := cleared[id := cleared[id].(isActive := true, deactivatedAt := None)];
      assert docs == DoRestore(before, before[id].name, id);
      FlagsKeepStored(before, docs);
      RestoreIsExclusive(before, id);
      ActiveOfIs(docs, docs[id].name, id);
      return Success(());
    }
  }

  lemma InsertKeepsConsistent(docs: Docs, id: Id, doc: Doc)
    requires Consistent(docs) && Follows(docs, doc) && !Taken(docs, id, doc)
    requires doc.isActive ==> !SomeActive(docs, doc.name)
    ensures Consistent(docs[id := doc])
  {
    InsertKeepsStored(docs, id, doc);
  }

  lemma FlagsKeepConsistent(before: Docs, after: Docs)
    requires Consistent(before) && Preserved(before, after) && after.Keys == before.Keys && SingleActive(after)
    ensures Consistent(after)
  {
    FlagsKeepStored(before, after);
  }

  lemma NextHighest(docs: Docs, name: string, n: nat, bound: int, top: Id)
    requires VersionsAre(docs, name, n) && bound <= n
    requires top in docs && docs[top].name == name && docs[top].version <= bound
    requires forall id :: id in docs && docs[id].name == name && docs[id].version <= bound ==> docs[id].version <= docs[top].version
    ensures docs[top].version == bound && bound >= 1
  {
    assert HasVersion(docs, name, docs[top].version);
    assert HasVersion(docs, name, bound);
  }

  /** Promoting a version needs no single active version before and leaves one after: it repairs a Spirit
      with two, and the whole collection exactly when no other Spirit has two. */
  lemma PromotionIsExclusive(docs: Docs, hit: Id)
    requires Versioned(docs) && hit in docs
    ensures Versioned(Promoted(docs, hit)) && Preserved(docs, Promoted(docs, hit)) && Promoted(docs, hit).Keys == docs.Keys
    ensures Consistent(Promoted(docs, hit)) <==> OthersSingle(docs, docs[hit].name)
    ensures forall id :: id in docs && docs[id].name == docs[hit].name ==>
      Promoted(docs, hit)[id] == docs[id].(isActive := docs[id].version == docs[hit].version)
    ensures forall id :: id in docs && docs[id].name != docs[hit].name ==> Promoted(docs, hit)[id] == docs[id]
  {
    var after := Promoted(docs, hit);
    PromotePreserves(docs, hit);
    FlagsKeepStored(docs, after);
    if OthersSingle(docs, docs[hit].name) {
      assert SingleActive(after);
    }
    if SingleActive(after) {
      assert forall a :: a in docs && docs[a].name != docs[hit].name ==> a in after && after[a] == docs[a];
    }
  }

  lemma RestoreIsExclusive(docs: Docs, id: Id)
    requires id in docs
    ensures var after := DoRestore(docs, docs[id].name, id);
      && (SingleActive(after) <==> OthersSingle(docs, docs[id].name))
      && (forall a :: a in docs && docs[a].name == docs[id].name ==> a in after && (after[a].isActive <==> a == id))
  {
    var after := DoRestore(docs, docs[id].name, id);
    if SingleActive(after) {
      assert forall a :: a in docs && docs[a].name != docs[id].name ==> a in after && after[a] == docs[a];
    }
  }

  // Clearing the active version and inserting the next one, if the index lets it in.
  lemma UpdateKeepsConsistent(docs: Docs, was: Id, id: Id, doc: Doc)
    requires Consistent(docs) && was in docs && id !in docs
    requires Servable(docs[was], doc.name) && doc.version == docs[was].version + 1 && doc.isActive && !doc.isDeleted
    ensures Consistent(Deactivated(docs, was))
    ensures Taken(Deactivated(docs, was), id, doc) <==> HasVersion(docs, doc.name, doc.version)
    ensures !HasVersion(docs, doc.name, doc.version) ==> Consistent(Deactivated(docs, was)[id := doc])
    ensures ActiveOf(Deactivated(docs, was), doc.name) == None
  {
    var cleared := Deactivated(docs, was);
    FlagsKeepConsistent(docs, cleared);
    assert Follows(docs, docs[was]);
    assert HasVersion(cleared, doc.name, docs[was].version) by { assert was in cleared; }
    if !Taken(cleared, id, doc) {
      InsertKeepsConsistent(cleared, id, doc);
    }
  }

  /** Rolling an update back: activating the version it replaced makes the lookup return the former
      document again, unchanged. */
  lemma RollbackRestoresFormer(docs: Docs, name: string, was: Id, id: Id, draft: Draft, now: Time)
    requires Consistent(docs) && was in docs && Servable(docs[was], name) && id !in docs
    requires Highest(docs, was)
    ensures var updated := InsertOne(Deactivated(docs, was), id, NextDoc(name, docs[was].version, draft, now));
      ActiveOf(updated, name) == Some(updated[id]) && ActiveOf(Promoted(updated, was), name) == ActiveOf(docs, name)
  {
    var doc := NextDoc(name, docs[was].version, draft, now);
    NextIsFreeIffHighest(docs, was);
    UpdateKeepsConsistent(docs, was, id, doc);
    var updated := InsertOne(Deactivated(docs, was), id, doc);
    ActiveOfIs(updated, name, id);
    PromotePreserves(updated, was);
    var back := Promoted(updated, was);
    assert back[was] == docs[was];
    ActiveOfIs(docs, name, was);
    ActiveOfIs(back, name, was);
  }

  /** A Create that no other call interrupts goes on to its insert unless its lookup was answered and found
      the Spirit active, and stores what Create says, stamped with the time of the insert. */
  lemma CreateAlone(s: State, c: CallId, name: string, draft: Draft, answered: bool, d: nat, id: Id)
    requires Consistent(s.docs) && c !in s.calls && id !in s.docs
    ensures var s1 := Apply(s, StartCreate(c, name, draft, answered));
      var t := Apply(Apply(s1, Tick(d)), InsertFirst(c, id));
      && (c in s1.calls <==> name != "" && !(answered && ActiveOf(s.docs, name).Some?))
      && t.calls == s.calls && t.now == s.now + d
      && t.docs == if name != "" && !HasVersion(s.docs, name, 1)
           then s.docs[id := Doc(name, 1, true, false, draft.content, draft.changeLog, s.now + d, draft.deactivatedAt)]
           else s.docs
  {
    var s1 := Apply(s, StartCreate(c, name, draft, answered));
    if ActiveOf(s.docs, name).Some? {
      var a :| a in s.docs && Servable(s.docs[a], name);
      assert HasVersion(s.docs, name, s.docs[a].version);
      VersionPositive(s.docs, name, s.docs[a].version);
      VersionsBelow(s.docs, name, s.docs[a].version, 1);
    }
    if c in s1.calls {
      assert s1.calls[c] == Creating(name, draft);
      assert s1.calls - {c} == s.calls;
    }
  }

  /** A RestoreVersion that no other call interrupts leaves its Spirit with that document alone active. */
  lemma RestoreAlone(s: State, c: CallId, id: Id)
    requires c !in s.calls && id in s.docs
    ensures var t := Apply(Apply(s, StartRestore(c, id)), CommitRestore(c));
      && t.calls == s.calls && t.docs.Keys == s.docs.Keys
      && t.docs[id] == s.docs[id].(isActive := true, deactivatedAt := None)
      && forall a :: a in s.docs && a != id ==>
           t.docs[a] == s.docs[a].(isActive := s.docs[a].isActive && s.docs[a].name != s.docs[id].name)
  {
    var s1 := Apply(s, StartRestore(c, id));
    assert s1.calls[c] == Restoring(s.docs[id].name, id) && s1.docs == s.docs;
    assert s1.calls - {c} == s.calls;
  }

  /** An update starts exactly with an active, undeleted document of a proper name, and remembers its version. */
  lemma UpdateStarts(s: State, c: CallId, name: string, draft: Draft, found: Id)
    requires c !in s.calls
    ensures var t := Apply(s, StartUpdate(c, name, draft, found));
      && t.docs == s.docs
      && (c in t.calls <==>
            name != "" && found in s.docs && s.docs[found].name == name && s.docs[found].isActive && !s.docs[found].isDeleted)
      && (c in t.calls ==> t.calls[c] == Clearing(name, s.docs[found].version, draft))
  {
  }

  /** An update's clear matches a document exactly while one of its Spirit is active, and the update goes on
      to its insert either way. */
  lemma ClearGoesOn(s: State, c: CallId, hit: Option<Id>)
    requires c in s.calls && s.calls[c].Clearing?
    ensures var call := s.calls[c];
      && (Hits(s.docs, call.name, None) <==> !SomeActive(s.docs, call.name))
      && (Hits(s.docs, call.name, hit) ==>
            var t := Apply(s, ClearActive(c, hit));
            && t.calls == s.calls[c := Inserting(call.name, call.read, call.draft)]
            && t.docs == match hit
                 case None => s.docs
                 case Some(id) => s.docs[id := s.docs[id].(isActive := false)])
  {
  }

  lemma DeactivateAlone(s: State, id: Id)
    ensures Apply(s, Deactivate(id)) ==
      if id in s.docs then s.(docs := s.docs[id := s.docs[id].(isActive := false, deactivatedAt := Some(s.now))]) else s
  {
  }

  /** An update that no other call interrupts clears the very version it read, and its three commands
      together do to the collection what Update says. */
  lemma UpdateAlone(s: State, c: CallId, name: string, draft: Draft, was: Id, hit: Option<Id>, id: Id)
    requires Consistent(s.docs) && c !in s.calls && name != "" && was in s.docs && Servable(s.docs[was], name)
    ensures Hits(s.docs, name, hit) <==> hit == Some(was)
    ensures Apply(Apply(Apply(s, StartUpdate(c, name, draft, was)), ClearActive(c, Some(was))), InsertNext(c, id)).docs
         == InsertOne(Deactivated(s.docs, was), id, NextDoc(name, s.docs[was].version, draft, s.now))
  {
    var s1 := Apply(s, StartUpdate(c, name, draft, was));
    assert s1.calls[c] == Clearing(name, s.docs[was].version, draft);
    var s2 := Apply(s1, ClearActive(c, Some(was)));
    assert s2.docs == Deactivated(s.docs, was) && s2.calls[c] == Inserting(name, s.docs[was].version, draft);
  }

  /** Every state of every run is one in which Activate, RestoreVersion, Deactivate and FindVersionHistory
      do what they promise. */
  lemma ReachableIsVersioned(events: seq<Event>)
    ensures Versioned(Exec(EMPTY, events).docs)
  {
    ExecStored(EMPTY, events);
  }

  /** The state the methods above ask for is the one every considerate run of SpiritProtocol is in. */
  lemma ReachableIsConsistent(events: seq<Event>)
    ensures Consistent(ExecConsiderate(events).docs)
  {
    ExecConsiderateSingle(events);
  }
}
