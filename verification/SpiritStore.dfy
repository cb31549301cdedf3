/** The spirits collection: documents by _id, and the database commands the repository issues.
    The unique index on (name, version) is what InsertOne checks. */
module SpiritStore {
  import opened Wrappers
  import opened TtlStore

  type Id = string

  // `content` stands for every field a client may set; the others are stamped by the repository.
  datatype Doc = Doc(name: string, version: int, isActive: bool, isDeleted: bool,
                     content: string, changeLog: string, createdAt: Time, deactivatedAt: Option<Time>)

  type Docs = map<Id, Doc>

  ghost predicate HasVersion(docs: Docs, name: string, version: int) {
    exists id :: id in docs && docs[id].name == name && docs[id].version == version
  }

  // The filter of FindActiveByName.
  predicate Servable(doc: Doc, name: string) {
    doc.name == name && doc.isActive && !doc.isDeleted
  }

  ghost predicate SomeActive(docs: Docs, name: string) {
    exists id :: id in docs && docs[id].name == name && docs[id].isActive
  }

  // InsertOne refuses an _id or a (name, version) that is taken.
  predicate Taken(docs: Docs, id: Id, doc: Doc) {
    id in docs || exists d :: d in docs && docs[d].name == doc.name && docs[d].version == doc.version
  }

  function InsertOne(docs: Docs, id: Id, doc: Doc): Docs {
    if Taken(docs, id, doc) then docs else docs[id := doc]
  }

  function Deactivated(docs: Docs, id: Id): Docs {
    if id in docs then docs[id := docs[id].(isActive := false)] else docs
  }

  // UpdateMany over a name, clearing the flag.
  function AllCleared(docs: Docs, name: string): Docs {
    map id | id in docs :: if docs[id].name == name then docs[id].(isActive := false) else docs[id]
  }

  function Promoted(docs: Docs, id: Id): Docs
    requires id in docs
  {
    var cleared := AllCleared(docs, docs[id].name);
    cleared[id := cleared[id].(isActive := true)]
  }

  // ---- What the repository promises about the collection ----

  // No two documents of a Spirit share a version.
  ghost predicate Indexed(docs: Docs) {
    forall a, b :: a in docs && b in docs && docs[a].name == docs[b].name && docs[a].version == docs[b].version ==> a == b
  }

  // A stored document is a first version or follows a stored one, and is not soft-deleted.
  ghost predicate Follows(docs: Docs, doc: Doc) {
    && doc.version >= 1
    && (doc.version > 1 ==> HasVersion(docs, doc.name, doc.version - 1))
    && !doc.isDeleted
  }

  ghost predicate Chained(docs: Docs) {
    forall id {:trigger Follows(docs, docs[id])} :: id in docs ==> Follows(docs, docs[id])
  }

  ghost predicate SingleActive(docs: Docs) {
    forall a, b :: a in docs && b in docs && docs[a].name == docs[b].name && docs[a].isActive && docs[b].isActive ==> a == b
  }

  // A document may only change in its active flag and its deactivation time.
  predicate SameVersion(a: Doc, b: Doc) {
    b == a.(isActive := b.isActive, deactivatedAt := b.deactivatedAt)
  }

  ghost predicate Preserved(before: Docs, after: Docs) {
    forall id :: id in before ==> id in after && SameVersion(before[id], after[id])
  }

  // ---- Versions are 1..n ----

  ghost predicate VersionsAre(docs: Docs, name: string, n: nat) {
    forall v :: HasVersion(docs, name, v) <==> 1 <= v <= n
  }

  lemma VersionPositive(docs: Docs, name: string, v: int)
    requires Chained(docs) && HasVersion(docs, name, v)
    ensures v >= 1
  {
    var id :| id in docs && docs[id].name == name && docs[id].version == v;
    assert Follows(docs, docs[id]);
  }

  lemma {:induction false} VersionsBelow(docs: Docs, name: string, v: int, w: int)
    requires Chained(docs) && HasVersion(docs, name, v) && 1 <= w <= v
    ensures HasVersion(docs, name, w)
    decreases v - w
  {
    if w < v {
      var id :| id in docs && docs[id].name == name && docs[id].version == v;
      assert Follows(docs, docs[id]);
      VersionsBelow(docs, name, v - 1, w);
    }
  }

  lemma {:induction false} HighestVersion(docs: Docs, name: string, ids: set<Id>) returns (n: nat)
    requires ids <= docs.Keys && Chained(docs)
    ensures n == 0 || exists id :: id in ids && docs[id].name == name && docs[id].version == n
    ensures forall id :: id in ids && docs[id].name == name ==> docs[id].version <= n
    decreases |ids|
  {
    if ids == {} {
      return 0;
    }
    var id :| id in ids;
    assert Follows(docs, docs[id]);
    n := HighestVersion(docs, name, ids - {id});
    if docs[id].name == name && n < docs[id].version {
      n := docs[id].version;
    }
  }

  lemma VersionsUpTo(docs: Docs, name: string, n: nat)
    requires Chained(docs)
    requires n == 0 || exists id :: id in docs && docs[id].name == name && docs[id].version == n
    requires forall id :: id in docs && docs[id].name == name ==> docs[id].version <= n
    ensures VersionsAre(docs, name, n)
  {
    assert n != 0 ==> HasVersion(docs, name, n);
    forall v: int
      ensures HasVersion(docs, name, v) ==> 1 <= v <= n
      ensures 1 <= v <= n ==> HasVersion(docs, name, v)
    {
      if HasVersion(docs, name, v) { VersionPositive(docs, name, v); }
      if 1 <= v <= n { VersionsBelow(docs, name, n, v); }
    }
  }

  ghost predicate Highest(docs: Docs, id: Id)
    requires id in docs
  {
    forall a :: a in docs && docs[a].name == docs[id].name ==> docs[a].version <= docs[id].version
  }

  // With no gaps, the next version is free exactly above the highest one.
  lemma NextIsFreeIffHighest(docs: Docs, id: Id)
    requires Chained(docs) && id in docs
    ensures !HasVersion(docs, docs[id].name, docs[id].version + 1) <==> Highest(docs, id)
  {
    assert Follows(docs, docs[id]);
    forall a | a in docs && docs[a].name == docs[id].name && docs[a].version > docs[id].version
      ensures HasVersion(docs, docs[id].name, docs[id].version + 1)
    {
      assert HasVersion(docs, docs[id].name, docs[a].version);
      VersionsBelow(docs, docs[id].name, docs[a].version, docs[id].version + 1);
    }
  }

  /** In a chained collection the versions of every name are exactly 1..n for some n. */
  lemma VersionsAreContiguous(docs: Docs, name: string)
    requires Chained(docs)
    ensures exists n: nat :: VersionsAre(docs, name, n)
  {
    var n := HighestVersion(docs, name, docs.Keys);
    VersionsUpTo(docs, name, n);
  }
}
