/** providers/pinecone/lore_store.go: a LoreFilter compiled to a nested metadata filter, what the filter
    accepts, and when it agrees with the pgvector compilation of the same LoreFilter. */
module Pinecone {
  import opened Wrappers
  import opened LoreFilter
  import PgVector

  // Operators of one field; `$eq`, `$gte` and `$lte` are the ones used.
  type Condition = map<string, FilterValue>
  type Nested = map<string, Condition>

  function Eq(v: FilterValue): Condition {
    map["$eq" := v]
  }

  function Between(r: Range): Condition {
    (if r.min.Some? then map["$gte" := Json(Num(r.min.value))] else map[])
    + (if r.max.Some? then map["$lte" := Json(Num(r.max.value))] else map[])
  }

  predicate Nothing(filter: Option<Filter>) {
    filter.None? || (filter.value.equals == map[] && filter.value.ranges == map[])
  }

  // A field that is both compared and ranged keeps only its range.
  function NestedOf(filter: Filter): Nested {
    map f | f in filter.equals.Keys + filter.ranges.Keys ::
      if f in filter.ranges then Between(filter.ranges[f]) else Eq(filter.equals[f])
  }

  predicate Encodes(m: Nested) {
    forall f, op :: f in m && op in m[f] ==> m[f][op].Json?
  }

  /** The result is no filter at all, an encoding error, or the nested filter; map iteration order
      leaves no trace in it. */
  method PineconeFilter(filter: Option<Filter>) returns (r: Result<Option<Nested>, ()>)
    ensures filter.None? || (filter.value.equals == map[] && filter.value.ranges == map[]) <==> r == Success(None)
    ensures r != Success(None) ==>
      r == if exists f :: f in filter.value.equals && f !in filter.value.ranges && filter.value.equals[f].Unencodable?
           then Failure(()) else Success(Some(NestedOf(filter.value)))
  {
    if Nothing(filter) {
      return Success(None);
    }
    var m := Conditions(filter.value);
    EncodesIff(filter.value);
    if !Encodes(m) {
      return Failure(());
    }
    return Success(Some(m));
  }

  method Conditions(filter: Filter) returns (m: Nested)
    ensures m == NestedOf(filter)
  {
    m := EqualityConditions(filter.equals);
    m := AddRangeConditions(m, filter.ranges);
    IsNestedOf(filter, m);
  }

  method EqualityConditions(equals: map<string, FilterValue>) returns (m: Nested)
    ensures m.Keys == equals.Keys && forall f :: f in m ==> m[f] == Eq(equals[f])
  {
    m := map[];
    var pending := equals.Keys;
    while pending != {}
      invariant pending <= equals.Keys
      invariant m.Keys == equals.Keys - pending
      invariant forall f :: f in m ==> m[f] == Eq(equals[f])
      decreases |pending|
    {
      var f :| f in pending;
      m := m[f := Eq(equals[f])];
      pending := pending - {f};
    }
  }

  method AddRangeConditions(before: Nested, ranges: map<string, Range>) returns (m: Nested)
    ensures forall f :: f in m <==> f in before || f in ranges
    ensures forall f :: f in ranges ==> m[f] == Between(ranges[f])
    ensures forall f :: f in before && f !in ranges ==> m[f] == before[f]
  {
    m := before;
    var pending := ranges.Keys;
    while pending != {}
      invariant pending <= ranges.Keys
      invariant forall f :: f in m <==> f in before || (f in ranges && f !in pending)
      invariant forall f :: f in ranges && f !in pending ==> m[f] == Between(ranges[f])
      invariant forall f :: f in before && (f !in ranges || f in pending) ==> m[f] == before[f]
      decreases |pending|
    {
      var f :| f in pending;
      var cond := RangeCondition(ranges[f]);
      m := m[f := cond];
      pending := pending - {f};
    }
  }

  lemma IsNestedOf(filter: Filter, m: Nested)
    requires m.Keys == filter.equals.Keys + filter.ranges.Keys
    requires forall f :: f in m ==> m[f] == if f in filter.ranges then Between(filter.ranges[f]) else Eq(filter.equals[f])
    ensures m == NestedOf(filter)
  {
  }

  method RangeCondition(r: Range) returns (cond: Condition)
    ensures cond == Between(r)
  {
    cond := map[];
    if r.min.Some? {
      cond := cond["$gte" := Json(Num(r.min.value))];
    }
    if r.max.Some? {
      cond := cond["$lte" := Json(Num(r.max.value))];
    }
  }

  lemma EncodesIff(filter: Filter)
    ensures Encodes(NestedOf(filter)) <==>
      !exists f :: f in filter.equals && f !in filter.ranges && filter.equals[f].Unencodable?
  {
    var m := NestedOf(filter);
    forall f | f in filter.equals && f !in filter.ranges && filter.equals[f].Unencodable? ensures !Encodes(m) {
      assert f in m && "$eq" in m[f] && m[f]["$eq"] == filter.equals[f];
    }
  }

  // ---- What a nested filter accepts ----

  // An empty condition has no meaning of its own; the server decides.
  ghost predicate Meaningful(m: Nested) {
    forall f :: f in m ==> m[f] != map[]
  }

  predicate OpHolds(op: string, v: FilterValue, metadata: Metadata, field: string) {
    field in metadata && v.Json? &&
    match op
    case "$eq" => metadata[field] == v.value
    case "$gte" => metadata[field].Num? && v.value.Num? && metadata[field].n >= v.value.n
    case "$lte" => metadata[field].Num? && v.value.Num? && metadata[field].n <= v.value.n
    case _ => false
  }

  ghost predicate Accepts(m: Nested, metadata: Metadata) {
    forall f, op :: f in m && op in m[f] ==> OpHolds(op, m[f][op], metadata, f)
  }

  ghost predicate RangesHold(ranges: map<string, Range>, metadata: Metadata) {
    forall f :: f in ranges ==> Bounded(ranges[f]) ==>
      f in metadata && metadata[f].Num? && Within(metadata[f].n, ranges[f])
  }

  // The equalities of fields that have no range.
  function Unranged(filter: Filter): map<string, FilterValue> {
    map f | f in filter.equals && f !in filter.ranges :: filter.equals[f]
  }

  /** Every filter means: the ranges hold, and so do the equalities of the fields without a range. */
  lemma NestedMeans(filter: Filter, metadata: Metadata)
    ensures Accepts(NestedOf(filter), metadata) <==>
      EqualsHold(Unranged(filter), metadata) && RangesHold(filter.ranges, metadata)
  {
    var m := NestedOf(filter);
    if Accepts(m, metadata) {
      forall f | f in Unranged(filter) ensures f in metadata && filter.equals[f] == Json(metadata[f]) {
        assert f in m && "$eq" in m[f];
      }
      forall f | f in filter.ranges && Bounded(filter.ranges[f])
        ensures f in metadata && metadata[f].Num? && Within(metadata[f].n, filter.ranges[f])
      {
        assert f in m;
        assert filter.ranges[f].min.Some? ==> "$gte" in m[f];
        assert filter.ranges[f].max.Some? ==> "$lte" in m[f];
      }
    }
    if EqualsHold(Unranged(filter), metadata) && RangesHold(filter.ranges, metadata) {
      forall f, op | f in m && op in m[f] ensures OpHolds(op, m[f][op], metadata, f) {
        assert f !in filter.ranges ==> f in Unranged(filter);
      }
    }
  }

  // ---- Agreement with pgvector ----

  // No field with a bounded range holds a text that Postgres could cast to a number.
  ghost predicate Typed(sql: PgVector.Sql, filter: Filter, metadata: Metadata) {
    forall f :: f in filter.ranges && Bounded(filter.ranges[f]) && f in metadata && metadata[f].Str? ==>
      sql.numeric(metadata[f].s).None?
  }

  /** On any metadata the two compilations differ in exactly two ways: pgvector alone accepts a text with a
      numeric reading in a range, and Pinecone alone drops the equality on a field that also has a range.
      A boolean or any other text in a range satisfies neither. */
  lemma DifferenceFromPgVector(sql: PgVector.Sql, filter: Filter, metadata: Metadata)
    ensures PgVector.FilterHolds(sql, filter, metadata) && Typed(sql, filter, metadata) <==>
      Accepts(NestedOf(filter), metadata)
      && (forall f :: f in filter.equals && f in filter.ranges ==> f in metadata && filter.equals[f] == Json(metadata[f]))
  {
    NestedMeans(filter, metadata);
    var u := Unranged(filter);
    assert EqualsHold(filter.equals, metadata) <==>
      EqualsHold(u, metadata)
      && (forall f :: f in filter.equals && f in filter.ranges ==> f in metadata && filter.equals[f] == Json(metadata[f])) by {
      assert forall f :: f in filter.equals ==> f in u || f in filter.ranges;
    }
    forall f | f in filter.ranges && Bounded(filter.ranges[f])
      ensures Typed(sql, filter, metadata) ==>
        (PgVector.RangeHolds(sql, filter.ranges[f], metadata, f) <==>
          f in metadata && metadata[f].Num? && Within(metadata[f].n, filter.ranges[f]))
      ensures f in metadata && metadata[f].Num? && Within(metadata[f].n, filter.ranges[f]) ==>
        PgVector.RangeHolds(sql, filter.ranges[f], metadata, f)
    {
    }
  }

  /** So with no field in both parts Pinecone accepts exactly what pgvector accepts, numeric texts in
      ranges apart, and with every range bounded no condition is left to the server's discretion. */
  lemma AgreesWithPgVector(sql: PgVector.Sql, filter: Filter, metadata: Metadata)
    requires filter.equals.Keys !! filter.ranges.Keys
    requires forall f :: f in filter.ranges ==> Bounded(filter.ranges[f])
    ensures Meaningful(NestedOf(filter))
    ensures Accepts(NestedOf(filter), metadata) <==>
      PgVector.FilterHolds(sql, filter, metadata) && Typed(sql, filter, metadata)
  {
    DifferenceFromPgVector(sql, filter, metadata);
    forall f | f in NestedOf(filter) ensures NestedOf(filter)[f] != map[] {
      assert "$eq" in NestedOf(filter)[f] || "$gte" in NestedOf(filter)[f] || "$lte" in NestedOf(filter)[f];
    }
  }

  /** A field in both parts does make them differ: whenever its range contains a number other than the
      one it is compared with, a row with that number is accepted by Pinecone alone. */
  lemma OverlapDisagrees(sql: PgVector.Sql, field: string, value: FilterValue, r: Range, x: real)
    requires Within(x, r) && value != Json(Num(x))
    ensures var filter := Filter(map[field := value], map[field := r]);
      && Accepts(NestedOf(filter), map[field := Num(x)])
      && !PgVector.FilterHolds(sql, filter, map[field := Num(x)])
  {
    var filter := Filter(map[field := value], map[field := r]);
    NestedMeans(filter, map[field := Num(x)]);
    assert field in filter.equals;
  }
}
