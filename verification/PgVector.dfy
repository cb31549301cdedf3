/** providers/pgvector/lore_store.go: a search compiled to a WHERE clause with numbered placeholders
    and an argument list, and what Postgres makes of it. */
module PgVector {
  import opened Wrappers
  import opened LoreFilter
  import StringOrder

  // ---- The query ----

  datatype Arg = Vector(v: seq<real>) | Text(s: string) | Number(x: real) | Document(m: Metadata) | Count(k: int)

  // Conjuncts of the WHERE clause; each number is a placeholder, $1 being the first argument.
  datatype Clause =
    | LoreIs(lore: nat)                  // lore_id = $l
    | Near(vector: nat, threshold: nat)  // embedding <=> $v::vector <= $t
    | Contains(document: nat)            // metadata @> $d::jsonb
    | AtLeast(field: nat, bound: nat)    // (metadata ->> $f)::numeric >= $b
    | AtMost(field: nat, bound: nat)     // (metadata ->> $f)::numeric <= $b

  datatype Draft = Draft(where: seq<Clause>, args: seq<Arg>)

  datatype Query = Query(where: seq<Clause>, args: seq<Arg>, limit: nat)

  // ---- What the database does with it ----

  datatype Row = Row(lore: string, embedding: Option<seq<real>>, metadata: Metadata)

  // Cosine distance, and the text a numeric cast accepts.
  datatype Sql = Sql(distance: (seq<real>, seq<real>) -> real, numeric: string -> Option<real>)

  // A conjunct holds, does not hold (or is NULL), or raises an error.
  datatype Verdict = Yes | No | Raises

  function Truth(b: bool): Verdict {
    if b then Yes else No
  }

  datatype Reading = Absent | Read(x: real) | BadCast

  // (metadata ->> field)::numeric, which is NULL for an absent key and for a JSON null.
  function NumericField(sql: Sql, metadata: Metadata, field: string): Reading {
    if field !in metadata then Absent else
    match metadata[field]
    case Null => Absent
    case Num(n) => Read(n)
    case Bool(_) => BadCast
    case Str(s) => match sql.numeric(s) { case Some(x) => Read(x) case None => BadCast }
  }

  function Bound(args: seq<Arg>, placeholder: nat): Option<Arg> {
    if 1 <= placeholder <= |args| then Some(args[placeholder - 1]) else None
  }

  function Compare(reading: Reading, ok: real -> bool): Verdict {
    match reading
    case Absent => No
    case Read(x) => Truth(ok(x))
    case BadCast => Raises
  }

  function Eval(sql: Sql, c: Clause, args: seq<Arg>, row: Row): Verdict {
    match c
    case LoreIs(l) =>
      (match Bound(args, l)
       case Some(Text(s)) => Truth(row.lore == s)
       case _ => Raises)
    case Near(v, t) =>
      (match (Bound(args, v), Bound(args, t))
       case (Some(Vector(query)), Some(Number(x))) =>
         if row.embedding.Some? then Truth(sql.distance(row.embedding.value, query) <= x) else No
       case _ => Raises)
    case Contains(d) =>
      (match Bound(args, d)
       case Some(Document(m)) => Truth(forall f :: f in m ==> f in row.metadata && row.metadata[f] == m[f])
       case _ => Raises)
    case AtLeast(f, b) =>
      (match (Bound(args, f), Bound(args, b))
       case (Some(Text(field)), Some(Number(x))) => Compare(NumericField(sql, row.metadata, field), y => y >= x)
       case _ => Raises)
    case AtMost(f, b) =>
      (match (Bound(args, f), Bound(args, b))
       case (Some(Text(field)), Some(Number(x))) => Compare(NumericField(sql, row.metadata, field), y => y <= x)
       case _ => Raises)
  }

  ghost predicate Accepts(sql: Sql, where: seq<Clause>, args: seq<Arg>, row: Row) {
    forall i :: 0 <= i < |where| ==> Eval(sql, where[i], args, row) == Yes
  }

  ghost predicate MayRaise(sql: Sql, where: seq<Clause>, args: seq<Arg>, row: Row) {
    exists i :: 0 <= i < |where| && Eval(sql, where[i], args, row) == Raises
  }

  // ---- What was asked ----

  ghost predicate RangeHolds(sql: Sql, r: Range, metadata: Metadata, field: string) {
    Bounded(r) ==> NumericField(sql, metadata, field).Read? && Within(NumericField(sql, metadata, field).x, r)
  }

  ghost predicate FilterHolds(sql: Sql, filter: Filter, metadata: Metadata) {
    && EqualsHold(filter.equals, metadata)
    && (forall f :: f in filter.ranges ==> RangeHolds(sql, filter.ranges[f], metadata, f))
  }

  // Same lore, similar enough, and the filter holds.
  ghost predicate Wanted(sql: Sql, lore: string, query: seq<real>, minScore: real, filter: Option<Filter>, row: Row) {
    && row.lore == lore
    && row.embedding.Some? && 1.0 - sql.distance(row.embedding.value, query) >= minScore
    && (filter.Some? ==> FilterHolds(sql, filter.value, row.metadata))
  }

  /** What a range asks of a field: a number, or a text the database reads as one, within the bounds. A
      boolean, or any other text, makes the cast fail; an absent field and a null satisfy no bound. */
  lemma RangeReads(sql: Sql, r: Range, metadata: Metadata, field: string)
    requires Bounded(r)
    ensures RangeHolds(sql, r, metadata, field) <==>
      && field in metadata
      && ((metadata[field].Num? && Within(metadata[field].n, r))
          || (metadata[field].Str? && sql.numeric(metadata[field].s).Some? && Within(sql.numeric(metadata[field].s).value, r)))
    ensures NumericField(sql, metadata, field).BadCast? <==>
      && field in metadata
      && (metadata[field].Bool? || (metadata[field].Str? && sql.numeric(metadata[field].s).None?))
  {
  }

  // ---- Building the query ----

  function Encoded(equals: map<string, FilterValue>): Option<Metadata> {
    if exists f :: f in equals && equals[f].Unencodable? then None
    else Some(map f | f in equals :: equals[f].value)
  }

  // One bound: the field name and the limit become arguments, a comparison of the two a conjunct.
  function AddBound(q: Draft, field: string, bound: Option<real>, lower: bool): Draft {
    if bound.None? then q
    else
      var n := |q.args|;
      var c := if lower then AtLeast(n + 1, n + 2) else AtMost(n + 1, n + 2);
      Draft(q.where + [c], q.args + [Text(field), Number(bound.value)])
  }

  function AddRange(q: Draft, field: string, r: Range): Draft {
    AddBound(AddBound(q, field, r.min, true), field, r.max, false)
  }

  function AddRanges(q: Draft, fields: seq<string>, ranges: map<string, Range>): Draft
    requires forall f :: f in fields ==> f in ranges
  {
    if fields == [] then q
    else
      var last := fields[|fields| - 1];
      AddRange(AddRanges(q, fields[..|fields| - 1], ranges), last, ranges[last])
  }

  function AddEquals(q: Draft, m: Metadata): Draft {
    Draft(q.where + [Contains(|q.args| + 1)], q.args + [Document(m)])
  }

  method SortedRangeFields(ranges: map<string, Range>) returns (fields: seq<string>)
    ensures StringOrder.Sorted(fields) && StringOrder.Elements(fields) == ranges.Keys
  {
    fields := [];
    var pending := ranges.Keys;
    while pending != {}
      invariant pending <= ranges.Keys
      invariant StringOrder.Sorted(fields) && StringOrder.Elements(fields) == ranges.Keys - pending
      decreases |pending|
    {
      var f :| f in pending;
      assert f !in StringOrder.Elements(fields);
      fields := StringOrder.Insert(fields, f);
      pending := pending - {f};
    }
  }

  method AppendLoreFilter(where: seq<Clause>, args: seq<Arg>, filter: Option<Filter>)
    returns (r: Option<Draft>, ghost fields: seq<string>)
    ensures filter.None? ==> r == Some(Draft(where, args))
    ensures r.None? <==> filter.Some? && exists f :: f in filter.value.equals && filter.value.equals[f].Unencodable?
    ensures r.Some? && Placed(where, |args|) ==>
      Placed(r.value.where, |r.value.args|) && Narrows(Draft(where, args), r.value, filter)
    ensures filter.Some? && r.Some? ==>
      && StringOrder.Sorted(fields) && StringOrder.Elements(fields) == filter.value.ranges.Keys
      && (forall f :: f in fields ==> f in filter.value.ranges)
      && r.value == AddRanges(WithEquals(Draft(where, args), filter.value.equals), fields, filter.value.ranges)
  {
    if filter.None? {
      return Some(Draft(where, args)), [];
    }
    var q := Draft(where, args);
    if |filter.value.equals| > 0 {
      var raw := Encoded(filter.value.equals);
      if raw.None? {
        return None, [];
      }
      q := AddEquals(q, raw.value);
    }
    assert q == WithEquals(Draft(where, args), filter.value.equals);
    var ranges := filter.value.ranges;
    var sorted := SortedRangeFields(ranges);
    assert forall f :: f in sorted ==> f in StringOrder.Elements(sorted);
    ghost var base := q;
    for i := 0 to |sorted|
      invariant q == AddRanges(base, sorted[..i], ranges)
    {
      var r := ranges[sorted[i]];
      if r.min.Some? {
        q := AddBound(q, sorted[i], r.min, true);
      }
      if r.max.Some? {
        q := AddBound(q, sorted[i], r.max, false);
      }
      assert sorted[..i + 1][..i] == sorted[..i];
    }
    assert sorted[..|sorted|] == sorted;
    if Placed(where, |args|) { AppendedNarrows(Draft(where, args), filter.value, sorted); }
    return Some(q), sorted;
  }

  // Equals, when there are any and they encode, become one containment test.
  function WithEquals(q: Draft, equals: map<string, FilterValue>): Draft {
    if equals == map[] || Encoded(equals).None? then q else AddEquals(q, Encoded(equals).value)
  }

  method SearchFiltered(lore: string, query: seq<real>, topK: int, minScore: real, filter: Option<Filter>)
    returns (r: Result<Query, SearchError>)
    ensures r == Failure(EmptyQuery) <==> query == []
    ensures r == Failure(Unmarshalable) <==>
      query != [] && filter.Some? && exists f :: f in filter.value.equals && filter.value.equals[f].Unencodable?
    ensures r.Success? ==> r.value.limit == |r.value.args| >= 1 && Placed(r.value.where, |r.value.args| - 1)
    ensures r.Success? ==> r.value.args[r.value.limit - 1] == Count(if topK <= 0 then 5 else topK)
    ensures r.Success? ==> Selects(r.value.where, r.value.args, lore, query, minScore, filter)
  {
    var k := if topK <= 0 then 5 else topK;
    if query == [] {
      return Failure(EmptyQuery);
    }
    var distThreshold := 1.0 - minScore;
    var where := [LoreIs(2), Near(1, 3)];
    var args := [Vector(query), Text(lore), Number(distThreshold)];
    var draft, fields := AppendLoreFilter(where, args, filter);
    if draft.None? {
      return Failure(Unmarshalable);
    }
    assert Draft(where, args) == BaseDraft(lore, query, minScore);
    NarrowedSelects(lore, query, minScore, filter, draft.value, [Count(k)]);
    where, args := draft.value.where, draft.value.args;
    args := args + [Count(k)];
    return Success(Query(where, args, |args|));
  }

  datatype SearchError = EmptyQuery | Unmarshalable

  // On every row the appended conjuncts add exactly the filter, and may raise only where a range is miscast.
  ghost predicate Narrows(q: Draft, t: Draft, filter: Option<Filter>) {
    forall sql, row ::
      && (Accepts(sql, t.where, t.args, row) <==>
            Accepts(sql, q.where, q.args, row) && (filter.Some? ==> FilterHolds(sql, filter.value, row.metadata)))
      && (MayRaise(sql, t.where, t.args, row) <==>
            MayRaise(sql, q.where, q.args, row) || (filter.Some? && Miscast(sql, filter.value, row.metadata)))
  }

  lemma AppendedNarrows(q: Draft, filter: Filter, fields: seq<string>)
    requires Placed(q.where, |q.args|) && Encoded(filter.equals).Some? && forall f :: f in fields <==> f in filter.ranges
    ensures var t := AddRanges(WithEquals(q, filter.equals), fields, filter.ranges);
      Placed(t.where, |t.args|) && Narrows(q, t, Some(filter))
  {
    var base := WithEquals(q, filter.equals);
    var t := AddRanges(base, fields, filter.ranges);
    forall sql, row
      ensures Placed(t.where, |t.args|)
      ensures Accepts(sql, t.where, t.args, row) <==>
        Accepts(sql, q.where, q.args, row) && FilterHolds(sql, filter, row.metadata)
      ensures MayRaise(sql, t.where, t.args, row) <==>
        MayRaise(sql, q.where, q.args, row) || Miscast(sql, filter, row.metadata)
    {
      WithEqualsMeans(sql, q, filter.equals, row);
      AddRangesMeans(sql, base, fields, filter.ranges, row);
    }
    WithEqualsMeans(Sql((a, b) => 0.0, s => None), q, filter.equals, Row("", None, map[]));
    AddRangesMeans(Sql((a, b) => 0.0, s => None), base, fields, filter.ranges, Row("", None, map[]));
  }

  // On every row the query accepts what was asked for, and may raise only where a range is miscast.
  ghost predicate Selects(where: seq<Clause>, args: seq<Arg>, lore: string, query: seq<real>, minScore: real, filter: Option<Filter>) {
    forall sql, row ::
      && (Accepts(sql, where, args, row) <==> Wanted(sql, lore, query, minScore, filter, row))
      && (MayRaise(sql, where, args, row) <==> filter.Some? && Miscast(sql, filter.value, row.metadata))
  }

  // Every placeholder names one of the first n arguments.
  predicate Placed(where: seq<Clause>, n: int) {
    forall i :: 0 <= i < |where| ==>
      match where[i]
      case LoreIs(l) => 1 <= l <= n
      case Near(v, t) => 1 <= v <= n && 1 <= t <= n
      case Contains(d) => 1 <= d <= n
      case AtLeast(f, b) => 1 <= f <= n && 1 <= b <= n
      case AtMost(f, b) => 1 <= f <= n && 1 <= b <= n
  }

  // Some bounded range looks at text that is no number, or at a boolean.
  ghost predicate Miscast(sql: Sql, filter: Filter, metadata: Metadata) {
    exists f :: f in filter.ranges && Bounded(filter.ranges[f]) && NumericField(sql, metadata, f).BadCast?
  }

  /** Arguments appended later never change what an earlier conjunct says. */
  lemma LaterArgumentsDoNotMatter(sql: Sql, where: seq<Clause>, args: seq<Arg>, more: seq<Arg>, row: Row, i: nat)
    requires Placed(where, |args|) && i < |where|
    ensures Eval(sql, where[i], args + more, row) == Eval(sql, where[i], args, row)
  {
    assert forall p :: 1 <= p <= |args| ==> Bound(args + more, p) == Bound(args, p);
  }

  // What a draft accepts and where it may raise, as `more` conjuncts are put behind `old` ones.
  lemma ExtendedDraft(sql: Sql, q: Draft, c: Clause, more: seq<Arg>, row: Row)
    requires Placed(q.where, |q.args|)
    ensures Accepts(sql, q.where + [c], q.args + more, row) <==>
      Accepts(sql, q.where, q.args, row) && Eval(sql, c, q.args + more, row) == Yes
    ensures MayRaise(sql, q.where + [c], q.args + more, row) <==>
      MayRaise(sql, q.where, q.args, row) || Eval(sql, c, q.args + more, row) == Raises
  {
    var where := q.where + [c];
    forall i | 0 <= i < |q.where| ensures Eval(sql, where[i], q.args + more, row) == Eval(sql, q.where[i], q.args, row) {
      LaterArgumentsDoNotMatter(sql, q.where, q.args, more, row, i);
    }
    assert where[|q.where|] == c;
    if MayRaise(sql, q.where, q.args, row) {
      var i :| 0 <= i < |q.where| && Eval(sql, q.where[i], q.args, row) == Raises;
      assert Eval(sql, where[i], q.args + more, row) == Raises;
    }
    if Accepts(sql, where, q.args + more, row) {
      forall i | 0 <= i < |q.where| ensures Eval(sql, q.where[i], q.args, row) == Yes {
        assert Eval(sql, where[i], q.args + more, row) == Yes;
      }
    }
  }

  ghost predicate BoundHolds(reading: Reading, bound: Option<real>, lower: bool) {
    bound.Some? ==> reading.Read? && (if lower then bound.value <= reading.x else reading.x <= bound.value)
  }

  lemma AddBoundMeans(sql: Sql, q: Draft, field: string, bound: Option<real>, lower: bool, row: Row)
    requires Placed(q.where, |q.args|)
    ensures var t := AddBound(q, field, bound, lower);
      && Placed(t.where, |t.args|)
      && (Accepts(sql, t.where, t.args, row) <==>
            Accepts(sql, q.where, q.args, row) && BoundHolds(NumericField(sql, row.metadata, field), bound, lower))
      && (MayRaise(sql, t.where, t.args, row) <==>
            MayRaise(sql, q.where, q.args, row) || (bound.Some? && NumericField(sql, row.metadata, field).BadCast?))
  {
    if bound.Some? {
      var n := |q.args|;
      var c := if lower then AtLeast(n + 1, n + 2) else AtMost(n + 1, n + 2);
      ExtendedDraft(sql, q, c, [Text(field), Number(bound.value)], row);
    }
  }

  lemma AddRangeMeans(sql: Sql, q: Draft, field: string, r: Range, row: Row)
    requires Placed(q.where, |q.args|)
    ensures var t := AddRange(q, field, r);
      && Placed(t.where, |t.args|)
      && (Accepts(sql, t.where, t.args, row) <==>
            Accepts(sql, q.where, q.args, row) && RangeHolds(sql, r, row.metadata, field))
      && (MayRaise(sql, t.where, t.args, row) <==>
            MayRaise(sql, q.where, q.args, row) || (Bounded(r) && NumericField(sql, row.metadata, field).BadCast?))
  {
    AddBoundMeans(sql, q, field, r.min, true, row);
    AddBoundMeans(sql, AddBound(q, field, r.min, true), field, r.max, false, row);
  }

  lemma {:induction false} AddRangesMeans(sql: Sql, q: Draft, fields: seq<string>, ranges: map<string, Range>, row: Row)
    requires Placed(q.where, |q.args|) && forall f :: f in fields ==> f in ranges
    ensures var t := AddRanges(q, fields, ranges);
      && Placed(t.where, |t.args|)
      && (Accepts(sql, t.where, t.args, row) <==>
            Accepts(sql, q.where, q.args, row) && forall f :: f in fields ==> RangeHolds(sql, ranges[f], row.metadata, f))
      && (MayRaise(sql, t.where, t.args, row) <==>
            MayRaise(sql, q.where, q.args, row)
            || exists f :: f in fields && Bounded(ranges[f]) && NumericField(sql, row.metadata, f).BadCast?)
  {
    if fields != [] {
      var front, last := fields[..|fields| - 1], fields[|fields| - 1];
      assert forall f :: f in fields <==> f in front || f == last;
      AddRangesMeans(sql, q, front, ranges, row);
      AddRangeMeans(sql, AddRanges(q, front, ranges), last, ranges[last], row);
    }
  }

  lemma WithEqualsMeans(sql: Sql, q: Draft, equals: map<string, FilterValue>, row: Row)
    requires Placed(q.where, |q.args|) && Encoded(equals).Some?
    ensures var t := WithEquals(q, equals);
      && Placed(t.where, |t.args|)
      && (Accepts(sql, t.where, t.args, row) <==> Accepts(sql, q.where, q.args, row) && EqualsHold(equals, row.metadata))
      && (MayRaise(sql, t.where, t.args, row) <==> MayRaise(sql, q.where, q.args, row))
  {
    if equals != map[] {
      var m := Encoded(equals).value;
      var c := Contains(|q.args| + 1);
      ExtendedDraft(sql, q, c, [Document(m)], row);
      assert EqualsHold(equals, row.metadata) <==> Eval(sql, c, q.args + [Document(m)], row) == Yes;
    }
  }

  function BaseDraft(lore: string, query: seq<real>, minScore: real): Draft {
    Draft([LoreIs(2), Near(1, 3)], [Vector(query), Text(lore), Number(1.0 - minScore)])
  }

  // The search before its LIMIT argument.
  function Compiled(lore: string, query: seq<real>, minScore: real, filter: Option<Filter>, fields: seq<string>): Draft
    requires filter.Some? ==> forall f :: f in fields ==> f in filter.value.ranges
  {
    var q := BaseDraft(lore, query, minScore);
    if filter.None? then q else AddRanges(WithEquals(q, filter.value.equals), fields, filter.value.ranges)
  }

  ghost predicate Lists(fields: seq<string>, filter: Option<Filter>) {
    filter.Some? ==> forall f :: f in fields <==> f in filter.value.ranges
  }

  /** The compiled conjuncts accept exactly the wanted rows, and the only way for them to raise an error
      is a bounded range over a field that has no numeric reading. */
  lemma CompiledMeans(sql: Sql, lore: string, query: seq<real>, minScore: real, filter: Option<Filter>, fields: seq<string>, row: Row)
    requires Lists(fields, filter) && (filter.Some? ==> Encoded(filter.value.equals).Some?)
    ensures var q := Compiled(lore, query, minScore, filter, fields);
      && Placed(q.where, |q.args|)
      && (Accepts(sql, q.where, q.args, row) <==> Wanted(sql, lore, query, minScore, filter, row))
      && (MayRaise(sql, q.where, q.args, row) <==> filter.Some? && Miscast(sql, filter.value, row.metadata))
  {
    var q := BaseDraft(lore, query, minScore);
    BaseMeans(sql, lore, query, minScore, row);
    if filter.Some? {
      WithEqualsMeans(sql, q, filter.value.equals, row);
      AddRangesMeans(sql, WithEquals(q, filter.value.equals), fields, filter.value.ranges, row);
    }
  }

  lemma BaseMeans(sql: Sql, lore: string, query: seq<real>, minScore: real, row: Row)
    ensures var q := BaseDraft(lore, query, minScore);
      && Placed(q.where, |q.args|)
      && (Accepts(sql, q.where, q.args, row) <==> Wanted(sql, lore, query, minScore, None, row))
      && !MayRaise(sql, q.where, q.args, row)
  {
    var q := BaseDraft(lore, query, minScore);
    assert q.where[0] == LoreIs(2) && q.where[1] == Near(1, 3);
    assert Bound(q.args, 2) == Some(Text(lore));
    assert Bound(q.args, 1) == Some(Vector(query)) && Bound(q.args, 3) == Some(Number(1.0 - minScore));
  }

  // The search's own conjuncts, narrowed by the filter, with whatever arguments follow.
  lemma NarrowedSelects(lore: string, query: seq<real>, minScore: real, filter: Option<Filter>, q: Draft, more: seq<Arg>)
    requires Placed(q.where, |q.args|) && Narrows(BaseDraft(lore, query, minScore), q, filter)
    ensures Selects(q.where, q.args + more, lore, query, minScore, filter)
  {
    forall sql, row
      ensures Accepts(sql, q.where, q.args + more, row) <==> Wanted(sql, lore, query, minScore, filter, row)
      ensures MayRaise(sql, q.where, q.args + more, row) <==> filter.Some? && Miscast(sql, filter.value, row.metadata)
    {
      BaseMeans(sql, lore, query, minScore, row);
      MoreArguments(sql, q, more, row);
    }
  }

  lemma MoreArguments(sql: Sql, q: Draft, more: seq<Arg>, row: Row)
    requires Placed(q.where, |q.args|)
    ensures Accepts(sql, q.where, q.args + more, row) <==> Accepts(sql, q.where, q.args, row)
    ensures MayRaise(sql, q.where, q.args + more, row) <==> MayRaise(sql, q.where, q.args, row)
  {
    forall i | 0 <= i < |q.where| ensures Eval(sql, q.where[i], q.args + more, row) == Eval(sql, q.where[i], q.args, row) {
      LaterArgumentsDoNotMatter(sql, q.where, q.args, more, row, i);
    }
  }
}