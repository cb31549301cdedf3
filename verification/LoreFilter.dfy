/** Chunk metadata, and what a LoreFilter asks of it. Metadata values are JSON scalars; numbers are
    taken as reals. */
module LoreFilter {
  import opened Wrappers

  datatype Scalar = Null | Bool(b: bool) | Num(n: real) | Str(s: string)

  type Metadata = map<string, Scalar>

  // A filter value the encoders accept, or one they refuse (a channel, a function).
  datatype FilterValue = Json(value: Scalar) | Unencodable

  datatype Range = Range(min: Option<real>, max: Option<real>)

  datatype Filter = Filter(equals: map<string, FilterValue>, ranges: map<string, Range>)

  predicate Within(x: real, r: Range) {
    && (r.min.Some? ==> r.min.value <= x)
    && (r.max.Some? ==> x <= r.max.value)
  }

  predicate Bounded(r: Range) {
    r.min.Some? || r.max.Some?
  }

  ghost predicate EqualsHold(equals: map<string, FilterValue>, metadata: Metadata) {
    forall f :: f in equals ==> f in metadata && equals[f] == Json(metadata[f])
  }
}
