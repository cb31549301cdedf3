/** providers/pgvector/lore_store.go: the vector literal "[x,y,z]", printed and parsed back. How one
    number is printed and parsed is a parameter. */
module VectorLiteral {
  import opened Wrappers

  datatype Codec<!F> = Codec(show: F -> string, parse: string -> Option<F>)

  predicate Space(c: char) {
    c in {' ', '\t', '\n', '\r', '\U{000B}', '\U{000C}', '\U{0085}', '\U{00A0}'}
  }

  // The printer emits plain non-empty text that the parser takes back.
  ghost predicate Sound<F(!new)>(codec: Codec<F>) {
    forall f: F :: codec.parse(codec.show(f)) == Some(f) && Plain(codec.show(f))
  }

  predicate Plain(s: string) {
    s != "" && forall c :: c in s ==> c !in {',', '[', ']'} && !Space(c)
  }

  // ---- The library calls the parser makes ----

  function TrimLeft(s: string): string {
    if s != "" && Space(s[0]) then TrimLeft(s[1..]) else s
  }

  function TrimRight(s: string): string {
    if s != "" && Space(s[|s| - 1]) then TrimRight(s[..|s| - 1]) else s
  }

  function TrimSpace(s: string): string {
    TrimRight(TrimLeft(s))
  }

  function TrimSuffix(s: string, c: char): string {
    if s != "" && s[|s| - 1] == c then s[..|s| - 1] else s
  }

  function TrimPrefix(s: string, c: char): string {
    if s != "" && s[0] == c then s[1..] else s
  }

  // strings.Split on a comma.
  function Split(s: string): (parts: seq<string>)
    ensures |parts| > 0
  {
    if s == "" then [""]
    else
      var front := Split(s[..|s| - 1]);
      var c := s[|s| - 1];
      if c == ',' then front + [""]
      else front[|front| - 1 := front[|front| - 1] + [c]]
  }

  // ---- Printing ----

  function Joined<F>(codec: Codec<F>, v: seq<F>): string {
    if v == [] then ""
    else if |v| == 1 then codec.show(v[0])
    else Joined(codec, v[..|v| - 1]) + "," + codec.show(v[|v| - 1])
  }

  function Literal<F>(codec: Codec<F>, v: seq<F>): string {
    "[" + Joined(codec, v) + "]"
  }

  method FormatVector<F>(codec: Codec<F>, v: seq<F>) returns (s: string)
    ensures s == Literal(codec, v)
    ensures |s| >= 2 && s[0] == '[' && s[|s| - 1] == ']'
  {
    if |v| == 0 {
      return "[]";
    }
    s := "[";
    for i := 0 to |v|
      invariant s == "[" + Joined(codec, v[..i])
    {
      if i > 0 {
        s := s + ",";
      }
      s := s + codec.show(v[i]);
      assert v[..i + 1][..i] == v[..i];
    }
    assert v[..|v|] == v;
    s := s + "]";
  }

  // ---- Parsing ----

  function ParseAll<F>(codec: Codec<F>, parts: seq<string>): Option<seq<F>> {
    if parts == [] then Some([])
    else
      match (ParseAll(codec, parts[..|parts| - 1]), codec.parse(TrimSpace(parts[|parts| - 1])))
      case (Some(front), Some(f)) => Some(front + [f])
      case _ => None
  }

  function Parsed<F>(codec: Codec<F>, s: string): Option<seq<F>> {
    var inner := TrimPrefix(TrimSuffix(TrimSpace(s), ']'), '[');
    if inner == "" then Some([]) else ParseAll(codec, Split(inner))
  }

  method VectorFromString<F>(codec: Codec<F>, s: string) returns (r: Option<seq<F>>)
    ensures r == Parsed(codec, s)
  {
    var inner := TrimPrefix(TrimSuffix(TrimSpace(s), ']'), '[');
    if inner == "" {
      return Some([]);
    }
    var parts := Split(inner);
    var out: seq<F> := [];
    for i := 0 to |parts|
      invariant ParseAll(codec, parts[..i]) == Some(out)
    {
      assert parts[..i + 1][..i] == parts[..i];
      var f := codec.parse(TrimSpace(parts[i]));
      if f.None? {
        FailurePersists(codec, parts, i + 1);
        return None;
      }
      out := out + [f.value];
    }
    assert parts[..|parts|] == parts;
    return Some(out);
  }

  lemma {:induction false} FailurePersists<F>(codec: Codec<F>, parts: seq<string>, i: nat)
    requires i <= |parts| && ParseAll(codec, parts[..i]).None?
    ensures ParseAll(codec, parts).None?
    decreases |parts| - i
  {
    if i == |parts| {
      assert parts[..i] == parts;
    } else {
      assert parts[..i + 1][..i] == parts[..i];
      FailurePersists(codec, parts, i + 1);
    }
  }

  // ---- What the parser accepts ----

  function Commas(parts: seq<string>): string {
    if parts == [] then ""
    else if |parts| == 1 then parts[0]
    else Commas(parts[..|parts| - 1]) + "," + parts[|parts| - 1]
  }

  lemma CommasSnoc(parts: seq<string>, last: string)
    requires parts != []
    ensures Commas(parts + [last]) == Commas(parts) + "," + last
  {
    assert (parts + [last])[..|parts|] == parts;
  }

  // Appending to the last part appends to the whole.
  lemma CommasExtend(parts: seq<string>, c: char)
    requires parts != []
    ensures Commas(parts[|parts| - 1 := parts[|parts| - 1] + [c]]) == Commas(parts) + [c]
  {
    var n := |parts| - 1;
    var longer := parts[n := parts[n] + [c]];
    assert longer[..n] == parts[..n];
    if n > 0 {
      assert Commas(parts[..n]) + "," + (parts[n] + [c]) == Commas(parts[..n]) + "," + parts[n] + [c];
    }
  }

  /** Splitting cuts a text at its commas, all of them and nothing else. */
  lemma {:induction false} SplitCuts(s: string)
    ensures Commas(Split(s)) == s
    ensures forall part :: part in Split(s) ==> ',' !in part
  {
    if s != "" {
      var front, c := s[..|s| - 1], s[|s| - 1];
      SplitCuts(front);
      var parts := Split(front);
      assert s == front + [c];
      if c == ',' {
        CommasSnoc(parts, "");
        assert front + "," + "" == s;
      } else {
        CommasExtend(parts, c);
        assert parts[|parts| - 1] in parts;
      }
    }
  }

  const BLANKS := " \t\n\r\U{000B}\U{000C}\U{0085}\U{00A0}"

  // s without the blanks around it.
  ghost predicate Trims(s: string, t: string) {
    && (t != "" ==> t[0] !in BLANKS && t[|t| - 1] !in BLANKS)
    && exists i, j :: 0 <= i <= j <= |s| && t == s[i..j]
         && (forall k :: 0 <= k < i ==> s[k] in BLANKS) && (forall k :: j <= k < |s| ==> s[k] in BLANKS)
  }

  lemma {:induction false} TrimLeftCuts(s: string) returns (i: nat)
    ensures i <= |s| && TrimLeft(s) == s[i..]
    ensures forall k :: 0 <= k < i ==> Space(s[k])
    ensures i < |s| ==> !Space(s[i])
  {
    i := 0;
    if s != "" && Space(s[0]) {
      var rest := TrimLeftCuts(s[1..]);
      i := rest + 1;
      assert s[1..][rest..] == s[i..];
      assert forall k :: 1 <= k < i ==> s[k] == s[1..][k - 1];
    }
  }

  lemma {:induction false} TrimRightCuts(s: string) returns (j: nat)
    ensures j <= |s| && TrimRight(s) == s[..j]
    ensures forall k :: j <= k < |s| ==> Space(s[k])
    ensures j > 0 ==> !Space(s[j - 1])
  {
    j := |s|;
    if s != "" && Space(s[|s| - 1]) {
      j := TrimRightCuts(s[..|s| - 1]);
      assert s[..|s| - 1][..j] == s[..j];
    }
  }

  lemma SpaceIsBlank()
    ensures forall c :: Space(c) <==> c in BLANKS
  {
    forall c ensures Space(c) <==> c in BLANKS {
      assert BLANKS[0] == ' ' && BLANKS[1] == '\t' && BLANKS[2] == '\n' && BLANKS[3] == '\r';
      assert BLANKS[4] == '\U{000B}' && BLANKS[5] == '\U{000C}' && BLANKS[6] == '\U{0085}' && BLANKS[7] == '\U{00A0}';
    }
  }

  lemma TrimSpaceTrims(s: string)
    ensures Trims(s, TrimSpace(s))
  {
    SpaceIsBlank();
    var i := TrimLeftCuts(s);
    var left := s[i..];
    var j := TrimRightCuts(left);
    assert left[..j] == s[i..i + j];
    assert forall k :: i + j <= k < |s| ==> s[k] == left[k - i];
    assert j > 0 ==> left[..j][0] == s[i] && left[..j][j - 1] == left[j - 1];
  }

  // Some part is no number, with or without blanks around it.
  predicate SomeFails<F>(codec: Codec<F>, parts: seq<string>) {
    exists k :: 0 <= k < |parts| && codec.parse(TrimSpace(parts[k])).None?
  }

  ghost predicate Reads<F>(codec: Codec<F>, parts: seq<string>, v: seq<F>) {
    |v| == |parts| && forall k :: 0 <= k < |parts| ==> codec.parse(TrimSpace(parts[k])) == Some(v[k])
  }

  /** A text fails to parse exactly when there is something inside its brackets and one of the parts between
      the commas is no number; otherwise every part gives its number, in order. */
  lemma ParseReads<F>(codec: Codec<F>, s: string)
    ensures var inner := TrimPrefix(TrimSuffix(TrimSpace(s), ']'), '[');
      && (inner == "" ==> Parsed(codec, s) == Some([]))
      && (Parsed(codec, s).None? <==> inner != "" && SomeFails(codec, Split(inner)))
      && (inner != "" && Parsed(codec, s).Some? ==> Reads(codec, Split(inner), Parsed(codec, s).value))
  {
    ParseAllReads(codec, Split(TrimPrefix(TrimSuffix(TrimSpace(s), ']'), '[')));
  }

  lemma {:induction false} ParseAllReads<F>(codec: Codec<F>, parts: seq<string>)
    ensures ParseAll(codec, parts).None? <==> SomeFails(codec, parts)
    ensures ParseAll(codec, parts).Some? ==> Reads(codec, parts, ParseAll(codec, parts).value)
  {
    if parts != [] {
      var front := parts[..|parts| - 1];
      ParseAllReads(codec, front);
      assert forall k :: 0 <= k < |front| ==> front[k] == parts[k];
    }
  }

  // ---- The round trip ----

  lemma {:induction false} SplitBehindComma(a: string, b: string)
    requires ',' !in b
    ensures Split(a + "," + b) == Split(a) + [b]
    decreases |b|
  {
    var s := a + "," + b;
    if b == "" {
      assert s[..|s| - 1] == a;
    } else {
      var front := b[..|b| - 1];
      assert s[..|s| - 1] == a + "," + front;
      SplitBehindComma(a, front);
      assert b == front + [b[|b| - 1]];
    }
  }

  lemma {:induction false} SplitWithoutComma(b: string)
    requires ',' !in b
    ensures Split(b) == [b]
  {
    if b != "" {
      SplitWithoutComma(b[..|b| - 1]);
      assert b == b[..|b| - 1] + [b[|b| - 1]];
    }
  }

  function Printed<F>(codec: Codec<F>, v: seq<F>): seq<string> {
    seq(|v|, i requires 0 <= i < |v| => codec.show(v[i]))
  }

  lemma PrintedSnoc<F>(codec: Codec<F>, v: seq<F>)
    requires v != []
    ensures Printed(codec, v) == Printed(codec, v[..|v| - 1]) + [codec.show(v[|v| - 1])]
  {
  }

  lemma {:induction false} SplitUndoesJoin<F(!new)>(codec: Codec<F>, v: seq<F>)
    requires Sound(codec) && v != []
    ensures Split(Joined(codec, v)) == Printed(codec, v)
  {
    var front, last := v[..|v| - 1], codec.show(v[|v| - 1]);
    assert Plain(last);
    PrintedSnoc(codec, v);
    if front == [] {
      SplitWithoutComma(last);
    } else {
      SplitUndoesJoin(codec, front);
      SplitBehindComma(Joined(codec, front), last);
    }
  }

  lemma PlainIsTrimmed(s: string)
    requires Plain(s)
    ensures TrimSpace(s) == s
  {
    assert s[0] in s && s[|s| - 1] in s;
  }

  lemma {:induction false} ParseUndoesPrint<F(!new)>(codec: Codec<F>, v: seq<F>)
    requires Sound(codec)
    ensures ParseAll(codec, Printed(codec, v)) == Some(v)
  {
    if v != [] {
      var front := v[..|v| - 1];
      ParseUndoesPrint(codec, front);
      PlainIsTrimmed(codec.show(v[|v| - 1]));
      assert Printed(codec, v)[..|v| - 1] == Printed(codec, front);
      assert v == front + [v[|v| - 1]];
    }
  }

  /** Parsing a printed vector gives the vector back, the empty one included. */
  lemma RoundTrip<F(!new)>(codec: Codec<F>, v: seq<F>)
    requires Sound(codec)
    ensures Parsed(codec, Literal(codec, v)) == Some(v)
  {
    var s := Literal(codec, v);
    assert s[0] == '[' && s[|s| - 1] == ']';
    assert TrimSpace(s) == s;
    assert TrimPrefix(TrimSuffix(s, ']'), '[') == Joined(codec, v);
    if v != [] {
      SplitUndoesJoin(codec, v);
      ParseUndoesPrint(codec, v);
      assert Plain(codec.show(v[0])) && Plain(codec.show(v[|v| - 1]));
    }
  }
}
