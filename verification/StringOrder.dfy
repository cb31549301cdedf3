/** The order sort.Strings uses, and sorting by it. */
module StringOrder {
  predicate Below(a: string, b: string) {
    |b| > 0 && (|a| == 0 || a[0] < b[0] || (a[0] == b[0] && Below(a[1..], b[1..])))
  }

  // At some position the two part: the first ends there, or has the smaller character.
  ghost predicate PartsAt(a: string, b: string, k: nat) {
    k <= |a| && k < |b| && a[..k] == b[..k] && (k == |a| || a[k] < b[k])
  }

  lemma SameFirst(a: string, b: string, k: nat)
    requires PartsAt(a, b, k) && k > 0
    ensures a[0] == b[0]
  {
    assert a[..k][0] == b[..k][0];
  }

  /** It is the dictionary order. */
  lemma {:induction false} BelowIff(a: string, b: string)
    ensures Below(a, b) <==> exists k: nat :: PartsAt(a, b, k)
  {
    if |a| == 0 || |b| == 0 || a[0] != b[0] {
      if Below(a, b) { assert PartsAt(a, b, 0); }
      if k: nat :| PartsAt(a, b, k) {
        if k > 0 { SameFirst(a, b, k); }
      }
    } else {
      BelowIff(a[1..], b[1..]);
      if k: nat :| PartsAt(a[1..], b[1..], k) {
        assert a[..k + 1] == [a[0]] + a[1..][..k] && b[..k + 1] == [b[0]] + b[1..][..k];
        assert PartsAt(a, b, k + 1);
      }
      if k: nat :| PartsAt(a, b, k) {
        assert k > 0;
        assert a[1..][..k - 1] == a[..k][1..] && b[1..][..k - 1] == b[..k][1..];
        assert PartsAt(a[1..], b[1..], k - 1);
      }
    }
  }

  lemma {:induction false} BelowIsTotal(a: string, b: string)
    ensures a == b || Below(a, b) || Below(b, a)
  {
    if |a| > 0 && |b| > 0 && a[0] == b[0] {
      BelowIsTotal(a[1..], b[1..]);
      assert a == [a[0]] + a[1..] && b == [b[0]] + b[1..];
    }
  }

  lemma {:induction false} BelowIsTransitive(a: string, b: string, c: string)
    requires Below(a, b) && Below(b, c)
    ensures Below(a, c)
  {
    if |a| > 0 && a[0] == b[0] && b[0] == c[0] {
      BelowIsTransitive(a[1..], b[1..], c[1..]);
    }
  }

  lemma {:induction false} BelowIsIrreflexive(a: string)
    ensures !Below(a, a)
  {
    if |a| > 0 { BelowIsIrreflexive(a[1..]); }
  }

  // Strictly increasing.
  ghost predicate Sorted(s: seq<string>) {
    forall i, j :: 0 <= i < j < |s| ==> Below(s[i], s[j])
  }

  ghost function Elements(s: seq<string>): set<string> {
    set x | x in s
  }

  /** A set of strings has only one sorted listing. */
  lemma {:induction false} SortedListingIsUnique(a: seq<string>, b: seq<string>)
    requires Sorted(a) && Sorted(b) && Elements(a) == Elements(b)
    ensures a == b
    decreases |a|
  {
    EmptyHasNoElements(a);
    EmptyHasNoElements(b);
    if a != [] {
      SameHead(a, b);
      var x := a[0];
      assert Elements(a[1..]) == Elements(a) - {x} by { HeadIsNotInTail(a); }
      assert Elements(b[1..]) == Elements(b) - {x} by { HeadIsNotInTail(b); }
      SortedListingIsUnique(a[1..], b[1..]);
      assert a == [x] + a[1..] && b == [x] + b[1..];
    }
  }

  lemma EmptyHasNoElements(s: seq<string>)
    ensures s == [] <==> Elements(s) == {}
  {
    assert s != [] ==> s[0] in Elements(s);
  }

  lemma HeadIsNotInTail(s: seq<string>)
    requires Sorted(s) && s != []
    ensures s[0] !in s[1..] && forall x :: x in s <==> x == s[0] || x in s[1..]
  {
    BelowIsIrreflexive(s[0]);
    assert s == [s[0]] + s[1..];
  }

  lemma SameHead(a: seq<string>, b: seq<string>)
    requires Sorted(a) && Sorted(b) && Elements(a) == Elements(b) && a != [] && b != []
    ensures a[0] == b[0]
  {
    assert a[0] in Elements(a) && b[0] in Elements(b);
    assert a[0] in b && b[0] in a;
    if a[0] != b[0] {
      var i :| 0 <= i < |b| && b[i] == a[0];
      var j :| 0 <= j < |a| && a[j] == b[0];
      assert Below(b[0], a[0]) && Below(a[0], b[0]);
      BelowIsTransitive(a[0], b[0], a[0]);
      BelowIsIrreflexive(a[0]);
    }
  }

  // Insertion of a new element into a sorted listing.
  method Insert(sorted: seq<string>, x: string) returns (r: seq<string>)
    requires Sorted(sorted) && x !in sorted
    ensures Sorted(r) && Elements(r) == Elements(sorted) + {x}
  {
    var i := 0;
    while i < |sorted| && Below(sorted[i], x)
      invariant 0 <= i <= |sorted|
      invariant forall k :: 0 <= k < i ==> Below(sorted[k], x)
    {
      i := i + 1;
    }
    r := sorted[..i] + [x] + sorted[i..];
    forall k | i <= k < |sorted| ensures Below(x, sorted[k]) {
      BelowIsTotal(sorted[i], x);
      if k > i { BelowIsTransitive(x, sorted[i], sorted[k]); }
    }
    assert forall y :: y in sorted <==> y in sorted[..i] || y in sorted[i..] by {
      assert sorted == sorted[..i] + sorted[i..];
    }
  }
}
