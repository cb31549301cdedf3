/** internal/helpers/pii.go: the mod-10 check of Annex B of ISO/IEC 7812-1. */
module Luhn {
  type Digit = d: int | 0 <= d <= 9

  predicate IsDigit(c: char) {
    '0' <= c <= '9'
  }

  function DigitOf(c: char): Digit
    requires IsDigit(c)
  {
    (c - '0') as int
  }

  // The digits of a text, separators dropped.
  function Digits(s: string): seq<Digit> {
    if s == "" then []
    else if IsDigit(s[0]) then [DigitOf(s[0])] + Digits(s[1..])
    else Digits(s[1..])
  }

  // ---- What a text spells ----

  // The text is these digits, written '0' to '9', with any number of other characters anywhere between.
  predicate Spells(s: string, ds: seq<Digit>) {
    if s == "" then ds == []
    else if '0' <= s[0] <= '9' then ds != [] && s[0] == "0123456789"[ds[0]] && Spells(s[1..], ds[1..])
    else Spells(s[1..], ds)
  }

  /** Every text spells exactly the digits that are read from it. */
  lemma {:induction false} DigitsAreSpelled(s: string, ds: seq<Digit>)
    ensures Spells(s, ds) <==> ds == Digits(s)
  {
    if s != "" {
      if '0' <= s[0] <= '9' {
        if ds != [] {
          DigitsAreSpelled(s[1..], ds[1..]);
          assert ds == [ds[0]] + ds[1..];
        }
        NumeralAt(s[0]);
      } else {
        DigitsAreSpelled(s[1..], ds);
      }
    }
  }

  lemma NumeralAt(c: char)
    requires '0' <= c <= '9'
    ensures IsDigit(c) && forall d: Digit :: c == "0123456789"[d] <==> d == DigitOf(c)
  {
    assert c in "0123456789" by { assert "0123456789"[(c - '0') as int] == c; }
  }

  function Numeral(ds: seq<Digit>): string {
    seq(|ds|, i requires 0 <= i < |ds| => "0123456789"[ds[i]])
  }

  /** Writing digits down and reading them gives the digits back. */
  lemma {:induction false} DigitsOfNumeral(ds: seq<Digit>)
    ensures Digits(Numeral(ds)) == ds
  {
    if ds != [] {
      DigitsOfNumeral(ds[1..]);
      assert Numeral(ds)[1..] == Numeral(ds[1..]);
      NumeralAt(Numeral(ds)[0]);
    }
  }

  lemma {:induction false} DigitsConcat(a: string, b: string)
    ensures Digits(a + b) == Digits(a) + Digits(b)
  {
    if a == "" {
      assert a + b == b;
    } else {
      assert (a + b)[1..] == a[1..] + b;
      DigitsConcat(a[1..], b);
    }
  }

  lemma {:induction false} SeparatorsHaveNoDigits(s: string)
    requires forall c :: c in s ==> !('0' <= c <= '9')
    ensures Digits(s) == []
  {
    if s != "" {
      assert s[0] in s && forall c :: c in s[1..] ==> c in s;
      SeparatorsHaveNoDigits(s[1..]);
    }
  }

  // ---- The standard's definition ----

  // Twice a digit, and the digits of the product added up.
  function DigitSumOfDouble(d: Digit): int {
    (2 * d) / 10 + (2 * d) % 10
  }

  // The digits left of the check digit, the rightmost and every second one from it doubled.
  function Total(payload: seq<Digit>, doubling: bool): int {
    if payload == [] then 0
    else
      var last := payload[|payload| - 1];
      Total(payload[..|payload| - 1], !doubling) + (if doubling then DigitSumOfDouble(last) else last)
  }

  // What is missing to the next number ending in 0.
  function CheckDigit(payload: seq<Digit>): (c: Digit) {
    (10 - Total(payload, true) % 10) % 10
  }

  predicate Valid(ds: seq<Digit>) {
    13 <= |ds| <= 19 && ds[|ds| - 1] == CheckDigit(ds[..|ds| - 1])
  }

  // ---- The code ----

  function Weight(d: Digit, alt: bool): int {
    if !alt then d else if 2 * d > 9 then 2 * d - 9 else 2 * d
  }

  // The sum over a run of digits, the last one weighted by `alt`, alternating leftwards.
  function Sum(ds: seq<Digit>, alt: bool): int {
    if ds == [] then 0 else Sum(ds[..|ds| - 1], !alt) + Weight(ds[|ds| - 1], alt)
  }

  // The sum read left to right, when the last digit has weight `alt`.
  lemma {:induction false} SumConcat(a: seq<Digit>, b: seq<Digit>, alt: bool)
    ensures Sum(a + b, alt) == Sum(a, alt != (|b| % 2 == 1)) + Sum(b, alt)
    decreases |b|
  {
    if b == [] {
      assert a + b == a;
    } else {
      var ab := a + b;
      assert ab[..|ab| - 1] == a + b[..|b| - 1] && ab[|ab| - 1] == b[|b| - 1];
      SumConcat(a, b[..|b| - 1], !alt);
    }
  }

  // A digit put in front is weighted by the parity of the digits behind it.
  lemma SumCons(d: Digit, ds: seq<Digit>)
    ensures Sum([d] + ds, false) == Sum(ds, false) + Weight(d, |ds| % 2 == 1)
  {
    SumConcat([d], ds, false);
    assert [d][..0] == [];
  }

  lemma DigitsCons(s: string, i: nat)
    requires i < |s|
    ensures Digits(s[i..]) == (if IsDigit(s[i]) then [DigitOf(s[i])] else []) + Digits(s[i + 1..])
  {
    assert s[i..][1..] == s[i + 1..];
  }

  // The loop's three variables after the digits `ds` from the right.
  ghost predicate Tallied(ds: seq<Digit>, sum: int, digits: int, alt: bool) {
    digits == |ds| && alt == (|ds| % 2 == 1) && sum == Sum(ds, false)
  }

  lemma TallyOneMore(d: Digit, ds: seq<Digit>, sum: int, digits: int, alt: bool)
    requires Tallied(ds, sum, digits, alt)
    ensures Tallied([d] + ds, sum + Weight(d, alt), digits + 1, !alt)
  {
    SumCons(d, ds);
  }

  /** The right-to-left loop, separators skipped, decides exactly the standard's check on the digits. */
  method IsLuhnValid(s: string) returns (valid: bool)
    ensures valid <==> Valid(Digits(s))
    ensures forall ds :: Spells(s, ds) ==> (valid <==> Valid(ds))
  {
    forall ds | Spells(s, ds) ensures ds == Digits(s) { DigitsAreSpelled(s, ds); }
    var sum, digits := 0, 0;
    var alt := false;
    var i := |s| - 1;
    while i >= 0
      invariant -1 <= i < |s|
      invariant Tallied(Digits(s[i + 1..]), sum, digits, alt)
      decreases i
    {
      DigitsCons(s, i);
      var c := s[i];
      if IsDigit(c) {
        TallyOneMore(DigitOf(c), Digits(s[i + 1..]), sum, digits, alt);
        var d: int := (c - '0') as int;
        if alt {
          d := if d * 2 > 9 then d * 2 - 9 else d * 2;
        }
        assert d == Weight(DigitOf(c), alt);
        sum := sum + d;
        alt := !alt;
        digits := digits + 1;
      }
      i := i - 1;
    }
    assert s[0..] == s && s[|s|..] == "";
    valid := digits >= 13 && digits <= 19 && sum % 10 == 0;
    ValidIff(Digits(s));
  }

  // The code doubles and takes 9 away where the standard adds the digits of the product.
  lemma {:induction false} TotalIsSum(ds: seq<Digit>, alt: bool)
    ensures Total(ds, alt) == Sum(ds, alt)
  {
    if ds != [] { TotalIsSum(ds[..|ds| - 1], !alt); }
  }

  lemma CheckDigitMakesMultipleOfTen(ds: seq<Digit>)
    requires ds != []
    ensures Sum(ds, false) % 10 == 0 <==> ds[|ds| - 1] == CheckDigit(ds[..|ds| - 1])
  {
    TotalIsSum(ds[..|ds| - 1], true);
    CompletesTen(Sum(ds[..|ds| - 1], true), ds[|ds| - 1]);
  }

  lemma CompletesTen(total: int, c: Digit)
    ensures (total + c) % 10 == 0 <==> c == (10 - total % 10) % 10
  {
  }

  lemma MultiplesDiffer(x: int, y: int, delta: int)
    requires x % 10 == 0 && y == x + delta
    ensures y % 10 == 0 <==> delta % 10 == 0
  {
  }

  /** Every payload of 12 to 18 digits is completed by exactly one check digit, the one the standard
      computes, and that is the one the code's sum accepts. */
  lemma OneCheckDigit(payload: seq<Digit>, c: Digit)
    requires 12 <= |payload| <= 18
    ensures Valid(payload + [c]) <==> c == CheckDigit(payload)
    ensures Sum(payload + [c], false) % 10 == 0 <==> c == CheckDigit(payload)
  {
    assert (payload + [c])[..|payload|] == payload;
    CheckDigitMakesMultipleOfTen(payload + [c]);
  }

  /** Separators anywhere in a number do not matter: with any between two halves of it, the answer is that
      of the digits alone. */
  lemma SeparatorsDoNotMatter(front: seq<Digit>, between: string, back: seq<Digit>)
    requires forall c :: c in between ==> !('0' <= c <= '9')
    ensures Digits(Numeral(front) + between + Numeral(back)) == front + back
  {
    DigitsConcat(Numeral(front) + between, Numeral(back));
    DigitsConcat(Numeral(front), between);
    DigitsOfNumeral(front);
    DigitsOfNumeral(back);
    SeparatorsHaveNoDigits(between);
  }

  // How one digit enters the sum.
  lemma SumSplit(a: seq<Digit>, d: Digit, b: seq<Digit>)
    ensures Sum(a + [d] + b, false) ==
      Sum(a, |b| % 2 == 0) + Weight(d, |b| % 2 == 1) + Sum(b, false)
  {
    SumConcat(a + [d], b, false);
    SumConcat(a, [d], |b| % 2 == 1);
    assert Sum([d], |b| % 2 == 1) == Weight(d, |b| % 2 == 1) by { assert [d][..0] == []; }
  }

  lemma ValidIff(ds: seq<Digit>)
    ensures Valid(ds) <==> 13 <= |ds| <= 19 && Sum(ds, false) % 10 == 0
  {
    if ds != [] { CheckDigitMakesMultipleOfTen(ds); }
  }

  /** Changing any one digit of a valid number makes it invalid. */
  lemma SingleErrorDetected(a: seq<Digit>, d: Digit, e: Digit, b: seq<Digit>)
    requires Valid(a + [d] + b) && d != e
    ensures !Valid(a + [e] + b)
  {
    ValidIff(a + [d] + b);
    ValidIff(a + [e] + b);
    SumSplit(a, d, b);
    SumSplit(a, e, b);
    var alt := |b| % 2 == 1;
    WeightsDiffer(e, d, alt);
    MultiplesDiffer(Sum(a + [d] + b, false), Sum(a + [e] + b, false), Weight(e, alt) - Weight(d, alt));
  }

  lemma WeightsDiffer(d: Digit, e: Digit, alt: bool)
    requires d != e
    ensures (Weight(d, alt) - Weight(e, alt)) % 10 != 0
  {
  }

  /** Swapping two different neighbours of a valid number makes it invalid, except 0 with 9, which goes
      unnoticed. */
  lemma SwapDetectedIff(a: seq<Digit>, d: Digit, e: Digit, b: seq<Digit>)
    requires Valid(a + [d, e] + b) && d != e
    ensures Valid(a + [e, d] + b) <==> {d, e} == {0, 9}
  {
    ValidIff(a + [d, e] + b);
    ValidIff(a + [e, d] + b);
    PairSum(a, d, e, b);
    PairSum(a, e, d, b);
    var alt := |b| % 2 == 1;
    SwapDifference(e, d, alt);
    MultiplesDiffer(Sum(a + [d, e] + b, false), Sum(a + [e, d] + b, false),
                    Weight(e, !alt) + Weight(d, alt) - Weight(d, !alt) - Weight(e, alt));
    assert {d, e} == {0, 9} <==> (d == 0 && e == 9) || (d == 9 && e == 0) by {
      assert d in {d, e} && e in {d, e} && 0 in {0, 9} && 9 in {0, 9};
    }
  }

  lemma PairSum(a: seq<Digit>, d: Digit, e: Digit, b: seq<Digit>)
    ensures Sum(a + [d, e] + b, false) ==
      Sum(a, |b| % 2 == 1) + Weight(d, |b| % 2 == 0) + Weight(e, |b| % 2 == 1) + Sum(b, false)
  {
    assert a + [d, e] == (a + [d]) + [e];
    SumSplit(a + [d], e, b);
    SumConcat(a, [d], |b| % 2 == 0);
    assert Sum([d], |b| % 2 == 0) == Weight(d, |b| % 2 == 0) by { assert [d][..0] == []; }
  }

  lemma SwapDifference(d: Digit, e: Digit, alt: bool)
    ensures (Weight(d, !alt) + Weight(e, alt) - Weight(e, !alt) - Weight(d, alt)) % 10 == 0
      <==> d == e || (d == 0 && e == 9) || (d == 9 && e == 0)
  {
  }
}
