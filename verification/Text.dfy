/** Strings shared by several components: dictionary order and decimal numbers. */
module Text {

  datatype Option<+T> = None | Some(value: T)

  /* Dictionary order on strings: what `<` and a string sort use. */
  predicate Less(a: string, b: string) {
    if b == [] then false
    else if a == [] then true
    else a[0] < b[0] || (a[0] == b[0] && Less(a[1..], b[1..]))
  }

  lemma {:induction false} LessTotal(a: string, b: string)
    ensures a == b || Less(a, b) || Less(b, a)
  {
    if a != [] && b != [] && a[0] == b[0] {
      LessTotal(a[1..], b[1..]);
      assert a == [a[0]] + a[1..] && b == [b[0]] + b[1..];
    }
  }

  lemma {:induction false} LessAsymmetric(a: string, b: string)
    requires Less(a, b)
    ensures !Less(b, a)
  {
    if a != [] && a[0] == b[0] {
      LessAsymmetric(a[1..], b[1..]);
    }
  }

  lemma {:induction false} LessTransitive(a: string, b: string, c: string)
    requires Less(a, b) && Less(b, c)
    ensures Less(a, c)
  {
    if a != [] && a[0] == b[0] == c[0] {
      LessTransitive(a[1..], b[1..], c[1..]);
    }
  }

  ghost predicate DiffersAt(a: string, b: string, k: nat) {
    k < |a| && k < |b| && a[k] != b[k] && forall i :: 0 <= i < k ==> a[i] == b[i]
  }

  ghost predicate StartOf(a: string, b: string) {
    |a| < |b| && forall i :: 0 <= i < |a| ==> a[i] == b[i]
  }

  /* A string comes before another when it is the start of it, or has the smaller character at the first place
     where they differ. */
  lemma {:induction false} LessAtFirstDifference(a: string, b: string)
    ensures Less(a, b) <==> StartOf(a, b) || exists k: nat :: DiffersAt(a, b, k) && a[k] < b[k]
  {
    if a != [] && b != [] && a[0] == b[0] {
      var x, y := a[1..], b[1..];
      LessAtFirstDifference(x, y);
      forall k: nat ensures DiffersAt(x, y, k) <==> DiffersAt(a, b, k + 1) { DiffersNext(a, b, k); }
      StartNext(a, b);
      if k: nat :| DiffersAt(x, y, k) && x[k] < y[k] { assert a[k + 1] < b[k + 1]; }
      if k: nat :| DiffersAt(a, b, k) && a[k] < b[k] {
        assert DiffersAt(x, y, k - 1) <==> DiffersAt(a, b, k - 1 + 1);
        assert x[k - 1] < y[k - 1];
      }
    } else if a != [] && b != [] {
      assert DiffersAt(a, b, 0);
    }
  }

  lemma DiffersNext(a: string, b: string, k: nat)
    requires a != [] && b != [] && a[0] == b[0]
    ensures DiffersAt(a[1..], b[1..], k) <==> DiffersAt(a, b, k + 1)
  {
    if DiffersAt(a[1..], b[1..], k) {
      forall i | 0 < i < k + 1 ensures a[i] == b[i] { assert a[1..][i - 1] == b[1..][i - 1]; }
    }
  }

  lemma StartNext(a: string, b: string)
    requires a != [] && b != [] && a[0] == b[0]
    ensures StartOf(a[1..], b[1..]) <==> StartOf(a, b)
  {
    if StartOf(a[1..], b[1..]) {
      forall i | 0 < i < |a| ensures a[i] == b[i] { assert a[1..][i - 1] == b[1..][i - 1]; }
    }
  }

  /* Strictly ascending: sorted, with no string twice. */
  ghost predicate Ascending(names: seq<string>) {
    forall i, j :: 0 <= i < j < |names| ==> Less(names[i], names[j])
  }

  /* Sorted as a string sort leaves a list: no later name is smaller. */
  ghost predicate Sorted(names: seq<string>) {
    forall i, j :: 0 <= i < j < |names| ==> !Less(names[j], names[i])
  }

  const DIGITS := "0123456789"

  predicate IsDigit(c: char) { '0' <= c <= '9' }

  function DigitValue(c: char): nat
    requires IsDigit(c)
  {
    c as int - '0' as int
  }

  lemma DigitsAre(c: char)
    ensures IsDigit(c) <==> c in "0123456789"
    ensures IsDigit(c) ==> "0123456789"[DigitValue(c)] == c
  {
  }

  /* The decimal form of a number, without leading zeros. */
  function Decimal(n: nat): (s: string)
    ensures s != [] && forall i :: 0 <= i < |s| ==> IsDigit(s[i])
  {
    if n < 10 then [DIGITS[n]] else Decimal(n / 10) + [DIGITS[n % 10]]
  }

  /* The number a run of digits denotes; leading zeros are allowed. */
  function Number(s: string): nat
    requires forall i :: 0 <= i < |s| ==> IsDigit(s[i])
  {
    if s == [] then 0 else 10 * Number(s[..|s| - 1]) + DigitValue(s[|s| - 1])
  }

  lemma {:induction false} NumberOfDecimal(n: nat)
    ensures Number(Decimal(n)) == n
  {
    if n >= 10 {
      NumberOfDecimal(n / 10);
      var s := Decimal(n);
      assert s[..|s| - 1] == Decimal(n / 10);
    }
  }

  lemma DecimalInjective(m: nat, n: nat)
    requires Decimal(m) == Decimal(n)
    ensures m == n
  {
    NumberOfDecimal(m);
    NumberOfDecimal(n);
  }
}
