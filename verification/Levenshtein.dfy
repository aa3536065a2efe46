/** Edit distance (registry/spec.go): the two-row table, what it computes, and why that is
    the length of a shortest edit script and so a metric. */
module Levenshtein {

  function Min3(a: nat, b: nat, c: nat): nat {
    var m := if b < a then b else a;
    if c < m then c else m
  }

  function DropLast(a: string): string
    requires a != []
  {
    a[..|a| - 1]
  }

  function Last(a: string): char
    requires a != []
  {
    a[|a| - 1]
  }

  function Cost(x: char, y: char): nat { if x == y then 0 else 1 }

  /* The textbook recurrence on the last characters. */
  function Edit(a: string, b: string): nat
    decreases |a| + |b|
  {
    if a == [] then |b|
    else if b == [] then |a|
    else Min3(Edit(a, DropLast(b)) + 1,
              Edit(DropLast(a), b) + 1,
              Edit(DropLast(a), DropLast(b)) + Cost(Last(a), Last(b)))
  }

  // ---------- The table ----------

  /* The rows the loops fill in: row i, column j stands for the first i and j characters. */
  ghost predicate IsTable(a: string, b: string, rows: seq<seq<nat>>) {
    && 0 < |rows| <= |a| + 1
    && (forall i :: 0 <= i < |rows| ==> |rows[i]| == |b| + 1 && rows[i][0] == i)
    && (forall j :: 0 <= j <= |b| ==> rows[0][j] == j)
    && (forall i :: 0 < i < |rows| ==> Follows(a, b, i, rows[i - 1], rows[i]))
  }

  /* row is what the inner loop makes of the row above it. */
  ghost predicate Follows(a: string, b: string, i: nat, above: seq<nat>, row: seq<nat>)
    requires 0 < i <= |a| && |above| == |row| == |b| + 1
  {
    forall j :: 0 < j <= |b| ==> CellFollows(a, b, i, above, row, j)
  }

  ghost predicate CellFollows(a: string, b: string, i: nat, above: seq<nat>, row: seq<nat>, j: nat)
    requires 0 < i <= |a| && |above| == |row| == |b| + 1 && 0 < j <= |b|
  {
    row[j] == Min3(row[j - 1] + 1, above[j] + 1, above[j - 1] + Cost(a[i - 1], b[j - 1]))
  }

  lemma EditStep(x: string, y: string, left: nat, above: nat, diagonal: nat)
    requires x != [] && y != []
    requires left == Edit(x, DropLast(y)) && above == Edit(DropLast(x), y)
    requires diagonal == Edit(DropLast(x), DropLast(y))
    ensures Edit(x, y) == Min3(left + 1, above + 1, diagonal + Cost(Last(x), Last(y)))
  {
  }

  /* Every cell is the distance between the two prefixes x and y it stands for. */
  lemma {:induction false} CellIsEdit(a: string, b: string, rows: seq<seq<nat>>, x: string, y: string)
    requires IsTable(a, b, rows) && x <= a && |x| < |rows| && y <= b
    ensures rows[|x|][|y|] == Edit(x, y)
    decreases |x| + |y|
  {
    if x != [] && y != [] {
      var i, j, x', y' := |x|, |y|, DropLast(x), DropLast(y);
      CellIsEdit(a, b, rows, x, y');
      CellIsEdit(a, b, rows, x', y);
      CellIsEdit(a, b, rows, x', y');
      assert Follows(a, b, i, rows[i - 1], rows[i]);
      assert CellFollows(a, b, i, rows[i - 1], rows[i], j);
      EditStep(x, y, rows[i][j - 1], rows[i - 1][j], rows[i - 1][j - 1]);
    }
  }

  method Distance(a: string, b: string) returns (d: nat)
    ensures d == Edit(a, b)
  {
    if a == b {
      EditSelf(a);
      return 0;
    }
    if |a| == 0 { return |b|; }
    if |b| == 0 { return |a|; }
    d := FillTable(a, b);
  }

  /* Fills the table row by row, keeping two rows and swapping them. */
  method FillTable(a: string, b: string) returns (d: nat)
    ensures d == Edit(a, b)
  {
    var prev := new nat[|b| + 1](_ => 0);
    var curr := new nat[|b| + 1](_ => 0);
    for j := 0 to |b| + 1
      invariant forall k :: 0 <= k < j ==> prev[k] == k
    {
      prev[j] := j;
    }
    ghost var rows := [prev[..]];
    for i := 1 to |a| + 1
      invariant prev.Length == curr.Length == |b| + 1 && prev != curr
      invariant fresh(prev) && fresh(curr)
      invariant IsTable(a, b, rows) && |rows| == i && prev[..] == rows[i - 1]
    {
      curr[0] := i;
      for j := 1 to |b| + 1
        invariant prev[..] == rows[i - 1]
        invariant curr[0] == i
        invariant forall k :: 0 < k < j ==> CellFollows(a, b, i, prev[..], curr[..], k)
      {
        var cost := 1;
        if a[i - 1] == b[j - 1] {
          cost := 0;
        }
        ghost var before := curr[..];
        curr[j] := Min3(curr[j - 1] + 1, prev[j] + 1, prev[j - 1] + cost);
        forall k | 0 < k < j ensures CellFollows(a, b, i, prev[..], curr[..], k) {
          assert CellFollows(a, b, i, prev[..], before, k);
        }
      }
      assert Follows(a, b, i, prev[..], curr[..]);
      rows := rows + [curr[..]];
      prev, curr := curr, prev;
    }
    CellIsEdit(a, b, rows, a, b);
    d := prev[|b|];
  }

  // ---------- A metric ----------

  lemma {:induction false} EditSelf(a: string)
    ensures Edit(a, a) == 0
  {
    if a != [] {
      EditSelf(DropLast(a));
    }
  }

  lemma {:induction false} EditZeroOnlyIfEqual(a: string, b: string)
    requires Edit(a, b) == 0
    ensures a == b
    decreases |a|
  {
    if a != [] && b != [] {
      EditZeroOnlyIfEqual(DropLast(a), DropLast(b));
      assert a == DropLast(a) + [Last(a)] && b == DropLast(b) + [Last(b)];
    }
  }

  lemma {:induction false} EditSymmetric(a: string, b: string)
    ensures Edit(a, b) == Edit(b, a)
    decreases |a| + |b|
  {
    if a != [] && b != [] {
      EditSymmetric(a, DropLast(b));
      EditSymmetric(DropLast(a), b);
      EditSymmetric(DropLast(a), DropLast(b));
    }
  }

  lemma {:induction false} EditAtLeastLengthGap(a: string, b: string)
    ensures |b| <= |a| + Edit(a, b)
    ensures |a| <= |b| + Edit(a, b)
    decreases |a| + |b|
  {
    if a != [] && b != [] {
      EditAtLeastLengthGap(a, DropLast(b));
      EditAtLeastLengthGap(DropLast(a), b);
      EditAtLeastLengthGap(DropLast(a), DropLast(b));
    }
  }

  /* What one step of the recurrence guarantees from above. */
  lemma EditUpper(a: string, b: string)
    ensures a != [] ==> Edit(a, b) <= Edit(DropLast(a), b) + 1
    ensures b != [] ==> Edit(a, b) <= Edit(a, DropLast(b)) + 1
    ensures a != [] && b != [] ==> Edit(a, b) <= Edit(DropLast(a), DropLast(b)) + Cost(Last(a), Last(b))
  {
  }

  /* And from below: one of the three neighbours accounts for the cell. */
  lemma EditBranch(a: string, b: string)
    requires a != [] && b != []
    ensures || Edit(a, b) == Edit(DropLast(a), b) + 1
            || Edit(a, b) == Edit(a, DropLast(b)) + 1
            || Edit(a, b) == Edit(DropLast(a), DropLast(b)) + Cost(Last(a), Last(b))
  {
  }

  lemma {:induction false} TriangleInequality(a: string, b: string, c: string)
    ensures Edit(a, c) <= Edit(a, b) + Edit(b, c)
    decreases |a| + |b| + |c|
  {
    EditUpper(a, c);
    if a == [] {
      EditAtLeastLengthGap(b, c);
    } else if c == [] {
      EditAtLeastLengthGap(a, b);
    } else if b == [] {
      EditAtMostSum(a, c);
    } else {
      EditBranch(a, b);
      EditBranch(b, c);
      if Edit(a, b) == Edit(DropLast(a), b) + 1 {
        TriangleInequality(DropLast(a), b, c);
      } else if Edit(b, c) == Edit(b, DropLast(c)) + 1 {
        TriangleInequality(a, b, DropLast(c));
      } else if Edit(a, b) == Edit(a, DropLast(b)) + 1 {
        TriangleInequality(a, DropLast(b), c);
        TriangleInequality(a, DropLast(b), DropLast(c));
      } else {
        TriangleInequality(DropLast(a), DropLast(b), c);
        TriangleInequality(DropLast(a), DropLast(b), DropLast(c));
      }
    }
  }

  lemma {:induction false} EditAtMostSum(a: string, c: string)
    ensures Edit(a, c) <= |a| + |c|
  {
    if a != [] && c != [] {
      EditAtMostSum(DropLast(a), c);
      EditUpper(a, c);
    }
  }

  // ---------- Shortest edit scripts ----------

  /* t is s with one character inserted, deleted or replaced. */
  ghost predicate OneEdit(s: string, t: string) {
    || (exists i, c :: 0 <= i <= |s| && t == Inserted(s, i, c))
    || (exists i, c :: 0 <= i <= |t| && s == Inserted(t, i, c))
    || (exists i, c :: 0 <= i < |s| && t == Replaced(s, i, c))
  }

  function Inserted(s: string, i: nat, c: char): string
    requires i <= |s|
  {
    s[..i] + [c] + s[i..]
  }

  function Replaced(s: string, i: nat, c: char): string
    requires i < |s|
  {
    s[..i] + [c] + s[i + 1..]
  }

  /* An edit script, written out as the strings it passes through. */
  ghost predicate Script(p: seq<string>, a: string, b: string) {
    && p != [] && p[0] == a && p[|p| - 1] == b
    && forall k :: 0 <= k < |p| - 1 ==> OneEdit(p[k], p[k + 1])
  }

  lemma {:induction false} SuffixNoFarther(a: string, b: string, w: string)
    ensures Edit(a + w, b + w) <= Edit(a, b)
    decreases |w|
  {
    if w == [] {
      assert a + w == a && b + w == b;
    } else {
      SuffixNoFarther(a, b, DropLast(w));
      assert DropLast(a + w) == a + DropLast(w) && DropLast(b + w) == b + DropLast(w);
      EditUpper(a + w, b + w);
    }
  }

  lemma InsertedAtDistanceOne(s: string, i: nat, c: char)
    requires i <= |s|
    ensures Edit(s, Inserted(s, i, c)) <= 1
  {
    var u, w := s[..i], s[i..];
    EditSelf(u);
    assert DropLast(u + [c]) == u;
    EditUpper(u, u + [c]);
    SuffixNoFarther(u, u + [c], w);
    assert u + w == s;
  }

  lemma LastReplacedAtDistanceOne(u: string, x: char, c: char)
    ensures Edit(u + [x], u + [c]) <= 1
  {
    EditSelf(u);
    var a, b := u + [x], u + [c];
    assert DropLast(a) == u && DropLast(b) == u;
    EditUpper(a, b);
  }

  lemma ReplacedAtDistanceOne(s: string, i: nat, c: char)
    requires i < |s|
    ensures Edit(s, Replaced(s, i, c)) <= 1
  {
    ReplacedSplit(s, i, c);
    LastReplacedAtDistanceOne(s[..i], s[i], c);
    SuffixNoFarther(s[..i] + [s[i]], s[..i] + [c], s[i + 1..]);
  }

  lemma ReplacedSplit(s: string, i: nat, c: char)
    requires i < |s|
    ensures s == s[..i] + [s[i]] + s[i + 1..]
    ensures Replaced(s, i, c) == s[..i] + [c] + s[i + 1..]
  {
  }

  lemma OneEditAtDistanceOne(s: string, t: string)
    requires OneEdit(s, t)
    ensures Edit(s, t) <= 1
  {
    if i, c :| 0 <= i <= |s| && t == Inserted(s, i, c) {
      InsertedAtDistanceOne(s, i, c);
    } else if i, c :| 0 <= i <= |t| && s == Inserted(t, i, c) {
      InsertedAtDistanceOne(t, i, c);
      EditSymmetric(s, t);
    } else {
      var i, c :| 0 <= i < |s| && t == Replaced(s, i, c);
      ReplacedAtDistanceOne(s, i, c);
    }
  }

  lemma {:induction false} NoScriptIsShorter(p: seq<string>, a: string, b: string)
    requires Script(p, a, b)
    ensures Edit(a, b) <= |p| - 1
    decreases |p|
  {
    if |p| == 1 {
      EditSelf(a);
    } else {
      var mid := p[|p| - 2];
      NoScriptIsShorter(p[..|p| - 1], a, mid);
      OneEditAtDistanceOne(mid, b);
      TriangleInequality(a, mid, b);
    }
  }

  function EachWith(p: seq<string>, c: char): seq<string> {
    seq(|p|, k requires 0 <= k < |p| => p[k] + [c])
  }

  lemma InsertedUnderSuffix(s: string, i: nat, d: char, c: char)
    requires i <= |s|
    ensures Inserted(s, i, d) + [c] == Inserted(s + [c], i, d)
  {
    assert (s + [c])[..i] == s[..i] && (s + [c])[i..] == s[i..] + [c];
  }

  lemma ReplacedUnderSuffix(s: string, i: nat, d: char, c: char)
    requires i < |s|
    ensures Replaced(s, i, d) + [c] == Replaced(s + [c], i, d)
  {
    assert (s + [c])[..i] == s[..i] && (s + [c])[i + 1..] == s[i + 1..] + [c];
  }

  lemma OneEditUnderSuffix(s: string, t: string, c: char)
    requires OneEdit(s, t)
    ensures OneEdit(s + [c], t + [c])
  {
    if i, d :| 0 <= i <= |s| && t == Inserted(s, i, d) {
      InsertedUnderSuffix(s, i, d, c);
    } else if i, d :| 0 <= i <= |t| && s == Inserted(t, i, d) {
      InsertedUnderSuffix(t, i, d, c);
    } else {
      var i, d :| 0 <= i < |s| && t == Replaced(s, i, d);
      ReplacedUnderSuffix(s, i, d, c);
    }
  }

  lemma ScriptUnderSuffix(p: seq<string>, a: string, b: string, c: char)
    requires Script(p, a, b)
    ensures Script(EachWith(p, c), a + [c], b + [c])
  {
    var q := EachWith(p, c);
    forall k | 0 <= k < |q| - 1 ensures OneEdit(q[k], q[k + 1]) {
      OneEditUnderSuffix(p[k], p[k + 1], c);
    }
  }

  lemma ScriptCons(s: string, p: seq<string>, a: string, b: string)
    requires Script(p, a, b) && OneEdit(s, a)
    ensures Script([s] + p, s, b)
  {
    var q := [s] + p;
    forall k | 0 <= k < |q| - 1 ensures OneEdit(q[k], q[k + 1]) {
      if k > 0 {
        assert q[k] == p[k - 1] && q[k + 1] == p[k];
      }
    }
  }

  lemma ScriptSnoc(p: seq<string>, a: string, b: string, t: string)
    requires Script(p, a, b) && OneEdit(b, t)
    ensures Script(p + [t], a, t)
  {
  }

  lemma DropLastIsOneEdit(s: string)
    requires s != []
    ensures OneEdit(s, DropLast(s)) && OneEdit(DropLast(s), s)
  {
    assert s == Inserted(DropLast(s), |s| - 1, Last(s));
  }

  lemma ScriptThroughDeletion(a: string, b: string, q: seq<string>)
    requires a != [] && Script(q, DropLast(a), b)
    ensures Script([a] + q, a, b)
  {
    DropLastIsOneEdit(a);
    ScriptCons(a, q, DropLast(a), b);
  }

  lemma ScriptThroughInsertion(a: string, b: string, q: seq<string>)
    requires b != [] && Script(q, a, DropLast(b))
    ensures Script(q + [b], a, b)
  {
    DropLastIsOneEdit(b);
    ScriptSnoc(q, a, DropLast(b), b);
  }

  lemma ScriptThroughPair(a: string, b: string, q: seq<string>) returns (p: seq<string>)
    requires a != [] && b != [] && Script(q, DropLast(a), DropLast(b))
    ensures Script(p, a, b) && |p| == |q| + Cost(Last(a), Last(b))
  {
    var a' := DropLast(a) + [Last(b)];
    ScriptUnderSuffix(q, DropLast(a), DropLast(b), Last(b));
    assert b == DropLast(b) + [Last(b)] && a == DropLast(a) + [Last(a)];
    p := EachWith(q, Last(b));
    if Last(a) != Last(b) {
      assert a' == Replaced(a, |a| - 1, Last(b));
      ScriptCons(a, p, a', b);
      p := [a] + p;
    }
  }

  lemma {:induction false} ScriptOfEditLength(a: string, b: string) returns (p: seq<string>)
    ensures Script(p, a, b) && |p| == Edit(a, b) + 1
    decreases |a| + |b|
  {
    if a == [] && b == [] {
      p := [a];
    } else if a == [] {
      var q := ScriptOfEditLength(a, DropLast(b));
      ScriptThroughInsertion(a, b, q);
      p := q + [b];
    } else if b == [] {
      var q := ScriptOfEditLength(DropLast(a), b);
      ScriptThroughDeletion(a, b, q);
      p := [a] + q;
    } else {
      EditBranch(a, b);
      if Edit(a, b) == Edit(DropLast(a), b) + 1 {
        var q := ScriptOfEditLength(DropLast(a), b);
        ScriptThroughDeletion(a, b, q);
        p := [a] + q;
      } else if Edit(a, b) == Edit(a, DropLast(b)) + 1 {
        var q := ScriptOfEditLength(a, DropLast(b));
        ScriptThroughInsertion(a, b, q);
        p := q + [b];
      } else {
        var q := ScriptOfEditLength(DropLast(a), DropLast(b));
        p := ScriptThroughPair(a, b, q);
      }
    }
  }

  /* The distance is the length of a shortest edit script. */
  lemma EditIsShortestScript(a: string, b: string)
    ensures exists p :: Script(p, a, b) && |p| - 1 == Edit(a, b)
    ensures forall p :: Script(p, a, b) ==> Edit(a, b) <= |p| - 1
  {
    var p := ScriptOfEditLength(a, b);
    assert Script(p, a, b) && |p| - 1 == Edit(a, b);
    forall p | Script(p, a, b) ensures Edit(a, b) <= |p| - 1 {
      NoScriptIsShorter(p, a, b);
    }
  }

  lemma EditIsMetric(a: string, b: string, c: string)
    ensures Edit(a, b) == 0 <==> a == b
    ensures Edit(a, b) == Edit(b, a)
    ensures Edit(a, c) <= Edit(a, b) + Edit(b, c)
  {
    EditSelf(a);
    if Edit(a, b) == 0 {
      EditZeroOnlyIfEqual(a, b);
    }
    EditSymmetric(a, b);
    TriangleInequality(a, b, c);
  }
}
