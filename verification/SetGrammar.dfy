/** The --set grammar (charts/values.go): splitting, escaping, paths, inference, and the whole of one
    override from its text to the values it leaves behind. */
module SetGrammar {
  import opened Text
  import opened Values

  const MAX_INT: int := 0x7fff_ffff_ffff_ffff
  const MIN_INT: int := -0x8000_0000_0000_0000

  /* The printable inverse of a split. */
  function Join(parts: seq<string>, sep: char): string {
    if parts == [] then []
    else if |parts| == 1 then parts[0]
    else parts[0] + [sep] + Join(parts[1..], sep)
  }

  // ---------- Splitting on commas ----------

  /* cur is the part being read, depth how many braces are open. */
  function SplitFrom(s: string, cur: string, depth: nat, braces: bool): (parts: seq<string>)
    ensures parts != []
    decreases |s|
  {
    if s == [] then [cur]
    else if |s| > 1 && s[0] == '\\' && s[1] == ',' then SplitFrom(s[2..], cur + "\\,", depth, braces)
    else if s[0] == ',' && depth == 0 then [cur] + SplitFrom(s[1..], "", 0, braces)
    else SplitFrom(s[1..], cur + [s[0]], DepthAfter(s[0], depth, braces), braces)
  }

  function DepthAfter(c: char, depth: nat, braces: bool): nat {
    if braces && c == '{' then depth + 1
    else if braces && c == '}' && depth > 0 then depth - 1
    else depth
  }

  function Split(s: string, braces: bool): seq<string> { SplitFrom(s, "", 0, braces) }

  method SplitCommas(s: string, braces: bool) returns (parts: seq<string>)
    ensures parts == Split(s, braces)
  {
    parts := [];
    var cur, depth, i := "", 0, 0;
    assert s[0..] == s;
    while i < |s|
      invariant 0 <= i <= |s|
      invariant Split(s, braces) == parts + SplitFrom(s[i..], cur, depth, braces)
    {
      var c := s[i];
      ghost var rest := s[i..];
      assert rest[1..] == s[i + 1..];
      if c == '\\' && i + 1 < |s| && s[i + 1] == ',' {
        assert rest[2..] == s[i + 2..];
        cur := cur + "\\,";
        i := i + 1;
      } else if braces && c == '{' {
        depth := depth + 1;
        cur := cur + [c];
      } else if braces && c == '}' {
        if depth > 0 {
          depth := depth - 1;
        }
        cur := cur + [c];
      } else if c == ',' && depth == 0 {
        Regroup(parts, [cur], SplitFrom(rest[1..], "", 0, braces));
        parts := parts + [cur];
        cur := "";
      } else {
        cur := cur + [c];
      }
      i := i + 1;
    }
    parts := parts + [cur];
  }

  /* Nothing is lost: the parts joined by commas rebuild the input. */
  lemma {:induction false} JoinOfSplit(s: string, cur: string, depth: nat, braces: bool)
    ensures Join(SplitFrom(s, cur, depth, braces), ',') == cur + s
    decreases |s|
  {
    if s == [] {
    } else if |s| > 1 && s[0] == '\\' && s[1] == ',' {
      JoinOfSplit(s[2..], cur + "\\,", depth, braces);
      assert s == "\\," + s[2..];
    } else if s[0] == ',' && depth == 0 {
      JoinOfSplit(s[1..], "", 0, braces);
      var rest := SplitFrom(s[1..], "", 0, braces);
      assert ([cur] + rest)[1..] == rest;
      assert s == [','] + s[1..];
    } else {
      JoinOfSplit(s[1..], cur + [s[0]], DepthAfter(s[0], depth, braces), braces);
      assert s == [s[0]] + s[1..];
    }
  }

  /* How many braces a text leaves open, unless a comma splits it. */
  function Scan(s: string, depth: nat, braces: bool): Option<nat>
    decreases |s|
  {
    if s == [] then Some(depth)
    else if |s| > 1 && s[0] == '\\' && s[1] == ',' then Scan(s[2..], depth, braces)
    else if s[0] == ',' && depth == 0 then None
    else Scan(s[1..], DepthAfter(s[0], depth, braces), braces)
  }

  /* A text that stands as one part wherever it is put: it has no comma to split at, closes its
     braces, and does not end in a backslash that would escape the comma after it. */
  predicate Closed(s: string, braces: bool) {
    Scan(s, 0, braces) == Some(0) && (s != [] ==> s[|s| - 1] != '\\')
  }

  lemma {:induction false} SplitThrough(s: string, rest: string, cur: string, depth: nat, braces: bool)
    requires Scan(s, depth, braces).Some? && (s != [] ==> s[|s| - 1] != '\\')
    ensures SplitFrom(s + rest, cur, depth, braces)
         == SplitFrom(rest, cur + s, Scan(s, depth, braces).value, braces)
    decreases |s|
  {
    var t := s + rest;
    if s == [] {
      assert t == rest && cur + s == cur;
    } else if |s| > 1 && s[0] == '\\' && s[1] == ',' {
      SplitThrough(s[2..], rest, cur + "\\,", depth, braces);
      assert t[2..] == s[2..] + rest && cur + "\\," + s[2..] == cur + s;
    } else {
      SplitThrough(s[1..], rest, cur + [s[0]], DepthAfter(s[0], depth, braces), braces);
      assert t[1..] == s[1..] + rest && cur + [s[0]] + s[1..] == cur + s;
      assert |s| > 1 ==> t[1] == s[1];
    }
  }

  /* And conversely: closed parts joined by commas split back into themselves. */
  lemma {:induction false} SplitOfJoin(parts: seq<string>, braces: bool)
    requires parts != [] && forall i :: 0 <= i < |parts| ==> Closed(parts[i], braces)
    ensures Split(Join(parts, ','), braces) == parts
  {
    if |parts| == 1 {
      SplitThrough(parts[0], "", "", 0, braces);
      assert parts[0] + "" == parts[0] && "" + parts[0] == parts[0];
    } else {
      var rest := Join(parts[1..], ',');
      SplitOfJoin(parts[1..], braces);
      assert Join(parts, ',') == parts[0] + ([','] + rest);
      SplitThrough(parts[0], [','] + rest, "", 0, braces);
      assert "" + parts[0] == parts[0] && ([','] + rest)[1..] == rest;
      assert parts == [parts[0]] + parts[1..];
    }
  }

  // ---------- Escaping ----------

  function Escape(s: string): string {
    if s == [] then [] else EscapeChar(s[0]) + Escape(s[1..])
  }

  function EscapeChar(c: char): string { if c == ',' then "\\," else [c] }

  /* Every "\," becomes a comma, left to right. */
  function Unescape(s: string): string
    decreases |s|
  {
    if s == [] then []
    else if |s| > 1 && s[0] == '\\' && s[1] == ',' then [','] + Unescape(s[2..])
    else [s[0]] + Unescape(s[1..])
  }

  lemma EscapeStep(c: char, s: string)
    ensures Escape([c] + s) == EscapeChar(c) + Escape(s)
  {
    assert ([c] + s)[1..] == s;
  }

  lemma Regroup<T>(a: seq<T>, b: seq<T>, c: seq<T>)
    ensures a + (b + c) == a + b + c
  {
  }

  lemma {:induction false} EscapeConcat(a: string, b: string)
    ensures Escape(a + b) == Escape(a) + Escape(b)
  {
    if a == [] {
      assert a + b == b;
    } else {
      EscapeConcat(a[1..], b);
      EscapeStep(a[0], a[1..]);
      EscapeStep(a[0], a[1..] + b);
      assert [a[0]] + a[1..] == a && [a[0]] + (a[1..] + b) == a + b;
      Regroup(EscapeChar(a[0]), Escape(a[1..]), Escape(b));
    }
  }

  lemma EscapeStart(s: string)
    requires s != []
    ensures Escape(s) != [] && Escape(s)[0] != ','
    ensures s[0] != ',' ==> Escape(s)[0] == s[0]
    ensures s[0] != ',' ==> Escape(s)[1..] == Escape(s[1..])
    ensures s[0] == ',' ==>
      |Escape(s)| >= 2 && Escape(s)[0] == '\\' && Escape(s)[1] == ',' && Escape(s)[2..] == Escape(s[1..])
  {
  }

  /* Escaping is undone exactly, backslashes and all. */
  lemma {:induction false} UnescapeOfEscape(s: string)
    ensures Unescape(Escape(s)) == s
  {
    if s != [] {
      UnescapeOfEscape(s[1..]);
      EscapeStart(s);
      if |s| > 1 { EscapeStart(s[1..]); }
      var e := Escape(s);
      if s[0] != ',' {
        assert |e| > 1 ==> e[1] == Escape(s[1..])[0];
      }
      assert s == [s[0]] + s[1..];
    }
  }

  /* A text in which no backslash stands before a comma is left as it is. */
  lemma {:induction false} UnescapeKeeps(s: string)
    requires forall i :: 0 <= i < |s| - 1 ==> !(s[i] == '\\' && s[i + 1] == ',')
    ensures Unescape(s) == s
  {
    if s != [] {
      UnescapeKeeps(s[1..]);
      assert s == [s[0]] + s[1..];
    }
  }

  /* An escaped text has no comma to split at. */
  lemma {:induction false} EscapedScans(s: string, depth: nat, braces: bool)
    ensures Scan(Escape(s), depth, braces).Some?
  {
    if s != [] {
      EscapeStart(s);
      if s[0] == ',' {
        EscapedScans(s[1..], depth, braces);
      } else {
        EscapedScans(s[1..], DepthAfter(s[0], depth, braces), braces);
        if |s| > 1 { EscapeStart(s[1..]); }
        var e := Escape(s);
        assert |e| > 1 ==> e[1] == Escape(s[1..])[0];
      }
    }
  }

  /* So it is one part, whatever braces it leaves open. */
  lemma EscapedIsOnePart(s: string, cur: string, depth: nat, braces: bool)
    ensures SplitFrom(Escape(s), cur, depth, braces) == [cur + Escape(s)]
  {
    EscapedScans(s, depth, braces);
    ScannedIsOnePart(Escape(s), cur, depth, braces);
  }

  lemma {:induction false} ScannedIsOnePart(s: string, cur: string, depth: nat, braces: bool)
    requires Scan(s, depth, braces).Some?
    ensures SplitFrom(s, cur, depth, braces) == [cur + s]
    decreases |s|
  {
    if s == [] {
      assert cur + s == cur;
    } else if |s| > 1 && s[0] == '\\' && s[1] == ',' {
      ScannedIsOnePart(s[2..], cur + "\\,", depth, braces);
      assert cur + "\\," + s[2..] == cur + s;
    } else {
      ScannedIsOnePart(s[1..], cur + [s[0]], DepthAfter(s[0], depth, braces), braces);
      assert cur + [s[0]] + s[1..] == cur + s;
    }
  }

  // ---------- White space ----------

  predicate IsSpace(c: char) {
    c == ' ' || '\t' <= c <= '\r' || c == '\U{85}' || c == '\U{A0}' || c == '\U{1680}'
    || '\U{2000}' <= c <= '\U{200A}' || c == '\U{2028}' || c == '\U{2029}' || c == '\U{202F}'
    || c == '\U{205F}' || c == '\U{3000}'
  }

  function TrimLeft(s: string): (r: string)
    ensures |r| <= |s| && (r == s <==> s == [] || !IsSpace(s[0]))
  {
    if s != [] && IsSpace(s[0]) then TrimLeft(s[1..]) else s
  }

  function TrimRight(s: string): (r: string)
    ensures |r| <= |s| && (r == s <==> s == [] || !IsSpace(s[|s| - 1]))
  {
    if s != [] && IsSpace(s[|s| - 1]) then TrimRight(s[..|s| - 1]) else s
  }

  function TrimSpace(s: string): (r: string)
    ensures r == s <==> Trimmed(s)
  {
    TrimRight(TrimLeft(s))
  }

  predicate Trimmed(s: string) {
    s == [] || (!IsSpace(s[0]) && !IsSpace(s[|s| - 1]))
  }

  lemma {:induction false} EscapeEnds(s: string)
    requires s != []
    ensures Escape(s) != [] && Escape(s)[|Escape(s)| - 1] == s[|s| - 1]
  {
    EscapeStart(s);
    if |s| > 1 {
      EscapeEnds(s[1..]);
    } else {
      assert s[1..] == [];
    }
  }

  lemma EscapeWithLast(init: string, c: char)
    requires c != ','
    ensures Escape(init + [c]) == Escape(init) + [c]
  {
    EscapeConcat(init, [c]);
    EscapeStep(c, []);
    assert [c] + [] == [c];
  }

  lemma {:induction false} TrimLeftOfEscape(s: string)
    ensures TrimLeft(Escape(s)) == Escape(TrimLeft(s))
  {
    if s != [] {
      EscapeStart(s);
      if IsSpace(s[0]) { TrimLeftOfEscape(s[1..]); }
    }
  }

  lemma {:induction false} TrimRightOfEscape(s: string)
    ensures TrimRight(Escape(s)) == Escape(TrimRight(s))
  {
    if s == [] || !IsSpace(s[|s| - 1]) {
      if s != [] { EscapeEnds(s); }
    } else {
      var init, c := s[..|s| - 1], s[|s| - 1];
      TrimRightOfEscape(init);
      TrimRightStep(init, c);
      assert s == init + [c];
    }
  }

  lemma TrimRightStep(init: string, c: char)
    requires IsSpace(c) && TrimRight(Escape(init)) == Escape(TrimRight(init))
    ensures TrimRight(Escape(init + [c])) == Escape(TrimRight(init + [c]))
  {
    EscapeWithLast(init, c);
    TrimLast(init, c);
    TrimLast(Escape(init), c);
  }

  lemma TrimLast(init: string, c: char)
    requires IsSpace(c)
    ensures TrimRight(init + [c]) == TrimRight(init)
  {
    assert (init + [c])[..|init|] == init;
  }

  /* Trimming and escaping do not interfere. */
  lemma TrimOfEscape(s: string)
    ensures TrimSpace(Escape(s)) == Escape(TrimSpace(s))
  {
    TrimLeftOfEscape(s);
    TrimRightOfEscape(TrimLeft(s));
  }

  /* White space, listed. */
  lemma BlankChars(c: char)
    ensures IsSpace(c) <==>
      || c in " \t\n\U{B}\U{C}\r\U{85}\U{A0}\U{1680}\U{2028}\U{2029}\U{202F}\U{205F}\U{3000}"
      || c in "\U{2000}\U{2001}\U{2002}\U{2003}\U{2004}\U{2005}\U{2006}\U{2007}\U{2008}\U{2009}\U{200A}"
  {
  }

  ghost predicate AllSpace(s: string) { forall i :: 0 <= i < |s| ==> IsSpace(s[i]) }

  lemma {:induction false} TrimLeftDrops(s: string) returns (a: string)
    ensures s == a + TrimLeft(s) && AllSpace(a) && (TrimLeft(s) == [] || !IsSpace(TrimLeft(s)[0]))
  {
    if s != [] && IsSpace(s[0]) {
      a := TrimLeftDrops(s[1..]);
      a := [s[0]] + a;
    } else {
      a := [];
    }
  }

  lemma {:induction false} TrimRightDrops(s: string) returns (b: string)
    ensures s == TrimRight(s) + b && AllSpace(b)
  {
    if s != [] && IsSpace(s[|s| - 1]) {
      b := TrimRightDrops(s[..|s| - 1]);
      b := b + [s[|s| - 1]];
    } else {
      b := [];
    }
  }

  /* Trimming drops white space at the ends, all of it, and nothing else. */
  lemma TrimDrops(s: string) returns (a: string, b: string)
    ensures s == a + TrimSpace(s) + b && AllSpace(a) && AllSpace(b) && Trimmed(TrimSpace(s))
  {
    a := TrimLeftDrops(s);
    b := TrimRightDrops(TrimLeft(s));
    TrimLeftStays(TrimLeft(s));
  }

  lemma {:induction false} TrimLeftStays(s: string)
    requires s == [] || !IsSpace(s[0])
    ensures TrimRight(s) == [] || !IsSpace(TrimRight(s)[0])
    ensures TrimRight(s) == [] || !IsSpace(TrimRight(s)[|TrimRight(s)| - 1])
  {
    if s != [] && IsSpace(s[|s| - 1]) {
      var less := s[..|s| - 1];
      if less != [] { assert less[0] == s[0]; }
      TrimLeftStays(less);
    }
  }

  // ---------- Paths ----------

  /* One dotted segment: a key and the indices after it. */
  datatype Segment = Segment(key: string, indices: seq<nat>)

  function Printed(seg: Segment): string { seg.key + PrintedIndices(seg.indices) }

  function PrintedIndices(indices: seq<nat>): string {
    if indices == [] then [] else "[" + Decimal(indices[0]) + "]" + PrintedIndices(indices[1..])
  }

  function PrintedAll(segs: seq<Segment>): seq<string> {
    seq(|segs|, i requires 0 <= i < |segs| => Printed(segs[i]))
  }

  function Print(segs: seq<Segment>): string { Join(PrintedAll(segs), '.') }

  function IndexSteps(indices: seq<nat>): Path { seq(|indices|, i requires 0 <= i < |indices| => Index(indices[i])) }

  function Flatten(segs: seq<Segment>): Path {
    if segs == [] then [] else [Key(segs[0].key)] + IndexSteps(segs[0].indices) + Flatten(segs[1..])
  }

  ghost predicate PlainKey(key: string) { key != [] && '.' !in key && '[' !in key && ']' !in key }

  ghost predicate WellFormed(segs: seq<Segment>) {
    segs != [] && forall i :: 0 <= i < |segs| ==> Plain(segs[i])
  }

  ghost predicate Plain(seg: Segment) {
    PlainKey(seg.key) && forall j :: 0 <= j < |seg.indices| ==> seg.indices[j] <= MAX_INT
  }

  /* The segments of a path of hops: a new one at every key. */
  function Segments(path: Path): (segs: seq<Segment>)
    requires path != [] ==> path[0].Key?
    decreases |path|
  {
    if path == [] then []
    else
      var n := IndexRun(path[1..]);
      [Segment(path[0].key, Indices(path[1..][..n]))] + Segments(path[1..][n..])
  }

  function IndexRun(path: Path): (n: nat)
    ensures n <= |path|
    ensures forall i :: 0 <= i < n ==> path[i].Index?
    ensures n < |path| ==> path[n].Key?
  {
    if path == [] || path[0].Key? then 0 else 1 + IndexRun(path[1..])
  }

  function Indices(steps: Path): (r: seq<nat>)
    requires forall i :: 0 <= i < |steps| ==> steps[i].Index?
  {
    seq(|steps|, i requires 0 <= i < |steps| => steps[i].index)
  }

  lemma {:induction false} FlattenOfSegments(path: Path)
    requires path != [] ==> path[0].Key?
    ensures Flatten(Segments(path)) == path
    decreases |path|
  {
    if path != [] {
      var n := IndexRun(path[1..]);
      FlattenOfSegments(path[1..][n..]);
      assert Segments(path)[1..] == Segments(path[1..][n..]);
      assert IndexSteps(Indices(path[1..][..n])) == path[1..][..n];
      assert path == [path[0]] + path[1..][..n] + path[1..][n..];
    }
  }

  function SplitDots(s: string): (parts: seq<string>)
    ensures parts != []
  {
    if s == [] then [""]
    else
      var rest := SplitDots(s[1..]);
      if s[0] == '.' then [""] + rest else [[s[0]] + rest[0]] + rest[1..]
  }

  lemma {:induction false} SplitDotsPrefix(part: string, s: string)
    requires '.' !in part
    ensures SplitDots(part + s) == [part + SplitDots(s)[0]] + SplitDots(s)[1..]
  {
    if part == [] {
      assert part + s == s && part + SplitDots(s)[0] == SplitDots(s)[0];
    } else {
      SplitDotsPrefix(part[1..], s);
      assert (part + s)[1..] == part[1..] + s;
      assert [part[0]] + (part[1..] + SplitDots(s)[0]) == part + SplitDots(s)[0];
    }
  }

  lemma {:induction false} SplitDotsOfJoin(parts: seq<string>)
    requires parts != [] && forall i :: 0 <= i < |parts| ==> '.' !in parts[i]
    ensures SplitDots(Join(parts, '.')) == parts
  {
    if |parts| == 1 {
      SplitDotsPrefix(parts[0], "");
      assert parts[0] + "" == parts[0];
    } else {
      var rest := Join(parts[1..], '.');
      SplitDotsOfJoin(parts[1..]);
      SplitDotsPrefix(parts[0], "." + rest);
      assert ("." + rest)[1..] == rest;
      assert Join(parts, '.') == parts[0] + ("." + rest);
      assert parts[0] + "" == parts[0] && parts == [parts[0]] + parts[1..];
    }
  }

  /* Where c first stands in s, or |s|. */
  function IndexOf(s: string, c: char): (i: nat)
    ensures i <= |s| && c !in s[..i]
    ensures i < |s| ==> s[i] == c
  {
    if s == [] || s[0] == c then 0
    else
      var i := 1 + IndexOf(s[1..], c);
      assert s[..i] == [s[0]] + s[1..][..i - 1];
      i
  }

  lemma {:induction false} IndexOfFirst(a: string, c: char, b: string)
    requires c !in a
    ensures IndexOf(a + [c] + b, c) == |a|
  {
    var s := a + [c] + b;
    if a != [] {
      IndexOfFirst(a[1..], c, b);
      assert s[1..] == a[1..] + [c] + b && s[0] == a[0] && a[0] in a;
    }
  }

  lemma IndexOfNone(s: string, c: char)
    requires c !in s
    ensures IndexOf(s, c) == |s|
  {
  }

  predicate AllDigits(s: string) { forall i :: 0 <= i < |s| ==> IsDigit(s[i]) }

  /* A decimal integer with an optional sign, within 64 bits. */
  function ParseInt(s: string): Option<int> {
    var signed := s != [] && (s[0] == '-' || s[0] == '+');
    var digits := if signed then s[1..] else s;
    if digits == [] || !AllDigits(digits) then None
    else
      var magnitude: int := Number(digits);
      var n := if signed && s[0] == '-' then -magnitude else magnitude;
      if MIN_INT <= n <= MAX_INT then Some(n) else None
  }

  /* A text that reads as an integer of 64 bits: a sign or none, then digits. */
  ghost predicate IsInteger(s: string, sign: string, digits: string, i: int) {
    && s == sign + digits && sign in {"", "+", "-"}
    && digits != [] && OnlyDigits(digits)
    && i == (if sign == "-" then 0 - Number(digits) else Number(digits))
    && -9_223_372_036_854_775_808 <= i <= 9_223_372_036_854_775_807
  }

  ghost predicate OnlyDigits(s: string)
    ensures OnlyDigits(s) <==> AllDigits(s)
  {
    assert forall c: char :: c in "0123456789" <==> IsDigit(c) by {
      forall c: char ensures c in "0123456789" <==> IsDigit(c) { DigitsAre(c); }
    }
    forall i :: 0 <= i < |s| ==> s[i] in "0123456789"
  }

  ghost predicate ReadsInt(s: string, i: int) {
    exists sign: string, digits: string :: IsInteger(s, sign, digits, i)
  }

  lemma ParseIntMeans(s: string, i: int)
    ensures ParseInt(s) == Some(i) <==> ReadsInt(s, i)
  {
    hide Number, OnlyDigits;
    var signed := s != [] && (s[0] == '-' || s[0] == '+');
    var sign, digits := if signed then s[..1] else "", if signed then s[1..] else s;
    assert s == sign + digits;
    if signed { assert sign == [s[0]]; }
    if ParseInt(s) == Some(i) { assert IsInteger(s, sign, digits, i); }
    if x: string, y: string :| IsInteger(s, x, y, i) {
      DigitsAre(y[0]);
      assert x == sign && y == digits by {
        if x == "" { assert s == y; } else { assert s[0] == x[0] && s[1..] == y; }
      }
    }
  }

  /* The printed form of an integer. */
  function PrintedInt(i: int): string { if i < 0 then "-" + Decimal(-i) else Decimal(i) }

  lemma PrintedIntReads(i: int)
    requires -9_223_372_036_854_775_808 <= i <= 9_223_372_036_854_775_807
    ensures ReadsInt(PrintedInt(i), i)
  {
    var n: nat := if i < 0 then -i else i;
    NumberOfDecimal(n);
    assert OnlyDigits(Decimal(n));
    if i < 0 {
      assert IsInteger(PrintedInt(i), "-", Decimal(n), i);
    } else {
      assert "" + Decimal(n) == Decimal(n);
      assert IsInteger(PrintedInt(i), "", Decimal(n), i);
    }
  }

  lemma ParseIntOfDecimal(n: nat)
    requires n <= MAX_INT
    ensures ParseInt(Decimal(n)) == Some(n)
  {
    NumberOfDecimal(n);
    var s := Decimal(n);
    assert IsDigit(s[0]);
  }

  datatype PathError = EmptySegment | NoKey | Unbalanced | Trailing | BadIndex

  datatype Result<+T> = Ok(value: T) | Err(error: PathError)

  /* What was read, followed by what the rest parses to. */
  function Then(read: Path, left: Result<Path>): Result<Path> {
    match left
    case Err(e) => Err(e)
    case Ok(more) => Ok(read + more)
  }

  lemma ThenNothing(left: Result<Path>)
    ensures Then([], left) == left
  {
    if left.Ok? { assert [] + left.value == left.value; }
  }

  lemma ThenThen(a: Path, b: Path, left: Result<Path>)
    ensures Then(a, Then(b, left)) == Then(a + b, left)
  {
    if left.Ok? { Regroup(a, b, left.value); }
  }

  /* The indices after a key, each in its own brackets. */
  function ParseIndices(rest: string): Result<Path>
    decreases |rest|
  {
    if rest == [] then Ok([])
    else if rest[0] != '[' then Err(Trailing)
    else
      var end := IndexOf(rest, ']');
      if end == |rest| then Err(Unbalanced)
      else
        match ParseInt(rest[1..end])
        case None => Err(BadIndex)
        case Some(n) =>
          if n < 0 then Err(BadIndex) else Then([Index(n)], ParseIndices(rest[end + 1..]))
  }

  function ParseSegment(seg: string): Result<Path> {
    if seg == [] then Err(EmptySegment)
    else
      var open := IndexOf(seg, '[');
      var name := seg[..open];
      if name == [] then Err(NoKey)
      else if ']' in name then Err(Unbalanced)
      else Then([Key(name)], ParseIndices(seg[open..]))
  }

  function ParseSegments(segs: seq<string>): Result<Path> {
    if segs == [] then Ok([])
    else match ParseSegment(segs[0])
      case Err(e) => Err(e)
      case Ok(steps) => Then(steps, ParseSegments(segs[1..]))
  }

  function Parse(path: string): Result<Path> { ParseSegments(SplitDots(path)) }

  method ParseSetPath(path: string) returns (r: Result<Path>)
    ensures r == Parse(path)
  {
    var segs := SplitDots(path);
    var steps: Path := [];
    assert segs[0..] == segs;
    ThenNothing(Parse(path));
    for k := 0 to |segs|
      invariant Parse(path) == Then(steps, ParseSegments(segs[k..]))
    {
      assert segs[k..][1..] == segs[k + 1..];
      var read := ParseOneSegment(segs[k]);
      if read.Err? {
        return read;
      }
      ThenThen(steps, read.value, ParseSegments(segs[k + 1..]));
      steps := steps + read.value;
    }
    assert steps + [] == steps;
    return Ok(steps);
  }

  method ParseOneSegment(seg: string) returns (r: Result<Path>)
    ensures r == ParseSegment(seg)
  {
    if seg == [] {
      return Err(EmptySegment);
    }
    var open := IndexOf(seg, '[');
    var name := seg[..open];
    if name == [] {
      return Err(NoKey);
    }
    if ']' in name {
      return Err(Unbalanced);
    }
    r := ParseIndexRun([Key(name)], seg[open..]);
  }

  method ParseIndexRun(name: Path, text: string) returns (r: Result<Path>)
    ensures r == Then(name, ParseIndices(text))
  {
    var steps, rest := name, text;
    while rest != []
      invariant Then(name, ParseIndices(text)) == Then(steps, ParseIndices(rest))
      decreases |rest|
    {
      if rest[0] != '[' {
        return Err(Trailing);
      }
      var end := IndexOf(rest, ']');
      if end == |rest| {
        return Err(Unbalanced);
      }
      var n := ParseInt(rest[1..end]);
      if n.None? || n.value < 0 {
        return Err(BadIndex);
      }
      ThenThen(steps, [Index(n.value)], ParseIndices(rest[end + 1..]));
      steps := steps + [Index(n.value)];
      rest := rest[end + 1..];
    }
    assert steps + [] == steps;
    return Ok(steps);
  }

  lemma DigitsArePlain(n: nat)
    ensures ']' !in Decimal(n) && '[' !in Decimal(n) && '.' !in Decimal(n)
  {
  }

  lemma ParseOneIndex(digits: string, n: nat, more: string, left: Result<Path>)
    requires ']' !in digits && ParseInt(digits) == Some(n) && left == ParseIndices(more)
    ensures ParseIndices("[" + digits + "]" + more) == Then([Index(n)], left)
  {
    var text, end := "[" + digits + "]" + more, 1 + |digits|;
    assert text == "[" + digits + [']'] + more;
    IndexOfFirst("[" + digits, ']', more);
    assert text[1..end] == digits && text[end + 1..] == more;
  }

  lemma {:induction false} ParseIndicesOfPrinted(indices: seq<nat>)
    requires forall j :: 0 <= j < |indices| ==> indices[j] <= MAX_INT
    ensures ParseIndices(PrintedIndices(indices)) == Ok(IndexSteps(indices))
  {
    if indices == [] {
      assert IndexSteps(indices) == [];
    } else {
      var n, more := indices[0], indices[1..];
      ParseIndicesOfPrinted(more);
      DigitsArePlain(n);
      ParseIntOfDecimal(n);
      ParseOneIndex(Decimal(n), n, PrintedIndices(more), Ok(IndexSteps(more)));
      assert IndexSteps(indices) == [Index(n)] + IndexSteps(more);
    }
  }

  lemma {:induction false} IndicesHaveNoDot(indices: seq<nat>)
    ensures '.' !in PrintedIndices(indices)
  {
    if indices != [] {
      IndicesHaveNoDot(indices[1..]);
      DigitsArePlain(indices[0]);
    }
  }

  lemma ParseSegmentOfPrinted(seg: Segment)
    requires Plain(seg)
    ensures ParseSegment(Printed(seg)) == Ok([Key(seg.key)] + IndexSteps(seg.indices))
    ensures '.' !in Printed(seg)
  {
    var s, tail := Printed(seg), PrintedIndices(seg.indices);
    ParseIndicesOfPrinted(seg.indices);
    IndicesHaveNoDot(seg.indices);
    if seg.indices == [] {
      assert s == seg.key;
      IndexOfNone(s, '[');
    } else {
      assert tail == ['['] + tail[1..];
      assert s == seg.key + ['['] + tail[1..];
      IndexOfFirst(seg.key, '[', tail[1..]);
    }
    assert s[..|seg.key|] == seg.key && s[|seg.key|..] == tail;
  }

  lemma {:induction false} ParseSegmentsOfPrinted(segs: seq<Segment>)
    requires forall i :: 0 <= i < |segs| ==> Plain(segs[i])
    ensures ParseSegments(PrintedAll(segs)) == Ok(Flatten(segs))
  {
    if segs != [] {
      ParseSegmentOfPrinted(segs[0]);
      ParseSegmentsOfPrinted(segs[1..]);
      var texts := PrintedAll(segs);
      assert texts[0] == Printed(segs[0]) && texts[1..] == PrintedAll(segs[1..]);
      assert ParseSegments(texts) == Then([Key(segs[0].key)] + IndexSteps(segs[0].indices), Ok(Flatten(segs[1..])));
    }
  }

  /* Parsing inverts printing. */
  lemma ParseOfPrint(segs: seq<Segment>)
    requires WellFormed(segs)
    ensures Parse(Print(segs)) == Ok(Flatten(segs))
  {
    ParseSegmentsOfPrinted(segs);
    forall i | 0 <= i < |segs| ensures '.' !in PrintedAll(segs)[i] { ParseSegmentOfPrinted(segs[i]); }
    SplitDotsOfJoin(PrintedAll(segs));
  }

  // ---------- Inference and application ----------

  /* A scalar, from its text; floats stands for the library's float syntax. */
  function InferScalar(s: string, floats: string -> bool): Value {
    if s == "true" then Bool(true)
    else if s == "false" then Bool(false)
    else if s == "null" || s == "nil" then Null
    else match ParseInt(s)
      case Some(i) => Int(i)
      case None => if floats(s) then Float(s) else Str(s)
  }

  predicate IsListLiteral(s: string) { |s| >= 2 && s[0] == '{' && s[|s| - 1] == '}' }

  function InferElements(parts: seq<string>, floats: string -> bool): seq<Value> {
    seq(|parts|, i requires 0 <= i < |parts| => InferScalar(Unescape(TrimSpace(parts[i])), floats))
  }

  function InferValue(s: string, floats: string -> bool): Value {
    if IsListLiteral(s) then
      var inner := s[1..|s| - 1];
      if TrimSpace(inner) == [] then List([]) else List(InferElements(Split(inner, false), floats))
    else InferScalar(Unescape(s), floats)
  }

  /* One pair: its path and value, unless it has no '=', no key, or no well-formed path. */
  function ParsePair(pair: string, floats: string -> bool): Option<(Path, Value)> {
    var eq := IndexOf(pair, '=');
    if eq == |pair| then None
    else
      var path := Unescape(TrimSpace(pair[..eq]));
      if path == [] then None
      else match Parse(path)
        case Err(_) => None
        case Ok(steps) => Some((steps, InferValue(TrimSpace(pair[eq + 1..]), floats)))
  }

  /* Pairs apply left to right; the first that cannot stops the rest, keeping those before it. */
  function ApplyPairs(dst: Value, pairs: seq<string>, floats: string -> bool): (Value, bool)
    decreases |pairs|
  {
    if pairs == [] then (dst, true)
    else match ParsePair(pairs[0], floats)
      case None => (dst, false)
      case Some((path, v)) => ApplyPairs(SetPath(dst, path, v), pairs[1..], floats)
  }

  method ApplySet(dst: Value, expr: string, floats: string -> bool) returns (out: Value, ok: bool)
    ensures (out, ok) == ApplyPairs(dst, Split(expr, true), floats)
  {
    out := dst;
    var pairs := SplitCommas(expr, true);
    for k := 0 to |pairs|
      invariant ApplyPairs(dst, pairs, floats) == ApplyPairs(out, pairs[k..], floats)
    {
      var pair := pairs[k];
      assert pairs[k..][1..] == pairs[k + 1..];
      var eq := IndexOf(pair, '=');
      if eq == |pair| {
        return out, false;
      }
      var path := Unescape(TrimSpace(pair[..eq]));
      if path == [] {
        return out, false;
      }
      var steps := ParseSetPath(path);
      if steps.Err? {
        return out, false;
      }
      out := SetPath(out, steps.value, InferValue(TrimSpace(pair[eq + 1..]), floats));
    }
    ok := true;
  }

  /* What a text stands for as a scalar: one of the words for true, false and null; an integer of 64 bits; a
     float; or else itself. */
  ghost predicate StandsFor(text: string, value: Value, floats: string -> bool) {
    match value
    case Bool(b) => text == if b then "true" else "false"
    case Null => text == "null" || text == "nil"
    case Int(i) => ReadsInt(text, i)
    case Float(s) => s == text && NoWordOrInt(text) && floats(text)
    case Str(s) => s == text && NoWordOrInt(text) && !floats(text)
    case _ => false
  }

  ghost predicate NoWordOrInt(text: string) {
    text !in {"true", "false", "null", "nil"} && forall i: int :: !ReadsInt(text, i)
  }

  lemma WordsAreNoInts(text: string, i: int)
    requires text in {"true", "false", "null", "nil"}
    ensures !ReadsInt(text, i)
  {
    ParseIntMeans(text, i);
    assert !IsDigit(text[0]);
  }

  /* And inference finds exactly that. */
  lemma InferMeans(text: string, floats: string -> bool, value: Value)
    ensures InferScalar(text, floats) == value <==> StandsFor(text, value, floats)
  {
    hide ReadsInt, ParseInt;
    forall i: int ensures ParseInt(text) == Some(i) <==> ReadsInt(text, i) { ParseIntMeans(text, i); }
    if text in {"true", "false", "null", "nil"} {
      forall i: int ensures !ReadsInt(text, i) { WordsAreNoInts(text, i); }
    }
  }

  /* Texts that a --set leaves a string: without white space at the ends, and neither a list nor one of those
     words, an integer or a float. */
  ghost predicate StaysString(v: string, floats: string -> bool) {
    && (v != [] ==> !IsSpace(v[0]) && !IsSpace(v[|v| - 1]))
    && !(|v| >= 2 && v[0] == '{' && v[|v| - 1] == '}')
    && NoWordOrInt(v) && !floats(v)
  }

  /* Paths that can be written before an '='. */
  ghost predicate Settable(segs: seq<Segment>) {
    WellFormed(segs) && '=' !in Print(segs) && Trimmed(Print(segs))
  }

  /* The text of one override, commas escaped. */
  function PairText(segs: seq<Segment>, v: string): string { Escape(Print(segs)) + "=" + Escape(v) }

  lemma {:induction false} EscapeKeepsOut(s: string, c: char)
    requires c !in s && c != '\\' && c != ','
    ensures c !in Escape(s)
  {
    if s != [] {
      EscapeKeepsOut(s[1..], c);
      EscapeStart(s);
      assert Escape(s) == EscapeChar(s[0]) + Escape(s[1..]);
    }
  }

  lemma EscapeKeepsLiteral(v: string)
    ensures IsListLiteral(Escape(v)) <==> IsListLiteral(v)
  {
    if v != [] {
      EscapeStart(v);
      EscapeEnds(v);
      if |v| == 1 {
        assert v[1..] == [];
      } else {
        EscapeStart(v[1..]);
      }
    }
  }

  /* What a path and any text make of a pair. */
  lemma ParsePairOfText(segs: seq<Segment>, v: string, floats: string -> bool)
    requires Settable(segs)
    ensures ParsePair(PairText(segs, v), floats) == Some((Flatten(segs), InferValue(Escape(TrimSpace(v)), floats)))
  {
    var path := Print(segs);
    var pair := PairText(segs, v);
    EscapeKeepsOut(path, '=');
    IndexOfFirst(Escape(path), '=', Escape(v));
    assert pair == Escape(path) + ['='] + Escape(v);
    assert pair[..|Escape(path)|] == Escape(path) && pair[|Escape(path)| + 1..] == Escape(v);
    TrimOfEscape(path);
    TrimOfEscape(v);
    UnescapeOfEscape(path);
    ParseOfPrint(segs);
    PrintNonempty(segs);
  }

  /* A text is inferred to be itself exactly when it stays a string. */
  lemma InferOfEscape(v: string, floats: string -> bool)
    ensures InferValue(Escape(TrimSpace(v)), floats) == Str(v) <==> StaysString(v, floats)
  {
    hide NoWordOrInt, InferScalar, InferElements;
    var text := TrimSpace(v);
    EscapeKeepsLiteral(text);
    UnescapeOfEscape(text);
    InferMeans(text, floats, Str(v));
    if text != v { assert !Trimmed(v); }
  }

  lemma PrintNonempty(segs: seq<Segment>)
    requires WellFormed(segs)
    ensures Print(segs) != []
  {
    assert PrintedAll(segs)[0] == Printed(segs[0]);
  }

  lemma EscapeAround(path: string, v: string)
    ensures Escape(path + ("=" + v)) == Escape(path) + "=" + Escape(v)
  {
    EscapeConcat(path, "=" + v);
    EscapeStep('=', v);
    assert "=" + v == ['='] + v;
    Regroup(Escape(path), EscapeChar('='), Escape(v));
  }

  lemma PairIsOnePart(path: string, v: string)
    ensures Split(Escape(path) + "=" + Escape(v), true) == [Escape(path) + "=" + Escape(v)]
  {
    EscapeAround(path, v);
    EscapedIsOnePart(path + ("=" + v), "", 0, true);
    assert "" + Escape(path + ("=" + v)) == Escape(path + ("=" + v));
  }

  /* End to end: an override written for any settable path always applies, and the path then reads
     exactly the text written if and only if that text stays a string. */
  lemma SetRoundTrip(dst: Value, segs: seq<Segment>, v: string, floats: string -> bool)
    requires Settable(segs)
    ensures var (out, ok) := ApplyPairs(dst, Split(PairText(segs, v), true), floats);
            && ok
            && (Lookup(out, Flatten(segs)) == Some(Str(v)) <==> StaysString(v, floats))
            && (StaysString(v, floats) ==> out == SetPath(dst, Flatten(segs), Str(v)))
  {
    var text := PairText(segs, v);
    PairIsOnePart(Print(segs), v);
    ParsePairOfText(segs, v, floats);
    var value := InferValue(Escape(TrimSpace(v)), floats);
    ApplyOne(dst, text, Flatten(segs), value, floats);
    InferOfEscape(v, floats);
    GetAfterSet(dst, Flatten(segs), value);
  }

  lemma ApplyOne(dst: Value, text: string, path: Path, v: Value, floats: string -> bool)
    requires ParsePair(text, floats) == Some((path, v))
    ensures ApplyPairs(dst, [text], floats) == (SetPath(dst, path, v), true)
  {
    assert [text][1..] == [];
  }

  /* What a settable path reads after one override with some text after the '='. */
  ghost function ReadAfter(dst: Value, segs: seq<Segment>, text: string, floats: string -> bool): Option<Value> {
    var (out, ok) := ApplyPairs(dst, Split(Escape(Print(segs)) + "=" + text, true), floats);
    if ok then Lookup(out, Flatten(segs)) else None
  }

  /* Written for a scalar, the path reads what the text stands for, white space around it aside: "true" reads
     true, "null" reads null, and the printed form of a 64-bit integer that integer. */
  lemma SetScalar(dst: Value, segs: seq<Segment>, v: string, floats: string -> bool, value: Value)
    requires Settable(segs) && !IsListLiteral(TrimSpace(v))
    ensures ReadAfter(dst, segs, Escape(v), floats) == Some(value) <==> StandsFor(TrimSpace(v), value, floats)
  {
    hide StandsFor, InferScalar, InferElements, SetPath, Print, Flatten;
    var text := PairText(segs, v);
    PairIsOnePart(Print(segs), v);
    ParsePairOfText(segs, v, floats);
    var found := InferValue(Escape(TrimSpace(v)), floats);
    ApplyOne(dst, text, Flatten(segs), found, floats);
    GetAfterSet(dst, Flatten(segs), found);
    EscapeKeepsLiteral(TrimSpace(v));
    UnescapeOfEscape(TrimSpace(v));
    InferMeans(TrimSpace(v), floats, value);
  }

  lemma SetWords(dst: Value, segs: seq<Segment>, floats: string -> bool)
    requires Settable(segs)
    ensures ReadAfter(dst, segs, "true", floats) == Some(Bool(true))
    ensures ReadAfter(dst, segs, "false", floats) == Some(Bool(false))
    ensures ReadAfter(dst, segs, "null", floats) == ReadAfter(dst, segs, "nil", floats) == Some(Null)
  {
    hide ReadAfter, Settable;
    SetWord(dst, segs, "true", floats, Bool(true));
    SetWord(dst, segs, "false", floats, Bool(false));
    SetWord(dst, segs, "null", floats, Null);
    SetWord(dst, segs, "nil", floats, Null);
  }

  lemma SetWord(dst: Value, segs: seq<Segment>, v: string, floats: string -> bool, value: Value)
    requires Settable(segs) && (forall i :: 0 <= i < |v| ==> 'a' <= v[i] <= 'z') && StandsFor(v, value, floats)
    ensures ReadAfter(dst, segs, v, floats) == Some(value)
  {
    hide ReadAfter, StandsFor;
    if v != [] {
      BlankChars(v[0]);
      BlankChars(v[|v| - 1]);
    }
    EscapeOfPlain(v);
    SetScalar(dst, segs, v, floats, value);
  }

  lemma {:induction false} EscapeOfPlain(v: string)
    requires ',' !in v
    ensures Escape(v) == v
  {
    if v != [] {
      assert v[0] in v;
      EscapeOfPlain(v[1..]);
    }
  }

  lemma SetInteger(dst: Value, segs: seq<Segment>, i: int, floats: string -> bool)
    requires Settable(segs) && -9_223_372_036_854_775_808 <= i <= 9_223_372_036_854_775_807
    ensures ReadAfter(dst, segs, PrintedInt(i), floats) == Some(Int(i))
  {
    hide ReadAfter, ReadsInt;
    var v := PrintedInt(i);
    PrintedIntReads(i);
    forall k | 0 <= k < |v| ensures v[k] == '-' || IsDigit(v[k]) {
    }
    BlankChars(v[0]);
    BlankChars(v[|v| - 1]);
    EscapeOfPlain(v);
    SetScalar(dst, segs, v, floats, Int(i));
  }

  // ---------- Lists ----------

  function EscapedAll(texts: seq<string>): seq<string> {
    seq(|texts|, i requires 0 <= i < |texts| => Escape(texts[i]))
  }

  /* A list of scalars as it is written. */
  function ListText(texts: seq<string>): string { "{" + Join(EscapedAll(texts), ',') + "}" }

  /* A text that can stand in a list: no white space at its ends, and no backslash before the comma. */
  ghost predicate Listable(text: string) { Trimmed(text) && (text != [] ==> text[|text| - 1] != '\\') }

  /* No closing brace of a text lets a comma cut the list. */
  ghost predicate StaysWhole(texts: seq<string>) { Scan(Join(EscapedAll(texts), ','), 1, true).Some? }

  /* So it is when no text has one. */
  lemma WholeWithoutClosers(texts: seq<string>)
    requires forall i :: 0 <= i < |texts| ==> '}' !in texts[i]
    ensures StaysWhole(texts)
  {
    NoneJoined(texts);
    ScanWithoutClosers(Join(EscapedAll(texts), ','), 1);
  }

  lemma {:induction false} NoneJoined(texts: seq<string>)
    requires forall i :: 0 <= i < |texts| ==> '}' !in texts[i]
    ensures '}' !in Join(EscapedAll(texts), ',')
  {
    if texts != [] {
      EscapeKeepsOut(texts[0], '}');
      NoneJoined(texts[1..]);
      assert EscapedAll(texts)[1..] == EscapedAll(texts[1..]);
    }
  }

  lemma {:induction false} ScanWithoutClosers(s: string, depth: nat)
    requires depth > 0 && '}' !in s
    ensures Scan(s, depth, true).Some?
    decreases |s|
  {
    if s == [] {
    } else if |s| > 1 && s[0] == '\\' && s[1] == ',' {
      assert forall c :: c in s[2..] ==> c in s;
      ScanWithoutClosers(s[2..], depth);
    } else {
      assert s[0] in s;
      assert forall c :: c in s[1..] ==> c in s;
      ScanWithoutClosers(s[1..], DepthAfter(s[0], depth, true));
    }
  }

  lemma {:induction false} ScanIgnoringBraces(s: string, depth: nat)
    ensures Scan(s, depth, false).Some? ==> Scan(s, depth, false).value == depth
    decreases |s|
  {
    if s == [] {
    } else if |s| > 1 && s[0] == '\\' && s[1] == ',' {
      ScanIgnoringBraces(s[2..], depth);
    } else {
      ScanIgnoringBraces(s[1..], depth);
    }
  }

  /* What no comma cuts, none cuts inside more braces. */
  lemma {:induction false} ScanDeeper(s: string, depth: nat, deeper: nat)
    requires depth <= deeper && Scan(s, depth, true).Some?
    ensures Scan(s, deeper, true).Some?
    decreases |s|
  {
    if s == [] {
    } else if |s| > 1 && s[0] == '\\' && s[1] == ',' {
      ScanDeeper(s[2..], depth, deeper);
    } else {
      ScanDeeper(s[1..], DepthAfter(s[0], depth, true), DepthAfter(s[0], deeper, true));
    }
  }

  lemma {:induction false} ScanThrough(s: string, rest: string, depth: nat, braces: bool)
    requires Scan(s, depth, braces).Some? && (s != [] ==> s[|s| - 1] != '\\')
    ensures Scan(s + rest, depth, braces) == Scan(rest, Scan(s, depth, braces).value, braces)
    decreases |s|
  {
    var t := s + rest;
    if s == [] {
      assert t == rest;
    } else if |s| > 1 && s[0] == '\\' && s[1] == ',' {
      ScanThrough(s[2..], rest, depth, braces);
      assert t[2..] == s[2..] + rest;
    } else {
      ScanThrough(s[1..], rest, DepthAfter(s[0], depth, braces), braces);
      assert t[1..] == s[1..] + rest;
      assert |s| > 1 ==> t[1] == s[1];
    }
  }

  /* Joined, listable texts have no backslash last. */
  lemma {:induction false} JoinedPlain(texts: seq<string>)
    requires forall i :: 0 <= i < |texts| ==> Listable(texts[i])
    ensures var s := Join(EscapedAll(texts), ',');
            s != [] ==> s[|s| - 1] != '\\'
  {
    var parts := EscapedAll(texts);
    if texts != [] {
      if texts[0] != [] { EscapeEnds(texts[0]); }
      if |texts| > 1 {
        JoinedPlain(texts[1..]);
        assert parts[1..] == EscapedAll(texts[1..]);
      }
    }
  }

  /* So a list is one part of an expression, whatever its commas. */
  lemma ListIsOnePart(path: string, texts: seq<string>)
    requires StaysWhole(texts) && forall i :: 0 <= i < |texts| ==> Listable(texts[i])
    ensures var text := Escape(path) + "=" + ListText(texts);
            Split(text, true) == [text]
  {
    hide Join, EscapedAll, Scan, Escape, Listable;
    var inner := Join(EscapedAll(texts), ',');
    var text, start := Escape(path) + "=" + ListText(texts), Escape(path + "=");
    JoinedPlain(texts);
    EscapeWithLast(path, '=');
    EscapedScans(path + "=", 0, true);
    var depth := Scan(start, 0, true).value;
    assert text == start + ("{" + (inner + "}"));
    ScanThrough(start, "{" + (inner + "}"), 0, true);
    ScanBrace('{', inner + "}", depth);
    ScanDeeper(inner, 1, depth + 1);
    ScanThrough(inner, "}", depth + 1, true);
    ScanBrace('}', "", Scan(inner, depth + 1, true).value);
    assert ['{'] + (inner + "}") == "{" + (inner + "}") && ['}'] + "" == "}";
    ScannedIsOnePart(text, "", 0, true);
    assert "" + text == text;
  }

  lemma ScanBrace(c: char, s: string, depth: nat)
    requires c in "{}"
    ensures Scan([c] + s, depth, true) == Scan(s, DepthAfter(c, depth, true), true)
    ensures forall d: nat {:trigger Scan("", d, true)} :: Scan("", d, true) == Some(d)
  {
    assert ([c] + s)[1..] == s;
  }

  lemma EscapedIsClosed(text: string)
    requires text != [] ==> text[|text| - 1] != '\\'
    ensures Closed(Escape(text), false)
  {
    EscapedScans(text, 0, false);
    ScanIgnoringBraces(Escape(text), 0);
    if text != [] { EscapeEnds(text); }
  }

  /* The elements of a list come back, each for what its text stands for. */
  lemma InferList(texts: seq<string>, values: seq<Value>, floats: string -> bool)
    requires |texts| == |values| && (|texts| == 1 ==> texts[0] != [])
    requires forall i :: 0 <= i < |texts| ==> Listable(texts[i]) && StandsFor(texts[i], values[i], floats)
    ensures InferValue(ListText(texts), floats) == List(values)
  {
    hide StandsFor, InferScalar;
    var parts, s := EscapedAll(texts), ListText(texts);
    var inner := Join(parts, ',');
    assert s[1..|s| - 1] == inner;
    if texts == [] {
      assert inner == [] && values == [];
    } else {
      forall i | 0 <= i < |parts| ensures Closed(parts[i], false) { EscapedIsClosed(texts[i]); }
      SplitOfJoin(parts, false);
      NotBlank(texts);
      forall i | 0 <= i < |parts| ensures InferScalar(Unescape(TrimSpace(parts[i])), floats) == values[i] {
        TrimOfEscape(texts[i]);
        UnescapeOfEscape(texts[i]);
        InferMeans(texts[i], floats, values[i]);
      }
      assert InferElements(parts, floats) == values;
    }
  }

  lemma NotBlank(texts: seq<string>)
    requires texts != [] && (|texts| == 1 ==> texts[0] != []) && Trimmed(texts[0])
    ensures TrimSpace(Join(EscapedAll(texts), ',')) != []
  {
    var s := Join(EscapedAll(texts), ',');
    if |texts| == 1 {
      EscapeStart(texts[0]);
      TrimOfEscape(texts[0]);
      assert s == Escape(texts[0]);
    } else {
      BlankChars(',');
      if TrimSpace(s) == [] { BlankWhenTrimmedAway(s, |Escape(texts[0])|); }
    }
  }

  lemma BlankWhenTrimmedAway(s: string, k: nat)
    requires TrimSpace(s) == [] && k < |s|
    ensures IsSpace(s[k])
  {
    var a, b := TrimDrops(s);
    assert s[k] == if k < |a| then a[k] else b[k - |a|];
  }

  lemma ParsePairOfList(segs: seq<Segment>, texts: seq<string>, floats: string -> bool)
    requires Settable(segs)
    ensures ParsePair(Escape(Print(segs)) + "=" + ListText(texts), floats)
         == Some((Flatten(segs), InferValue(ListText(texts), floats)))
  {
    hide InferValue, Join, EscapedAll, Flatten;
    var path, v := Print(segs), ListText(texts);
    var pair := Escape(path) + "=" + v;
    EscapeKeepsOut(path, '=');
    IndexOfFirst(Escape(path), '=', v);
    assert pair == Escape(path) + ['='] + v;
    assert pair[..|Escape(path)|] == Escape(path) && pair[|Escape(path)| + 1..] == v;
    TrimOfEscape(path);
    UnescapeOfEscape(path);
    ParseOfPrint(segs);
    PrintNonempty(segs);
    BlankChars('{');
    BlankChars('}');
  }

  /* A list of scalars reads back as the list of what their texts stand for; no scalars, the empty list. */
  lemma SetListRoundTrip(dst: Value, segs: seq<Segment>, texts: seq<string>, values: seq<Value>, floats: string -> bool)
    requires Settable(segs) && StaysWhole(texts) && |texts| == |values| && (|texts| == 1 ==> texts[0] != [])
    requires forall i :: 0 <= i < |texts| ==> Listable(texts[i]) && StandsFor(texts[i], values[i], floats)
    ensures ReadAfter(dst, segs, ListText(texts), floats) == Some(List(values))
  {
    hide InferValue, ListText, Flatten, StandsFor, Listable, StaysWhole, SetPath;
    ListIsOnePart(Print(segs), texts);
    ParsePairOfList(segs, texts, floats);
    InferList(texts, values, floats);
    ApplyOne(dst, Escape(Print(segs)) + "=" + ListText(texts), Flatten(segs), List(values), floats);
    GetAfterSet(dst, Flatten(segs), List(values));
  }

  /* Several overrides in one expression apply one after the other, when each closes its braces. */
  lemma SetManyRoundTrip(dst: Value, texts: seq<string>, floats: string -> bool)
    requires texts != [] && forall i :: 0 <= i < |texts| ==> Closed(texts[i], true)
    ensures ApplyPairs(dst, Split(Join(texts, ','), true), floats) == ApplyPairs(dst, texts, floats)
  {
    SplitOfJoin(texts, true);
  }
}
