/** Values trees (charts/values.go): what reading, setting and merging mean, by paths. */
module Values {
  import opened Text

  /* A decoded values tree. A floating-point scalar is kept as the text it was written as. */
  datatype Value =
    | Null | Bool(b: bool) | Int(i: int) | Float(text: string) | Str(s: string)
    | List(items: seq<Value>) | Map(entries: map<string, Value>)

  type Entries = map<string, Value>

  /* One hop of a path: a map key, or a list index. */
  datatype Step = Key(key: string) | Index(index: nat)

  type Path = seq<Step>

  // ---------- Reading ----------

  function Hop(cur: Value, s: Step): Option<Value> {
    match s
    case Index(i) => if cur.List? && i < |cur.items| then Some(cur.items[i]) else None
    case Key(k) => if cur.Map? && k in cur.entries then Some(cur.entries[k]) else None
  }

  function Lookup(cur: Value, path: Path): Option<Value> {
    if path == [] then Some(cur)
    else match Hop(cur, path[0])
      case None => None
      case Some(next) => Lookup(next, path[1..])
  }

  /* A hop into something that is not the container it wants is absent, not an error. */
  method LookupPath(root: Value, path: Path) returns (r: Option<Value>)
    ensures r == Lookup(root, path)
  {
    var cur := root;
    for i := 0 to |path|
      invariant Lookup(root, path) == Lookup(cur, path[i..])
    {
      var s := path[i];
      assert path[i..][1..] == path[i + 1..];
      if s.Index? {
        if !cur.List? || s.index >= |cur.items| {
          return None;
        }
        cur := cur.items[s.index];
        continue;
      }
      if !cur.Map? || s.key !in cur.entries {
        return None;
      }
      cur := cur.entries[s.key];
    }
    return Some(cur);
  }

  // ---------- Setting ----------

  function Items(cur: Value): seq<Value> { if cur.List? then cur.items else [] }

  function EntriesOf(cur: Value): Entries { if cur.Map? then cur.entries else map[] }

  function Padded(items: seq<Value>, n: nat): (r: seq<Value>)
    ensures |r| == if |items| <= n then n + 1 else |items|
    ensures forall i :: 0 <= i < |items| ==> r[i] == items[i]
    ensures forall i :: |items| <= i < |r| ==> r[i] == Null
    decreases n + 1 - |items|
  {
    if |items| <= n then Padded(items + [Null], n) else items
  }

  function ChildAt(entries: Entries, key: string): Value {
    if key in entries then entries[key] else Null
  }

  /* Assigns v at a path, making maps and lists on the way, replacing what is in the way, and
     growing lists with nulls. */
  function SetPath(cur: Value, path: Path, v: Value): Value
    decreases |path|
  {
    if path == [] then v
    else match path[0]
      case Index(i) =>
        var items := Padded(Items(cur), i);
        List(items[i := SetPath(items[i], path[1..], v)])
      case Key(k) =>
        var entries := EntriesOf(cur);
        Map(entries[k := SetPath(ChildAt(entries, k), path[1..], v)])
  }

  lemma {:induction false} GetAfterSet(cur: Value, path: Path, v: Value)
    ensures Lookup(SetPath(cur, path, v), path) == Some(v)
    decreases |path|
  {
    if path != [] {
      match path[0]
      case Index(i) => GetAfterSet(Padded(Items(cur), i)[i], path[1..], v);
      case Key(k) => GetAfterSet(ChildAt(EntriesOf(cur), k), path[1..], v);
    }
  }

  /* Setting again overwrites. */
  lemma {:induction false} SetAfterSet(cur: Value, path: Path, v: Value, w: Value)
    ensures SetPath(SetPath(cur, path, v), path, w) == SetPath(cur, path, w)
    decreases |path|
  {
    if path != [] {
      match path[0]
      case Index(i) =>
        SetAfterSet(Padded(Items(cur), i)[i], path[1..], v, w);
        SetItemTwice(cur, i, path, v, w);
      case Key(k) =>
        SetAfterSet(ChildAt(EntriesOf(cur), k), path[1..], v, w);
        SetKeyTwice(cur, k, path, v, w);
    }
  }

  lemma SetItemTwice(cur: Value, i: nat, path: Path, v: Value, w: Value)
    requires path != [] && path[0] == Index(i)
    requires var child := Padded(Items(cur), i)[i];
             SetPath(SetPath(child, path[1..], v), path[1..], w) == SetPath(child, path[1..], w)
    ensures SetPath(SetPath(cur, path, v), path, w) == SetPath(cur, path, w)
  {
    var items := Padded(Items(cur), i);
    var x, y := SetPath(items[i], path[1..], v), SetPath(items[i], path[1..], w);
    var once := SetPath(cur, path, v);
    assert once == List(items[i := x]);
    assert Padded(items[i := x], i) == items[i := x];
    assert items[i := x][i] == x;
    assert items[i := x][i := y] == items[i := y];
  }

  lemma SetKeyTwice(cur: Value, k: string, path: Path, v: Value, w: Value)
    requires path != [] && path[0] == Key(k)
    requires var child := ChildAt(EntriesOf(cur), k);
             SetPath(SetPath(child, path[1..], v), path[1..], w) == SetPath(child, path[1..], w)
    ensures SetPath(SetPath(cur, path, v), path, w) == SetPath(cur, path, w)
  {
    var entries := EntriesOf(cur);
    var x, y := SetPath(ChildAt(entries, k), path[1..], v), SetPath(ChildAt(entries, k), path[1..], w);
    var once := SetPath(cur, path, v);
    assert once == Map(entries[k := x]) && ChildAt(entries[k := x], k) == x;
    assert entries[k := x][k := y] == entries[k := y];
  }

  /* Setting a path back to what it reads changes nothing. */
  lemma {:induction false} SetToItself(cur: Value, path: Path)
    requires Lookup(cur, path).Some?
    ensures SetPath(cur, path, Lookup(cur, path).value) == cur
    decreases |path|
  {
    if path != [] {
      match path[0]
      case Index(i) =>
        SetToItself(cur.items[i], path[1..]);
        assert Padded(cur.items, i) == cur.items;
        assert cur.items[i := cur.items[i]] == cur.items;
      case Key(k) =>
        SetToItself(cur.entries[k], path[1..]);
        assert cur.entries[k := cur.entries[k]] == cur.entries;
    }
  }

  /* Path q leaves path p at hop n, into another child. */
  ghost predicate Diverges(p: Path, q: Path, n: nat) {
    n < |p| && n < |q| && p[..n] == q[..n] && p[n] != q[n]
  }

  /* How long the list at a path is; 0 when there is none. */
  ghost function LengthAt(cur: Value, path: Path): nat {
    match Lookup(cur, path)
    case Some(List(items)) => |items|
    case _ => 0
  }

  /* What a diverging path reads after a set: nothing, when the set needs a container of the other
     kind there; a null, when it names exactly an element the list grew by; otherwise what it read
     before. */
  ghost function ReadAfterSet(cur: Value, p: Path, q: Path, n: nat): Option<Value>
    requires Diverges(p, q, n)
  {
    if p[n].Key? != q[n].Key? then None
    else if p[n].Index? && LengthAt(cur, p[..n]) <= q[n].index < p[n].index then
      if |q| == n + 1 then Some(Null) else None
    else Lookup(cur, q)
  }

  lemma {:induction false} SetLeavesOtherPaths(cur: Value, p: Path, q: Path, n: nat, v: Value)
    requires Diverges(p, q, n)
    ensures Lookup(SetPath(cur, p, v), q) == ReadAfterSet(cur, p, q, n)
    decreases n
  {
    if n == 0 {
      assert p[..0] == [];
      if |q| > 1 { LookupNull(q[1..]); }
    } else {
      assert p[0] == p[..n][0] == q[..n][0] == q[0];
      assert p[1..][..n - 1] == p[..n][1..] && q[1..][..n - 1] == q[..n][1..];
      var child := match p[0]
        case Index(i) => Padded(Items(cur), i)[i]
        case Key(k) => ChildAt(EntriesOf(cur), k);
      SetLeavesOtherPaths(child, p[1..], q[1..], n - 1, v);
      assert Lookup(SetPath(cur, p, v), q) == Lookup(SetPath(child, p[1..], v), q[1..]);
      ReadThroughChild(cur, p, q, n, child);
    }
  }

  lemma LookupNull(path: Path)
    requires path != []
    ensures Lookup(Null, path) == None
  {
  }

  /* Below a hop that was absent, there is nothing to read either way. */
  lemma ReadThroughChild(cur: Value, p: Path, q: Path, n: nat, child: Value)
    requires 0 < n && Diverges(p, q, n) && p[0] == q[0] && Diverges(p[1..], q[1..], n - 1)
    requires child == match p[0]
                      case Index(i) => Padded(Items(cur), i)[i]
                      case Key(k) => ChildAt(EntriesOf(cur), k)
    ensures ReadAfterSet(child, p[1..], q[1..], n - 1) == ReadAfterSet(cur, p, q, n)
  {
    assert p[..n][0] == p[0] && p[..n][1..] == p[1..][..n - 1];
    if Hop(cur, p[0]).None? {
      assert child == Null;
      LookupNull(q[1..]);
      if n > 1 { LookupNull(p[1..][..n - 1]); }
    }
  }

  // ---------- Merging ----------

  /* Nested maps merge; anything else in src replaces what dst has. */
  function Merge(dst: Entries, src: Entries): Entries
    decreases Map(src)
  {
    map k | k in dst.Keys + src.Keys ::
      if k !in src then dst[k]
      else if src[k].Map? && k in dst && dst[k].Map? then Map(Merge(dst[k].entries, src[k].entries))
      else src[k]
  }

  function KeyPath(keys: seq<string>): Path { seq(|keys|, i requires 0 <= i < |keys| => Key(keys[i])) }

  /* What a tree of maps holds at a path of keys. */
  function At(entries: Entries, keys: seq<string>): Option<Value>
    requires keys != []
    decreases |keys|
  {
    if keys[0] !in entries then None
    else if |keys| == 1 then Some(entries[keys[0]])
    else if entries[keys[0]].Map? then At(entries[keys[0]].entries, keys[1..])
    else None
  }

  lemma {:induction false} AtIsLookup(entries: Entries, keys: seq<string>)
    requires keys != []
    ensures At(entries, keys) == Lookup(Map(entries), KeyPath(keys))
    decreases |keys|
  {
    var p := KeyPath(keys);
    assert p[0] == Key(keys[0]);
    if keys[0] in entries {
      var child := entries[keys[0]];
      if |keys| == 1 {
        assert p[1..] == [];
      } else {
        assert p[1..] == KeyPath(keys[1..]);
        if child.Map? {
          AtIsLookup(child.entries, keys[1..]);
        } else {
          assert p[1..][0] == Key(keys[1]);
        }
      }
    }
  }

  /* Some proper, non-empty prefix of the path ends in something that is not a map. */
  ghost predicate Blocked(entries: Entries, keys: seq<string>) {
    exists n :: 0 < n < |keys| && At(entries, keys[..n]).Some? && !At(entries, keys[..n]).value.Map?
  }

  /* The value a merge holds at a path, from what its two sides hold there. */
  ghost function MergedAt(dst: Entries, src: Entries, keys: seq<string>): Option<Value>
    requires keys != []
  {
    var d, s := At(dst, keys), At(src, keys);
    if d.Some? && s.Some? && d.value.Map? && s.value.Map? then Some(Map(Merge(d.value.entries, s.value.entries)))
    else if s.Some? then s
    else if Blocked(src, keys) then None
    else d
  }

  /* The meaning of a merge, path by path. */
  lemma {:induction false} MergeByPaths(dst: Entries, src: Entries, keys: seq<string>)
    requires keys != []
    ensures At(Merge(dst, src), keys) == MergedAt(dst, src, keys)
    decreases |keys|
  {
    var k := keys[0];
    if |keys| > 1 {
      if k in src && src[k].Map? {
        BlockedBelow(src, keys);
        if k in dst && dst[k].Map? {
          MergeByPaths(dst[k].entries, src[k].entries, keys[1..]);
        } else {
          assert At(dst, keys) == None;
        }
      } else if k in src {
        assert keys[..1] == [k];
        assert At(src, keys[..1]) == Some(src[k]);
        assert Blocked(src, keys);
      } else {
        assert !Blocked(src, keys) by { AbsentNotBlocked(src, keys); }
      }
    } else {
      assert !Blocked(src, keys);
    }
  }

  lemma AbsentNotBlocked(src: Entries, keys: seq<string>)
    requires keys != [] && keys[0] !in src
    ensures !Blocked(src, keys)
  {
    forall n | 0 < n < |keys| ensures At(src, keys[..n]) == None {
      assert keys[..n][0] == keys[0];
    }
  }

  lemma BlockedBelow(src: Entries, keys: seq<string>)
    requires |keys| > 1 && keys[0] in src && src[keys[0]].Map?
    ensures Blocked(src, keys) <==> Blocked(src[keys[0]].entries, keys[1..])
  {
    var below := src[keys[0]].entries;
    forall n | 1 < n < |keys| ensures At(src, keys[..n]) == At(below, keys[1..][..n - 1]) {
      assert keys[..n][0] == keys[0] && keys[..n][1..] == keys[1..][..n - 1];
    }
    if Blocked(src, keys) {
      var n :| 0 < n < |keys| && At(src, keys[..n]).Some? && !At(src, keys[..n]).value.Map?;
      assert keys[..n][0] == keys[0];
      assert n > 1;
      assert At(below, keys[1..][..n - 1]) == At(src, keys[..n]);
    }
    if Blocked(below, keys[1..]) {
      var n :| 0 < n < |keys[1..]| && At(below, keys[1..][..n]).Some? && !At(below, keys[1..][..n]).value.Map?;
      assert keys[..n + 1][1..] == keys[1..][..n];
      assert At(src, keys[..n + 1]) == At(below, keys[1..][..n]);
    }
  }

  lemma {:induction false} MergeIdempotent(m: Entries)
    ensures Merge(m, m) == m
    decreases Map(m)
  {
    forall k | k in m && m[k].Map? ensures Merge(m[k].entries, m[k].entries) == m[k].entries {
      MergeIdempotent(m[k].entries);
    }
  }

  /* Merging the same overrides twice is merging them once. */
  lemma {:induction false} MergeTwice(dst: Entries, src: Entries)
    ensures Merge(Merge(dst, src), src) == Merge(dst, src)
    decreases Map(src)
  {
    var once := Merge(dst, src);
    forall k | k in src && src[k].Map? ensures Merge(once, src)[k] == once[k] {
      if k in dst && dst[k].Map? {
        MergeTwice(dst[k].entries, src[k].entries);
      } else {
        MergeIdempotent(src[k].entries);
      }
    }
    assert Merge(once, src) == once;
  }

  lemma MergeWithNothing(m: Entries)
    ensures Merge(m, map[]) == m && Merge(map[], m) == m
  {
  }

  /* Merging is not associative: a scalar between two maps hides the first of them from the
     third. */
  lemma MergeNotAssociative() returns (a: Entries, b: Entries, c: Entries)
    ensures Merge(Merge(a, b), c) != Merge(a, Merge(b, c))
  {
    var x: Entries := map["x" := Int(1)];
    var y: Entries := map["y" := Int(2)];
    a, b, c := map["k" := Map(x)], map["k" := Int(0)], map["k" := Map(y)];
    assert Merge(Merge(a, b), c)["k"] == Map(y);
    assert Merge(b, c)["k"] == Map(y);
    assert Merge(a, Merge(b, c))["k"] == Map(Merge(x, y));
    assert "x" in Merge(x, y);
  }

  /* Nowhere does b hold something other than a map where a and c both hold maps, unless what it
     hides changes nothing. */
  ghost predicate NoScalarBetween(a: Entries, b: Entries, c: Entries)
    decreases Map(b), 1
  {
    forall k :: k in a && k in b && k in c ==> NoScalarAt(a, b, c, k)
  }

  ghost predicate NoScalarAt(a: Entries, b: Entries, c: Entries, k: string)
    requires k in a && k in b && k in c
    decreases Map(b), 0
  {
    a[k].Map? && c[k].Map? ==>
      if b[k].Map? then NoScalarBetween(a[k].entries, b[k].entries, c[k].entries)
      else Merge(a[k].entries, c[k].entries) == c[k].entries
  }

  /* Which is exactly when grouping does not matter. */
  lemma {:induction false} MergeAssociativeIff(a: Entries, b: Entries, c: Entries)
    ensures Merge(Merge(a, b), c) == Merge(a, Merge(b, c)) <==> NoScalarBetween(a, b, c)
    decreases Map(b)
  {
    var left, right := Merge(Merge(a, b), c), Merge(a, Merge(b, c));
    assert left.Keys == right.Keys == a.Keys + b.Keys + c.Keys;
    forall k | k in left
      ensures left[k] == right[k] <==> (k in a && k in b && k in c ==> NoScalarAt(a, b, c, k))
    {
      if k in a && k in b && k in c && a[k].Map? && b[k].Map? && c[k].Map? {
        MergeAssociativeIff(a[k].entries, b[k].entries, c[k].entries);
      }
      GroupingAt(a, b, c, k);
    }
    if NoScalarBetween(a, b, c) {
      assert left == right;
    }
  }

  lemma GroupingAt(a: Entries, b: Entries, c: Entries, k: string)
    requires k in a || k in b || k in c
    requires k in a && k in b && k in c && a[k].Map? && b[k].Map? && c[k].Map? ==>
               (Merge(Merge(a[k].entries, b[k].entries), c[k].entries)
                 == Merge(a[k].entries, Merge(b[k].entries, c[k].entries))
                <==> NoScalarBetween(a[k].entries, b[k].entries, c[k].entries))
    ensures Merge(Merge(a, b), c)[k] == Merge(a, Merge(b, c))[k]
       <==> (k in a && k in b && k in c ==> NoScalarAt(a, b, c, k))
  {
    var ab, bc := Merge(a, b), Merge(b, c);
  }

  /* Chart defaults, then each file in order. */
  function MergeFiles(defaults: Entries, files: seq<Entries>): Entries {
    if files == [] then defaults else Merge(MergeFiles(defaults, files[..|files| - 1]), files[|files| - 1])
  }

  /* A later file wins: whatever a file holds at a path that no later file touches is in the
     result. */
  lemma {:induction false} LaterFilesWin(defaults: Entries, files: seq<Entries>, i: nat, keys: seq<string>)
    requires i < |files| && keys != []
    requires At(files[i], keys).Some? && !At(files[i], keys).value.Map?
    requires forall j :: i < j < |files| ==> At(files[j], keys) == None && !Blocked(files[j], keys)
    ensures At(MergeFiles(defaults, files), keys) == At(files[i], keys)
    decreases |files|
  {
    var n := |files| - 1;
    MergeByPaths(MergeFiles(defaults, files[..n]), files[n], keys);
    if i < n {
      LaterFilesWin(defaults, files[..n], i, keys);
    }
  }

  /* The base of an upgrade that reuses values: previous wins wherever both have a key, and a
     default the previous release never had stays. */
  function ReuseValues(defaults: Entries, previous: Entries): Entries { Merge(defaults, previous) }

  lemma ReuseValuesByPaths(defaults: Entries, previous: Entries, keys: seq<string>)
    requires keys != []
    ensures At(previous, keys).Some? && !At(previous, keys).value.Map? ==>
              At(ReuseValues(defaults, previous), keys) == At(previous, keys)
    ensures At(previous, keys).None? && !Blocked(previous, keys) ==>
              At(ReuseValues(defaults, previous), keys) == At(defaults, keys)
  {
    MergeByPaths(defaults, previous, keys);
  }
}
