/** Values trees in memory (charts/values.go): maps and lists are shared by reference and changed in place.
    What each operation computes, what it may change, and what its result shares. */
module ValuesHeap {
  import opened Text
  import opened Values

  /* What a variable holds: a scalar, or a reference to a map or a list. */
  datatype Slot = Leaf(value: Value) | Ref(node: Container)

  class Container {
    const isMap: bool
    var entries: map<string, Slot>
    var items: seq<Slot>
    /* Every container of the tree below this one, itself included. */
    ghost var repr: set<Container>

    constructor OfMap(entries: map<string, Slot>, ghost below: set<Container>)
      ensures isMap && this.entries == entries && repr == below + {this}
    {
      isMap, this.entries, items, repr := true, entries, [], below + {this};
    }

    constructor OfList(items: seq<Slot>, ghost below: set<Container>)
      ensures !isMap && this.items == items && repr == below + {this}
    {
      isMap, this.entries, this.items, repr := false, map[], items, below + {this};
    }
  }

  ghost function Footprint(s: Slot): set<Container>
    reads if s.Ref? then {s.node} else {}
  {
    if s.Ref? then s.node.repr else {}
  }

  ghost predicate Inside(s: Slot, area: set<Container>) { s.Ref? ==> s.node in area }

  /* The whole tree at a slot lies in an area. */
  ghost predicate Within(s: Slot, area: set<Container>)
    requires Inside(s, area)
    reads area
  {
    Footprint(s) <= area
  }

  ghost predicate Apart(a: Slot, b: Slot, area: set<Container>)
    requires Inside(a, area) && Inside(b, area)
    reads area
  {
    Footprint(a) !! Footprint(b)
  }

  /* The tree at a slot is the value v, and no container occurs in it twice. */
  ghost predicate Rep(s: Slot, v: Value)
    reads if s.Ref? then {s.node} + s.node.repr else {}
    decreases v, 1
  {
    match s
    case Leaf(x) => x == v && !v.Map? && !v.List?
    case Ref(n) =>
      n in n.repr &&
      match v
      case Map(es) => n.isMap && n.entries.Keys == es.Keys && RepEntries(n.entries, es, n.repr - {n})
      case List(vs) => !n.isMap && |n.items| == |vs| && RepItems(n.items, vs, n.repr - {n})
      case _ => false
  }

  /* The trees at the entries lie apart from each other in an area, and are the values es. */
  ghost predicate RepEntries(entries: map<string, Slot>, es: Entries, area: set<Container>)
    requires entries.Keys == es.Keys
    reads area
    decreases Map(es), 0
  {
    && (forall k {:trigger entries[k]} :: k in es ==>
          Inside(entries[k], area) && Within(entries[k], area) && Rep(entries[k], es[k]))
    && (forall j, k {:trigger entries[j], entries[k]} :: j in es && k in es && j != k ==>
          Apart(entries[j], entries[k], area))
  }

  ghost predicate RepItems(items: seq<Slot>, vs: seq<Value>, area: set<Container>)
    requires |items| == |vs|
    reads area
    decreases List(vs), 0
  {
    && (forall i {:trigger items[i]} :: 0 <= i < |vs| ==>
          Inside(items[i], area) && Within(items[i], area) && Rep(items[i], vs[i]))
    && (forall i, j {:trigger items[i], items[j]} :: 0 <= i < j < |vs| ==> Apart(items[i], items[j], area))
  }

  // ---------- Parts ----------

  /* Adding or replacing an entry by a tree that lies apart from all others. */
  lemma EntriesPut(entries: map<string, Slot>, es: Entries, area: set<Container>, k: string, s: Slot, v: Value)
    requires entries.Keys == es.Keys && RepEntries(entries, es, area)
    requires Rep(s, v) && Footprint(s) !! area
    ensures RepEntries(entries[k := s], es[k := v], area + Footprint(s))
  {
  }

  lemma EntriesNone()
    ensures RepEntries(map[], map[], {})
  {
  }

  lemma EntriesLie(entries: map<string, Slot>, es: Entries, area: set<Container>)
    requires entries.Keys == es.Keys && RepEntries(entries, es, area)
    ensures forall j {:trigger entries[j]} :: j in es ==>
      Inside(entries[j], area) && Footprint(entries[j]) <= area && Rep(entries[j], es[j])
  {
  }

  /* The containers of the tree at a key, if there is one. */
  ghost function FootprintAt(entries: map<string, Slot>, k: string): set<Container>
    reads if k in entries && entries[k].Ref? then {entries[k].node} else {}
  {
    if k in entries then Footprint(entries[k]) else {}
  }

  /* The entries other than one lie clear of that one. */
  lemma EntriesWithout(entries: map<string, Slot>, es: Entries, area: set<Container>, k: string)
    requires entries.Keys == es.Keys && RepEntries(entries, es, area)
    ensures FootprintAt(entries, k) <= area
    ensures k in es ==> Inside(entries[k], area) && Rep(entries[k], es[k])
    ensures (entries - {k}).Keys == (es - {k}).Keys
    ensures forall j {:trigger entries[j]} :: j in es && j != k ==>
      Inside(entries[j], area - FootprintAt(entries, k)) && Footprint(entries[j]) <= area - FootprintAt(entries, k)
    ensures RepEntries(entries - {k}, es - {k}, area - FootprintAt(entries, k))
  {
    var rest, clear := entries - {k}, area - FootprintAt(entries, k);
    forall j | j in rest ensures Inside(rest[j], clear) && Within(rest[j], clear) {
      assert k in entries ==> Apart(entries[j], entries[k], area);
    }
  }

  /* Puts a tree at a key of a map whose other entries lie apart from it. */
  method Put(n: Container, k: string, s: Slot, ghost es: Entries, ghost v: Value, ghost rest: set<Container>)
    requires n.isMap && (n.entries - {k}).Keys == (es - {k}).Keys && RepEntries(n.entries - {k}, es - {k}, rest)
    requires Rep(s, v) && n !in rest && n !in Footprint(s) && Footprint(s) !! rest
    modifies n
    ensures Rep(Ref(n), Map(es[k := v])) && n.repr == rest + Footprint(s) + {n}
    ensures n.entries == old(n.entries)[k := s]
  {
    hide RepEntries, RepItems;
    ghost var others := n.entries - {k};
    EntriesPut(others, es - {k}, rest, k, s, v);
    n.entries := n.entries[k := s];
    n.repr := rest + Footprint(s) + {n};
    assert n.entries == others[k := s] && (es - {k})[k := v] == es[k := v];
    assert n.repr - {n} == rest + Footprint(s);
  }

  /* The same for items: a cleared item leaves its tree's area behind. */
  lemma ItemsCleared(items: seq<Slot>, vs: seq<Value>, area: set<Container>, i: nat)
    requires |items| == |vs| && RepItems(items, vs, area) && i < |items|
    ensures Inside(items[i], area) && Rep(items[i], vs[i]) && Footprint(items[i]) <= area
    ensures RepItems(items[i := Leaf(Null)], vs[i := Null], area - Footprint(items[i]))
  {
    var rest, cleared := area - Footprint(items[i]), items[i := Leaf(Null)];
    forall j | 0 <= j < |items| && j != i ensures Inside(items[j], rest) && Within(items[j], rest) {
      assert j < i ==> Apart(items[j], items[i], area);
      assert i < j ==> Apart(items[i], items[j], area);
    }
    forall j | 0 <= j < |items|
      ensures Inside(cleared[j], rest) && Within(cleared[j], rest) && Rep(cleared[j], vs[i := Null][j])
    {
      assert j != i ==> cleared[j] == items[j];
    }
    forall j, k | 0 <= j < k < |items| ensures Apart(cleared[j], cleared[k], rest) {
      assert Apart(items[j], items[k], area);
    }
  }

  lemma ItemsPut(items: seq<Slot>, vs: seq<Value>, area: set<Container>, i: nat, s: Slot, v: Value)
    requires |items| == |vs| && RepItems(items, vs, area) && i < |items|
    requires Rep(s, v) && Footprint(s) !! area
    ensures RepItems(items[i := s], vs[i := v], area + Footprint(s))
  {
  }

  lemma ItemsAdd(items: seq<Slot>, vs: seq<Value>, area: set<Container>, s: Slot, v: Value)
    requires |items| == |vs| && RepItems(items, vs, area)
    requires Rep(s, v) && Footprint(s) !! area
    ensures RepItems(items + [s], vs + [v], area + Footprint(s))
  {
  }

  // ---------- Copying ----------

  /* A copy shares no container with anything. */
  method DeepCopy(s: Slot, ghost v: Value) returns (r: Slot)
    requires Rep(s, v)
    ensures Rep(r, v) && fresh(Footprint(r))
    decreases v, 1
  {
    match s
    case Leaf(_) => r := s;
    case Ref(n) =>
      if n.isMap {
        var out := DeepCopyMap(n, v.entries);
        r := Ref(out);
      } else {
        var out := DeepCopyList(n, v.items);
        r := Ref(out);
      }
  }

  method DeepCopyMap(n: Container, ghost es: Entries) returns (out: Container)
    requires Rep(Ref(n), Map(es))
    ensures Rep(Ref(out), Map(es)) && fresh(out.repr)
    decreases Map(es), 0
  {
    hide RepEntries, RepItems;
    EntriesNone();
    var copied: map<string, Slot>, left := map[], n.entries.Keys;
    ghost var below: set<Container>, done: Entries := {}, map[];
    while left != {}
      invariant forall k :: k in left ==> k in es && k !in done
      invariant forall k :: k in es ==> k in left || k in done
      invariant forall k :: k in done ==> k in es && done[k] == es[k]
      invariant copied.Keys == done.Keys && RepEntries(copied, done, below) && fresh(below)
      decreases |left|
    {
      var k :| k in left;
      left := left - {k};
      EntriesLie(n.entries, es, n.repr - {n});
      var c := DeepCopy(n.entries[k], es[k]);
      EntriesPut(copied, done, below, k, c, es[k]);
      copied, below, done := copied[k := c], below + Footprint(c), done[k := es[k]];
    }
    assert done == es;
    out := new Container.OfMap(copied, below);
    assert out.repr - {out} == below;
  }

  method DeepCopyList(n: Container, ghost vs: seq<Value>) returns (out: Container)
    requires Rep(Ref(n), List(vs))
    ensures Rep(Ref(out), List(vs)) && fresh(out.repr)
    decreases List(vs), 0
  {
    var copied: seq<Slot> := [];
    ghost var below: set<Container> := {};
    for i := 0 to |n.items|
      invariant |copied| == i && RepItems(copied, vs[..i], below) && fresh(below)
    {
      assert Rep(n.items[i], vs[i]);
      var c := DeepCopy(n.items[i], vs[i]);
      ItemsAdd(copied, vs[..i], below, c, vs[i]);
      copied, below := copied + [c], below + Footprint(c);
      assert vs[..i + 1] == vs[..i] + [vs[i]];
    }
    assert vs[..|vs|] == vs;
    out := new Container.OfList(copied, below);
    assert out.repr - {out} == below;
  }

  // ---------- Merging ----------

  /* What a key holds after a value is merged in at it. */
  function MergedEntry(cur: Entries, k: string, v: Value): Value {
    if v.Map? && k in cur && cur[k].Map? then Map(Merge(cur[k].entries, v.entries)) else v
  }

  /* How far a merge has got: the keys left to merge still hold what d holds. */
  ghost predicate MergedBut(cur: Entries, d: Entries, e: Entries, left: set<string>) {
    && (forall k :: k in cur <==> k in d || (k in e && k !in left))
    && (forall k :: k in cur ==> cur[k] == if k in left || k !in e then d[k] else Merge(d, e)[k])
  }

  lemma MergedNone(d: Entries, e: Entries)
    ensures MergedBut(d, d, e, e.Keys)
  {
  }

  lemma MergedNext(cur: Entries, d: Entries, e: Entries, left: set<string>, k: string)
    requires MergedBut(cur, d, e, left) && k in left && k in e
    ensures MergedBut(cur[k := MergedEntry(cur, k, e[k])], d, e, left - {k})
  {
  }

  lemma MergedAll(cur: Entries, d: Entries, e: Entries)
    requires MergedBut(cur, d, e, {})
    ensures cur == Merge(d, e)
  {
  }

  /* The trees at those keys lie in an area. */
  ghost predicate LieIn(entries: map<string, Slot>, keys: set<string>, area: set<Container>)
    reads area
  {
    forall j {:trigger entries[j]} :: j in keys && j in entries ==> Inside(entries[j], area) && Within(entries[j], area)
  }

  lemma AllLie(dst: Container, d: Entries, keys: set<string>)
    requires Rep(Ref(dst), Map(d))
    ensures LieIn(dst.entries, keys, dst.repr)
  {
  }

  lemma LieLess(entries: map<string, Slot>, keys: set<string>, area: set<Container>, fewer: set<string>)
    requires LieIn(entries, keys, area) && fewer <= keys
    ensures LieIn(entries, fewer, area)
  {
  }

  lemma LieAt(entries: map<string, Slot>, keys: set<string>, area: set<Container>, k: string)
    requires LieIn(entries, keys, area) && k in keys
    ensures FootprintAt(entries, k) <= area
  {
  }

  /* One key of a merge: maps merge below it, anything else replaces. */
  method MergeEntry(
    dst: Container, k: string, sv: Slot, ghost cur: Entries, ghost v: Value,
    ghost rest: map<string, Slot>, ghost es: Entries, ghost area: set<Container>, ghost mine: set<Container>)
    requires k !in rest && LieIn(dst.entries, rest.Keys, mine)
    requires Rep(Ref(dst), Map(cur)) && Rep(sv, v) && Footprint(sv) !! dst.repr
    requires rest.Keys == es.Keys && RepEntries(rest, es, area) && area !! dst.repr && area !! Footprint(sv)
    modifies dst, FootprintAt(dst.entries, k)
    ensures Rep(Ref(dst), Map(cur[k := MergedEntry(cur, k, v)]))
    ensures dst.repr <= old(dst.repr) + old(Footprint(sv))
    ensures RepEntries(rest, es, area) && area !! dst.repr
    ensures LieIn(dst.entries, rest.Keys, mine)
    decreases v, 1
  {
    hide RepEntries, RepItems, Merge;
    ghost var below, taken := dst.repr - {dst}, FootprintAt(dst.entries, k);
    EntriesWithout(dst.entries, cur, below, k);
    ghost var merged := MergedEntry(cur, k, v);
    var slot := sv;
    if sv.Ref? && sv.node.isMap && k in dst.entries && dst.entries[k].Ref? && dst.entries[k].node.isMap {
      slot := dst.entries[k];
      DeepMerge(slot.node, sv.node, cur[k].entries, v.entries);
    }
    Put(dst, k, slot, cur, merged, below - taken);
  }

  /* Merges src into dst in place. It changes no container of src, but dst then holds src's trees. */
  method DeepMerge(dst: Container, src: Container, ghost d: Entries, ghost e: Entries)
    requires Rep(Ref(dst), Map(d)) && Rep(Ref(src), Map(e)) && dst.repr !! src.repr
    modifies dst.repr
    ensures Rep(Ref(dst), Map(Merge(d, e)))
    ensures dst.repr <= old(dst.repr) + old(src.repr)
    decreases Map(e), 0
  {
    hide RepEntries, RepItems, Merge, MergedBut, LieIn;
    var rest := src.entries;
    ghost var cur, es, area := d, e, src.repr - {src};
    ghost var mine, all := dst.repr, dst.repr + src.repr;
    AllLie(dst, d, rest.Keys);
    MergedNone(d, e);
    while rest != map[]
      invariant rest.Keys == es.Keys && RepEntries(rest, es, area) && area !! dst.repr && area <= all
      invariant forall k {:trigger es[k]} :: k in es ==> k in e && es[k] == e[k]
      invariant Rep(Ref(dst), Map(cur)) && dst.repr <= all && dst in mine
      invariant MergedBut(cur, d, e, es.Keys)
      invariant LieIn(dst.entries, rest.Keys, mine)
      decreases |rest|
    {
      var k :| k in rest;
      var sv := rest[k];
      EntriesWithout(rest, es, area, k);
      MergedNext(cur, d, e, es.Keys, k);
      LieAt(dst.entries, rest.Keys, mine, k);
      LieLess(dst.entries, rest.Keys, mine, (rest - {k}).Keys);
      area := area - FootprintAt(rest, k);
      rest, es := rest - {k}, es - {k};
      MergeEntry(dst, k, sv, cur, e[k], rest, es, area, mine);
      cur := cur[k := MergedEntry(cur, k, e[k])];
    }
    MergedAll(cur, d, e);
  }

  // ---------- Setting ----------

  /* Every container of a result is one of the old tree, one of the value put in, or new. */
  twostate predicate MadeOf(new r: Slot, tree: set<Container>, put: set<Container>)
    reads if r.Ref? then {r.node} else {}
  {
    forall o :: o in Footprint(r) ==> o in tree || o in put || fresh(o)
  }

  /* Assigns val at a path: containers of the right kind on the way are changed in place, and others
     are replaced by new ones. */
  method SetInPlace(cur: Slot, steps: Path, val: Slot, ghost c: Value, ghost v: Value) returns (r: Slot)
    requires Rep(cur, c) && Rep(val, v) && Footprint(cur) !! Footprint(val)
    modifies Footprint(cur)
    ensures Rep(r, SetPath(c, steps, v))
    ensures MadeOf(r, old(Footprint(cur)), old(Footprint(val)))
    ensures steps != [] && cur.Ref? && cur.node.isMap == steps[0].Key? ==> r == cur
    decreases |steps|
  {
    if steps == [] {
      return val;
    }
    match steps[0]
    case Index(i) => r := SetItem(cur, i, steps, val, c, v);
    case Key(k) => r := SetEntry(cur, k, steps, val, c, v);
  }

  method SetEntry(cur: Slot, k: string, steps: Path, val: Slot, ghost c: Value, ghost v: Value) returns (r: Slot)
    requires Rep(cur, c) && Rep(val, v) && Footprint(cur) !! Footprint(val)
    requires steps != [] && steps[0] == Key(k)
    modifies Footprint(cur)
    ensures Rep(r, SetPath(c, steps, v))
    ensures MadeOf(r, old(Footprint(cur)), old(Footprint(val)))
    ensures cur.Ref? && cur.node.isMap ==> r == cur
    decreases |steps|, 0
  {
    hide RepEntries, RepItems, SetPath;
    ghost var es := EntriesOf(c);
    var n;
    if cur.Ref? && cur.node.isMap {
      n := cur.node;
    } else {
      EntriesNone();
      n := new Container.OfMap(map[], {});
      assert n.repr - {n} == {};
    }
    EntriesWithout(n.entries, es, n.repr - {n}, k);
    ghost var rest := n.repr - {n} - FootprintAt(n.entries, k);
    var child := if k in n.entries then n.entries[k] else Leaf(Null);
    ghost var x := ChildAt(es, k);
    var slot := SetInPlace(child, steps[1..], val, x, v);
    Put(n, k, slot, es, SetPath(x, steps[1..], v), rest);
    SetPathKey(c, k, steps, v);
    r := Ref(n);
  }

  lemma SetPathKey(c: Value, k: string, steps: Path, v: Value)
    requires steps != [] && steps[0] == Key(k)
    ensures SetPath(c, steps, v) == Map(EntriesOf(c)[k := SetPath(ChildAt(EntriesOf(c), k), steps[1..], v)])
  {
  }

  method SetItem(cur: Slot, i: nat, steps: Path, val: Slot, ghost c: Value, ghost v: Value) returns (r: Slot)
    requires Rep(cur, c) && Rep(val, v) && Footprint(cur) !! Footprint(val)
    requires steps != [] && steps[0] == Index(i)
    modifies Footprint(cur)
    ensures Rep(r, SetPath(c, steps, v))
    ensures MadeOf(r, old(Footprint(cur)), old(Footprint(val)))
    ensures cur.Ref? && !cur.node.isMap ==> r == cur
    decreases |steps|, 0
  {
    hide RepEntries, RepItems, SetPath, Padded;
    ghost var vs := Items(c);
    var n;
    if cur.Ref? && !cur.node.isMap {
      n := cur.node;
    } else {
      ItemsNone();
      n := new Container.OfList([], {});
      assert n.repr - {n} == {};
    }
    Pad(n, i, vs);
    ghost var padded, area := Padded(vs, i), n.repr - {n};
    ItemsCleared(n.items, padded, area, i);
    ghost var rest := area - Footprint(n.items[i]);
    var slot := SetInPlace(n.items[i], steps[1..], val, padded[i], v);
    PutItem(n, i, slot, padded, SetPath(padded[i], steps[1..], v), rest);
    SetPathIndex(c, i, steps, v);
    r := Ref(n);
  }

  lemma ItemsNone()
    ensures RepItems([], [], {})
  {
  }

  lemma SetPathIndex(c: Value, i: nat, steps: Path, v: Value)
    requires steps != [] && steps[0] == Index(i)
    ensures var padded := Padded(Items(c), i);
            SetPath(c, steps, v) == List(padded[i := SetPath(padded[i], steps[1..], v)])
  {
  }

  /* Grows a list with nulls to fit an index. */
  method Pad(n: Container, i: nat, ghost vs: seq<Value>)
    requires !n.isMap && n in n.repr && |n.items| == |vs| && RepItems(n.items, vs, n.repr - {n})
    modifies n`items
    ensures |n.items| == |Padded(vs, i)| && RepItems(n.items, Padded(vs, i), n.repr - {n})
  {
    hide RepItems;
    ghost var cur := vs;
    while |n.items| <= i
      invariant |n.items| == |cur| && RepItems(n.items, cur, n.repr - {n})
      invariant Padded(vs, i) == Padded(cur, i)
      decreases i - |n.items|
    {
      ItemsAdd(n.items, cur, n.repr - {n}, Leaf(Null), Null);
      n.items := n.items + [Leaf(Null)];
      cur := cur + [Null];
      assert n.repr - {n} + {} == n.repr - {n};
    }
  }

  method PutItem(n: Container, i: nat, s: Slot, ghost vs: seq<Value>, ghost v: Value, ghost rest: set<Container>)
    requires !n.isMap && |n.items| == |vs| && i < |vs|
    requires RepItems(n.items[i := Leaf(Null)], vs[i := Null], rest)
    requires Rep(s, v) && n !in rest && n !in Footprint(s) && Footprint(s) !! rest
    modifies n
    ensures Rep(Ref(n), List(vs[i := v])) && n.repr == rest + Footprint(s) + {n}
  {
    hide RepEntries, RepItems;
    ItemsPut(n.items[i := Leaf(Null)], vs[i := Null], rest, i, s, v);
    assert n.items[i := Leaf(Null)][i := s] == n.items[i := s] && vs[i := Null][i := v] == vs[i := v];
    n.items := n.items[i := s];
    n.repr := rest + Footprint(s) + {n};
    assert n.repr - {n} == rest + Footprint(s);
  }
}
