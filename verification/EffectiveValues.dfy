/** Effective values (charts/values.go): defaults, files and overrides, merged on the heap without touching
    or sharing the defaults. */
module EffectiveValues {
  import opened Text
  import opened Values
  import opened SetGrammar
  import opened ValuesHeap

  // ---------- Decoding ----------

  /* What a decoder returns for a document, or inference for an override: a new tree. */
  method Build(v: Value) returns (s: Slot)
    ensures Rep(s, v) && fresh(Footprint(s))
    decreases v, 1
  {
    match v
    case Map(es) =>
      var n := BuildMap(es);
      s := Ref(n);
    case List(vs) =>
      var n := BuildList(vs);
      s := Ref(n);
    case _ => s := Leaf(v);
  }

  method BuildMap(es: Entries) returns (out: Container)
    ensures Rep(Ref(out), Map(es)) && fresh(out.repr)
    decreases Map(es), 0
  {
    hide RepEntries, RepItems;
    EntriesNone();
    var built: map<string, Slot>, left := map[], es;
    ghost var below: set<Container>, done: Entries := {}, map[];
    while left != map[]
      invariant forall k {:trigger left[k]} :: k in left ==> k in es && left[k] == es[k] && k !in done
      invariant forall k {:trigger es[k]} :: k in es ==> k in left || k in done
      invariant forall k {:trigger done[k]} :: k in done ==> k in es && done[k] == es[k]
      invariant built.Keys == done.Keys && RepEntries(built, done, below) && fresh(below)
      decreases |left|
    {
      var k :| k in left;
      var v := left[k];
      left := left - {k};
      var c := Build(v);
      EntriesPut(built, done, below, k, c, v);
      built, below, done := built[k := c], below + Footprint(c), done[k := v];
    }
    assert done == es;
    out := new Container.OfMap(built, below);
    assert out.repr - {out} == below;
  }

  method BuildList(vs: seq<Value>) returns (out: Container)
    ensures Rep(Ref(out), List(vs)) && fresh(out.repr)
    decreases List(vs), 0
  {
    var built: seq<Slot> := [];
    ghost var below: set<Container> := {};
    for i := 0 to |vs|
      invariant |built| == i && RepItems(built, vs[..i], below) && fresh(below)
    {
      var c := Build(vs[i]);
      ItemsAdd(built, vs[..i], below, c, vs[i]);
      built, below := built + [c], below + Footprint(c);
      assert vs[..i + 1] == vs[..i] + [vs[i]];
    }
    assert vs[..|vs|] == vs;
    out := new Container.OfList(built, below);
    assert out.repr - {out} == below;
  }

  // ---------- Overrides ----------

  /* Every path that parses starts with a key, so an override changes the map it is given. */
  lemma ParsedStartsWithKey(path: string)
    requires Parse(path).Ok?
    ensures Parse(path).value != [] && Parse(path).value[0].Key?
  {
    var segs := SplitDots(path);
    assert ParseSegment(segs[0]).Ok?;
  }

  /* One override, applied in place: exactly what applying it to the value would give, with nothing new
     in the tree that was not just made. */
  method ApplySetInPlace(out: Container, expr: string, floats: string -> bool, ghost d: Entries) returns (ok: bool)
    requires Rep(Ref(out), Map(d))
    modifies out.repr
    ensures var (v, applied) := ApplyPairs(Map(d), Split(expr, true), floats);
            Rep(Ref(out), v) && v.Map? && ok == applied
    ensures fresh(out.repr - old(out.repr))
  {
    hide Rep, SetPath, Parse, InferValue;
    var pairs := SplitCommas(expr, true);
    ghost var cur := Map(d);
    assert pairs[0..] == pairs;
    for k := 0 to |pairs|
      invariant cur.Map? && Rep(Ref(out), cur) && fresh(out.repr - old(out.repr))
      invariant ApplyPairs(Map(d), pairs, floats) == ApplyPairs(cur, pairs[k..], floats)
    {
      assert pairs[k..][1..] == pairs[k + 1..];
      var pair := ParsePair(pairs[k], floats);
      if pair.None? {
        return false;
      }
      var (steps, v) := pair.value;
      PairStartsWithKey(pairs[k], floats);
      var built := Build(v);
      RepIsMap(out, cur);
      var r := SetInPlace(Ref(out), steps, built, cur, v);
      cur := SetPath(cur, steps, v);
      SetKeepsMap(out, r, cur);
    }
    ok := true;
  }

  lemma PairStartsWithKey(pair: string, floats: string -> bool)
    requires ParsePair(pair, floats).Some?
    ensures var (steps, v) := ParsePair(pair, floats).value; steps != [] && steps[0].Key?
  {
    ParsedStartsWithKey(Unescape(TrimSpace(pair[..IndexOf(pair, '=')])));
  }

  lemma RepIsMap(out: Container, v: Value)
    requires Rep(Ref(out), v) && v.Map?
    ensures out.isMap && out in out.repr
  {
  }

  lemma SetKeepsMap(out: Container, r: Slot, v: Value)
    requires r == Ref(out) && out.isMap && Rep(r, v)
    ensures v.Map?
  {
  }

  // ---------- All of it ----------

  function ApplySets(v: Value, sets: seq<string>, floats: string -> bool): (Value, bool)
    decreases |sets|
  {
    if sets == [] then (v, true)
    else
      var (w, ok) := ApplyPairs(v, Split(sets[0], true), floats);
      if ok then ApplySets(w, sets[1..], floats) else (w, false)
  }

  /* Defaults, then each file in order, then each override. The result is a tree of its own: the defaults
     keep their value, and share no container with it. */
  method MergeValues(
    defaults: Container, files: seq<Option<Entries>>, sets: seq<string>, floats: string -> bool, ghost d: Entries)
    returns (ok: bool, out: Container)
    requires Rep(Ref(defaults), Map(d))
    ensures fresh(out.repr) && Rep(Ref(defaults), Map(d))
    ensures ok <==> AllParsed(files) && ApplySets(Map(MergeFiles(d, Parsed(files))), sets, floats).1
    ensures ok ==> Rep(Ref(out), ApplySets(Map(MergeFiles(d, Parsed(files))), sets, floats).0)
  {
    hide RepEntries, RepItems, ApplyPairs, Merge;
    out := DeepCopyMap(defaults, d);
    ghost var cur := d;
    for i := 0 to |files|
      invariant Rep(Ref(out), Map(cur)) && fresh(out.repr)
      invariant AllParsed(files[..i]) && cur == MergeFiles(d, Parsed(files[..i]))
    {
      assert files[..i + 1] == files[..i] + [files[i]];
      if files[i].None? {
        assert !AllParsed(files);
        return false, out;
      }
      ParsedNext(files[..i], files[i].value, d);
      var parsed := BuildMap(files[i].value);
      DeepMerge(out, parsed, cur, files[i].value);
      cur := Merge(cur, files[i].value);
    }
    assert files[..|files|] == files;
    ok := ApplyAll(out, sets, floats, cur);
  }

  predicate AllParsed(files: seq<Option<Entries>>) { forall i :: 0 <= i < |files| ==> files[i].Some? }

  function Parsed(files: seq<Option<Entries>>): seq<Entries>
    requires AllParsed(files)
  {
    seq(|files|, i requires 0 <= i < |files| => files[i].value)
  }

  lemma ParsedNext(files: seq<Option<Entries>>, e: Entries, d: Entries)
    requires AllParsed(files)
    ensures AllParsed(files + [Some(e)])
    ensures MergeFiles(d, Parsed(files + [Some(e)])) == Merge(MergeFiles(d, Parsed(files)), e)
  {
    var more := Parsed(files + [Some(e)]);
    assert more[..|files|] == Parsed(files);
  }

  method ApplyAll(out: Container, sets: seq<string>, floats: string -> bool, ghost d: Entries) returns (ok: bool)
    requires Rep(Ref(out), Map(d))
    modifies out.repr
    ensures fresh(out.repr - old(out.repr))
    ensures ok == ApplySets(Map(d), sets, floats).1
    ensures ok ==> Rep(Ref(out), ApplySets(Map(d), sets, floats).0)
  {
    hide Rep, ApplyPairs;
    ghost var cur := d;
    assert sets[0..] == sets;
    for k := 0 to |sets|
      invariant Rep(Ref(out), Map(cur)) && fresh(out.repr - old(out.repr))
      invariant ApplySets(Map(d), sets, floats) == ApplySets(Map(cur), sets[k..], floats)
    {
      assert sets[k..][1..] == sets[k + 1..];
      ghost var (v, applied) := ApplyPairs(Map(cur), Split(sets[k], true), floats);
      ok := ApplySetInPlace(out, sets[k], floats, cur);
      if !ok {
        return;
      }
      cur := v.entries;
    }
    ok := true;
  }

  /* The base of an upgrade that reuses values, again a tree of its own. */
  method ReuseValuesInPlace(defaults: Container, previous: Container, ghost d: Entries, ghost p: Entries)
    returns (out: Container)
    requires Rep(Ref(defaults), Map(d)) && Rep(Ref(previous), Map(p))
    ensures fresh(out.repr) && Rep(Ref(out), Map(ReuseValues(d, p)))
    ensures Rep(Ref(defaults), Map(d)) && Rep(Ref(previous), Map(p))
  {
    hide RepEntries, RepItems, Merge;
    out := DeepCopyMap(defaults, d);
    var copy := DeepCopyMap(previous, p);
    DeepMerge(out, copy, d, p);
  }
}
