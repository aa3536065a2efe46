/** Rendered manifests, which of their services are rolled out one at a time, and the partial
    manifests such a rollout deploys (charts/rollout.go). */
module Manifests {
  import opened Text
  import opened Tasks
  import opened Phase

  const ROLLOUT_LABEL := "com.swarmcli.rollout"
  const SEQUENTIAL := "sequential"

  /* Deploy labels come as a mapping or as a list of key=value strings. */
  datatype Labels = NoLabels | Mapping(entries: seq<(string, string)>) | Listing(items: seq<string>)

  /* One service: its key, its deploy labels, and everything else it says. */
  datatype ServiceSpec = ServiceSpec(key: string, labels: Labels, body: string)

  /* The real names of the external resources of one kind, or the error of declaring two. */
  datatype Externals = Conflict | Named(names: seq<string>)

  datatype Rest = Rest(networks: Externals, secrets: Externals, configs: Externals, other: string)

  datatype Document = Malformed | Serviceless(rest: Rest) | Stack(services: seq<ServiceSpec>, rest: Rest)

  ghost predicate DistinctKeys(services: seq<ServiceSpec>) {
    forall i, j :: 0 <= i < j < |services| ==> services[i].key != services[j].key
  }

  /* A mapping does not repeat a key. */
  ghost predicate WellKeyed(m: Document) { m.Stack? ==> DistinctKeys(m.services) }

  type Manifest = m: Document | WellKeyed(m) witness Malformed

  function Keys(services: seq<ServiceSpec>): set<string> { set s | s in services :: s.key }

  function ServiceKeys(m: Manifest): set<string> { if m.Stack? then Keys(m.services) else {} }

  // ---------- Marked services ----------

  /* The first entry under the label decides in a mapping; in a list, the text of an item does. */
  predicate Marked(s: ServiceSpec) {
    match s.labels
    case NoLabels => false
    case Mapping(entries) => MappingValue(entries, ROLLOUT_LABEL) == Some(SEQUENTIAL)
    case Listing(items) => (ROLLOUT_LABEL + "=" + SEQUENTIAL) in items
  }

  function MappingValue(entries: seq<(string, string)>, key: string): Option<string> {
    if entries == [] then None
    else if entries[0].0 == key then Some(entries[0].1)
    else MappingValue(entries[1..], key)
  }

  /* What the mark is, as a manifest's author writes it. */
  ghost predicate Sequential(labels: Labels) {
    match labels
    case NoLabels => false
    case Mapping(entries) => exists i ::
      && 0 <= i < |entries| && entries[i] == ("com.swarmcli.rollout", "sequential")
      && forall j :: 0 <= j < i ==> entries[j].0 != "com.swarmcli.rollout"
    case Listing(items) => "com.swarmcli.rollout=sequential" in items
  }

  lemma {:induction false} MappingValueIsFirst(entries: seq<(string, string)>, key: string, value: string)
    ensures MappingValue(entries, key) == Some(value) <==> exists i ::
      && 0 <= i < |entries| && entries[i] == (key, value)
      && forall j :: 0 <= j < i ==> entries[j].0 != key
  {
    if entries != [] {
      var rest := entries[1..];
      MappingValueIsFirst(rest, key, value);
      if i :| 0 <= i < |rest| && rest[i] == (key, value) && forall j :: 0 <= j < i ==> rest[j].0 != key {
        if entries[0].0 != key {
          assert entries[i + 1] == (key, value);
          assert forall j :: 1 <= j < i + 1 ==> entries[j] == rest[j - 1];
        }
      }
      if i :| 0 < i < |entries| && entries[i] == (key, value) && forall j :: 0 <= j < i ==> entries[j].0 != key {
        assert rest[i - 1] == (key, value);
        assert forall j :: 0 <= j < i - 1 ==> rest[j] == entries[j + 1];
      }
    }
  }

  lemma MarkedIsSequential(s: ServiceSpec)
    ensures Marked(s) <==> Sequential(s.labels)
  {
    match s.labels
    case NoLabels =>
    case Mapping(entries) => MappingValueIsFirst(entries, "com.swarmcli.rollout", "sequential");
    case Listing(items) => assert ROLLOUT_LABEL + "=" + SEQUENTIAL == "com.swarmcli.rollout=sequential";
  }

  function InsertSorted(names: seq<string>, x: string): seq<string> {
    if names == [] || Less(x, names[0]) then [x] + names
    else [names[0]] + InsertSorted(names[1..], x)
  }

  /* The keys of the marked services, sorted. */
  function MarkedKeys(services: seq<ServiceSpec>): seq<string> {
    if services == [] then []
    else
      var rest := MarkedKeys(services[1..]);
      if Marked(services[0]) then InsertSorted(rest, services[0].key) else rest
  }

  lemma {:induction false} InsertSortedElements(names: seq<string>, x: string)
    ensures multiset(InsertSorted(names, x)) == multiset(names) + multiset{x}
  {
    if names == [] || Less(x, names[0]) {
    } else {
      InsertSortedElements(names[1..], x);
      assert names == [names[0]] + names[1..];
    }
  }

  lemma InsertSortedMembers(names: seq<string>, x: string)
    ensures forall y :: y in InsertSorted(names, x) <==> y in names || y == x
  {
    InsertSortedElements(names, x);
    forall y ensures y in InsertSorted(names, x) <==> y in names || y == x {
      assert y in InsertSorted(names, x) <==> y in multiset(InsertSorted(names, x));
    }
  }

  lemma {:induction false} InsertSortedAscending(names: seq<string>, x: string)
    requires Ascending(names) && x !in names
    ensures Ascending(InsertSorted(names, x))
  {
    if names == [] {
    } else if Less(x, names[0]) {
      forall j | 0 < j < |names| ensures Less(x, names[j]) {
        LessTransitive(x, names[0], names[j]);
      }
    } else {
      InsertSortedAscending(names[1..], x);
      InsertSortedElements(names[1..], x);
      LessTotal(x, names[0]);
      var rest := InsertSorted(names[1..], x);
      forall n | n in rest ensures Less(names[0], n) {
        assert n in multiset(rest);
        assert n == x || n in names[1..];
      }
    }
  }

  /* Exactly the services labelled so, in strictly ascending order. */
  lemma {:induction false} MarkedKeysSorted(services: seq<ServiceSpec>)
    requires DistinctKeys(services)
    ensures Ascending(MarkedKeys(services))
    ensures forall key :: key in MarkedKeys(services) <==>
      exists s :: s in services && Sequential(s.labels) && s.key == key
  {
    hide Sequential;
    if services != [] {
      var rest := MarkedKeys(services[1..]);
      MarkedIsSequential(services[0]);
      MarkedKeysSorted(services[1..]);
      assert services == [services[0]] + services[1..];
      var x := services[0].key;
      if Marked(services[0]) {
        assert forall s :: s in services[1..] ==> s.key != x;
        InsertSortedAscending(rest, x);
        InsertSortedElements(rest, x);
        forall key ensures key in MarkedKeys(services) <==> key == x || key in rest {
          assert key in MarkedKeys(services) <==> key in multiset(MarkedKeys(services));
        }
      }
    }
  }

  // ---------- Partial manifests ----------

  function Dropping(services: seq<ServiceSpec>, drop: set<string>): seq<ServiceSpec> {
    if services == [] then []
    else (if services[0].key in drop then [] else [services[0]]) + Dropping(services[1..], drop)
  }

  lemma {:induction false} DroppingElements(services: seq<ServiceSpec>, drop: set<string>)
    ensures forall s :: s in Dropping(services, drop) <==> s in services && s.key !in drop
  {
    if services != [] {
      DroppingElements(services[1..], drop);
      assert services == [services[0]] + services[1..];
    }
  }

  lemma {:induction false} DroppingKeepsDistinct(services: seq<ServiceSpec>, drop: set<string>)
    requires DistinctKeys(services)
    ensures DistinctKeys(Dropping(services, drop))
  {
    if services != [] {
      DroppingKeepsDistinct(services[1..], drop);
      DroppingElements(services[1..], drop);
      var rest := Dropping(services[1..], drop);
      forall j | 0 <= j < |rest| ensures rest[j].key != services[0].key {
        assert rest[j] in rest;
      }
    }
  }

  /* The manifest with the named services left out and everything else as it was. */
  function Without(m: Manifest, drop: set<string>): Manifest {
    match m
    case Stack(services, rest) => DroppingKeepsDistinct(services, drop); Stack(Dropping(services, drop), rest)
    case _ => m
  }

  /* What the loop over the services leaves out, and how many it keeps. */
  method WithoutServices(m: Manifest, drop: set<string>) returns (ok: bool, out: Manifest, kept: nat)
    ensures ok == !m.Malformed?
    ensures ok ==> out == Without(m, drop) && kept == |ServiceKeys(out)|
  {
    if m.Malformed? {
      return false, m, 0;
    }
    if m.Serviceless? {
      return true, m, 0;
    }
    var services: seq<ServiceSpec> := [];
    for i := 0 to |m.services|
      invariant services + Dropping(m.services[i..], drop) == Dropping(m.services, drop)
    {
      assert m.services[i..][1..] == m.services[i + 1..];
      if m.services[i].key !in drop {
        services := services + [m.services[i]];
      }
    }
    assert services == Dropping(m.services, drop);
    DroppingKeepsDistinct(m.services, drop);
    KeysOfDistinct(services);
    return true, Stack(services, m.rest), |services|;
  }

  lemma {:induction false} KeysOfDistinct(services: seq<ServiceSpec>)
    requires DistinctKeys(services)
    ensures |Keys(services)| == |services|
  {
    if services == [] {
      assert Keys(services) == {};
    } else {
      var x := services[0].key;
      KeysOfDistinct(services[1..]);
      assert services == [services[0]] + services[1..];
      assert Keys(services) == {x} + Keys(services[1..]);
      assert x !in Keys(services[1..]);
    }
  }

  lemma WithoutKeys(m: Manifest, drop: set<string>)
    ensures ServiceKeys(Without(m, drop)) == ServiceKeys(m) - drop
  {
    if m.Stack? {
      DroppingElements(m.services, drop);
      var out := Dropping(m.services, drop);
      forall key | key in Keys(m.services) - drop ensures key in Keys(out) {
        var s :| s in m.services && s.key == key;
        assert s in out;
      }
    }
  }

  lemma {:induction false} DroppingNothing(services: seq<ServiceSpec>)
    ensures Dropping(services, {}) == services
  {
    if services != [] {
      DroppingNothing(services[1..]);
    }
  }

  lemma WithoutNothing(m: Manifest)
    ensures Without(m, {}) == m
  {
    if m.Stack? {
      DroppingNothing(m.services);
    }
  }

  /* What a manifest says about each service, by key. */
  function Entries(services: seq<ServiceSpec>): map<string, ServiceSpec> {
    if services == [] then map[] else Entries(services[1..])[services[0].key := services[0]]
  }

  function Specs(m: Manifest): map<string, ServiceSpec> { if m.Stack? then Entries(m.services) else map[] }

  lemma {:induction false} EntriesOf(services: seq<ServiceSpec>)
    requires DistinctKeys(services)
    ensures Entries(services).Keys == Keys(services)
    ensures forall s :: s in services ==> Entries(services)[s.key] == s
  {
    if services != [] {
      EntriesOf(services[1..]);
      assert services == [services[0]] + services[1..];
    }
  }

  /* A partial manifest says of the services it keeps just what the whole one says. */
  lemma WithoutSpecs(m: Manifest, drop: set<string>)
    ensures Specs(Without(m, drop)) == Specs(m) - drop
    ensures Specs(m).Keys == ServiceKeys(m)
  {
    WithoutKeys(m, drop);
    if m.Stack? {
      EntriesOf(m.services);
      DroppingElements(m.services, drop);
      DroppingKeepsDistinct(m.services, drop);
      EntriesOf(Dropping(m.services, drop));
    }
  }

  // ---------- Held services ----------

  function SwarmName(release: string, key: string): string { release + "_" + key }

  predicate IsUp(s: ServiceState) { s.desired > 0 && s.running >= s.desired }

  predicate IsStarting(s: ServiceState) { !IsUp(s) && s.desired > 0 && s.running + s.starting >= s.desired }

  predicate Up(states: seq<ServiceState>, release: string, key: string) {
    exists s :: s in states && s.name == SwarmName(release, key) && IsUp(s)
  }

  predicate Rising(states: seq<ServiceState>, release: string, key: string) {
    exists s :: s in states && s.name == SwarmName(release, key) && IsStarting(s)
  }

  predicate AnyUp(states: seq<ServiceState>, release: string, marked: seq<string>) {
    exists key :: key in marked && Up(states, release, key)
  }

  /* A marked service is held when it is up, or on its way up while another marked one is up. */
  predicate IsHeld(states: seq<ServiceState>, release: string, marked: seq<string>, key: string) {
    Up(states, release, key) || (AnyUp(states, release, marked) && Rising(states, release, key))
  }

  function HeldAmong(states: seq<ServiceState>, release: string, marked: seq<string>, keys: seq<string>): seq<string> {
    if keys == [] then []
    else
      var first := if IsHeld(states, release, marked, keys[0]) then [keys[0]] else [];
      first + HeldAmong(states, release, marked, keys[1..])
  }

  /* The services a deploy must not update together, in the order they will be rolled. */
  function HeldKeys(states: seq<ServiceState>, release: string, marked: seq<string>): seq<string> {
    HeldAmong(states, release, marked, marked)
  }

  lemma {:induction false} HeldAmongElements(
    states: seq<ServiceState>, release: string, marked: seq<string>, keys: seq<string>)
    ensures forall key :: key in HeldAmong(states, release, marked, keys) <==>
      key in keys && IsHeld(states, release, marked, key)
    ensures Ascending(keys) ==> Ascending(HeldAmong(states, release, marked, keys))
  {
    if keys != [] {
      HeldAmongElements(states, release, marked, keys[1..]);
      assert keys == [keys[0]] + keys[1..];
      var rest := HeldAmong(states, release, marked, keys[1..]);
      if Ascending(keys) {
        assert forall i, j :: 0 <= i < j < |keys[1..]| ==> Less(keys[1..][i], keys[1..][j]);
        forall j | 0 <= j < |rest| ensures Less(keys[0], rest[j]) {
          assert rest[j] in keys[1..];
        }
      }
    }
  }

  /* With none of the marked services up, none is held: a full stop can recover. */
  lemma HeldOnlyWhileOneIsUp(states: seq<ServiceState>, release: string, marked: seq<string>)
    ensures (exists key :: key in HeldKeys(states, release, marked)) <==> AnyUp(states, release, marked)
  {
    HeldAmongElements(states, release, marked, marked);
    if AnyUp(states, release, marked) {
      var key :| key in marked && Up(states, release, key);
      assert key in HeldKeys(states, release, marked);
    }
  }
}
