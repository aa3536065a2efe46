/** What "one at a time" means (charts/rollout.go): over the polls and deploys a run makes, which services
    are between being handed a new definition and being seen settled. */
module Flights {
  import opened Text
  import opened Tasks
  import opened Manifests
  import opened Releases
  import opened Phase
  import opened Backends

  /* A service before it is handed its new definition, with when its last update started as last seen;
     handed it but not yet seen settled; and settled. */
  datatype Flight = Waiting(seen: Time) | Flying(before: Time) | Landed

  /* The first state of that name. */
  function Find(states: seq<ServiceState>, name: string): Option<ServiceState> {
    if states == [] then None
    else if states[0].name == name then Some(states[0])
    else Find(states[1..], name)
  }

  function StartedAt(st: Option<ServiceState>): Time { if st.Some? then st.value.updateStartedAt else 0 }

  /* The monitor window of the first polled state that shows a service changed: by how much a wait for
     it is extended. */
  ghost function FirstMonitor(events: seq<Event>, name: string): Option<int> {
    if events == [] then None
    else
      var f := FirstMonitor(events[..|events| - 1], name);
      if f.Some? then f else MonitorIn(events[|events| - 1], name)
  }

  ghost function MonitorIn(e: Event, name: string): Option<int> {
    if e.Polled? && Find(e.states, name).Some? && Find(e.states, name).value.taskSpecChanged then
      Some(Find(e.states, name).value.monitor)
    else None
  }

  lemma FirstMonitorNext(events: seq<Event>, e: Event, name: string)
    ensures FirstMonitor(events + [e], name)
         == if FirstMonitor(events, name).Some? then FirstMonitor(events, name) else MonitorIn(e, name)
  {
    assert (events + [e])[..|events|] == events;
  }

  /* A poll settles a service when its task spec did not change, or when an update newer than the one
     before the deploy has converged. */
  predicate Settles(st: Option<ServiceState>, before: Time) {
    st.Some? && (!st.value.taskSpecChanged
                 || (st.value.updateStartedAt > before && Finished(st.value)))
  }

  function AfterPoll(f: Flight, st: Option<ServiceState>): Flight {
    match f
    case Waiting(_) => Waiting(StartedAt(st))
    case Flying(before) => if Settles(st, before) then Landed else f
    case Landed => Landed
  }

  function Step(f: Flight, e: Event, release: string, key: string): Flight {
    match e
    case Polled(r, states) =>
      if r == release then AfterPoll(f, Find(states, SwarmName(release, key))) else f
    case Handed(r, m, _, _) =>
      if r == release && key in ServiceKeys(m) && f.Waiting? then Flying(f.seen) else f
  }

  function FlightAfter(events: seq<Event>, release: string, key: string): Flight {
    if events == [] then Waiting(0)
    else Step(FlightAfter(events[..|events| - 1], release, key), events[|events| - 1], release, key)
  }

  lemma FlightNext(events: seq<Event>, e: Event, release: string, key: string)
    ensures FlightAfter(events + [e], release, key) == Step(FlightAfter(events, release, key), e, release, key)
  {
    assert (events + [e])[..|events|] == events;
  }

  lemma FlightsNext(events: seq<Event>, e: Event, release: string, held: seq<string>)
    ensures forall j {:trigger held[j]} :: 0 <= j < |held| ==>
      FlightAfter(events + [e], release, held[j]) == Step(FlightAfter(events, release, held[j]), e, release, held[j])
  {
    forall j | 0 <= j < |held|
      ensures FlightAfter(events + [e], release, held[j])
        == Step(FlightAfter(events, release, held[j]), e, release, held[j])
    {
      FlightNext(events, e, release, held[j]);
    }
  }

  ghost predicate AtMostOneFlying(events: seq<Event>, release: string, held: seq<string>) {
    forall j, k {:trigger FlightAfter(events, release, j), FlightAfter(events, release, k)} ::
      j in held && k in held && FlightAfter(events, release, j).Flying? && FlightAfter(events, release, k).Flying?
      ==> j == k
  }

  /* At no moment of a run are two of the held services both in flight. */
  ghost predicate OneAtATime(events: seq<Event>, release: string, held: seq<string>) {
    forall n {:trigger events[..n]} :: 0 <= n <= |events| ==> AtMostOneFlying(events[..n], release, held)
  }

  lemma OneAtATimeNext(events: seq<Event>, e: Event, release: string, held: seq<string>)
    requires OneAtATime(events, release, held) && AtMostOneFlying(events + [e], release, held)
    ensures OneAtATime(events + [e], release, held)
  {
    var more := events + [e];
    forall n | 0 <= n <= |more| ensures AtMostOneFlying(more[..n], release, held) {
      if n == |more| {
        assert more[..n] == more;
      } else {
        assert more[..n] == events[..n];
      }
    }
  }

  /* Between two deploys: the first i held services have settled, the others have not been touched. */
  ghost predicate Between(events: seq<Event>, release: string, held: seq<string>, i: nat) {
    && i <= |held|
    && (forall j :: 0 <= j < i ==> FlightAfter(events, release, held[j]) == Landed)
    && (forall j :: i <= j < |held| ==> FlightAfter(events, release, held[j]).Waiting?)
  }

  /* After the deploy that adds held service i, until it settles. */
  ghost predicate Rolling(events: seq<Event>, release: string, held: seq<string>, i: nat, before: Time) {
    && i < |held|
    && (forall j :: 0 <= j < i ==> FlightAfter(events, release, held[j]) == Landed)
    && FlightAfter(events, release, held[i]) == Flying(before)
    && (forall j :: i < j < |held| ==> FlightAfter(events, release, held[j]).Waiting?)
  }

  ghost predicate InFlight(events: seq<Event>, release: string, held: seq<string>, i: nat) {
    && i < |held|
    && FlightAfter(events, release, held[i]).Flying?
    && Rolling(events, release, held, i, FlightAfter(events, release, held[i]).before)
  }

  lemma BetweenStart(release: string, held: seq<string>)
    ensures Between([], release, held, 0) && OneAtATime([], release, held)
  {
  }

  /* A poll lands the service in flight or leaves it there, and touches no other. */
  lemma PollWhileRolling(
    events: seq<Event>, states: seq<ServiceState>, release: string, held: seq<string>, i: nat, before: Time)
    requires Rolling(events, release, held, i, before) && OneAtATime(events, release, held)
    ensures var after := events + [Polled(release, states)];
            && OneAtATime(after, release, held)
            && if Settles(Find(states, SwarmName(release, held[i])), before)
               then Between(after, release, held, i + 1) else Rolling(after, release, held, i, before)
  {
    var e := Polled(release, states);
    FlightsNext(events, e, release, held);
    OneAtATimeNext(events, e, release, held);
  }

  lemma PollBetween(events: seq<Event>, states: seq<ServiceState>, release: string, held: seq<string>, i: nat)
    requires Between(events, release, held, i) && OneAtATime(events, release, held)
    ensures var after := events + [Polled(release, states)];
            && OneAtATime(after, release, held)
            && Between(after, release, held, i)
            && (i < |held| ==>
                  FlightAfter(after, release, held[i]) == Waiting(StartedAt(Find(states, SwarmName(release, held[i])))))
  {
    var e := Polled(release, states);
    FlightsNext(events, e, release, held);
    OneAtATimeNext(events, e, release, held);
  }

  /* A deploy that names held service i and none after it sends that one, and only that one, flying. */
  lemma HandOne(
    events: seq<Event>, m: Manifest, files: Files, ok: bool, release: string, held: seq<string>, i: nat, seen: Time)
    requires Between(events, release, held, i) && OneAtATime(events, release, held)
    requires i < |held| && FlightAfter(events, release, held[i]) == Waiting(seen)
    requires held[i] in ServiceKeys(m) && forall j :: i < j < |held| ==> held[j] !in ServiceKeys(m)
    ensures Rolling(events + [Handed(release, m, files, ok)], release, held, i, seen)
    ensures OneAtATime(events + [Handed(release, m, files, ok)], release, held)
  {
    var e := Handed(release, m, files, ok);
    FlightsNext(events, e, release, held);
    OneAtATimeNext(events, e, release, held);
  }

  /* A deploy that names none of them sends none flying. */
  lemma HandNone(events: seq<Event>, m: Manifest, files: Files, ok: bool, release: string, held: seq<string>)
    requires Between(events, release, held, 0) && OneAtATime(events, release, held)
    requires forall j :: 0 <= j < |held| ==> held[j] !in ServiceKeys(m)
    ensures Between(events + [Handed(release, m, files, ok)], release, held, 0)
    ensures OneAtATime(events + [Handed(release, m, files, ok)], release, held)
  {
    var e := Handed(release, m, files, ok);
    FlightsNext(events, e, release, held);
    OneAtATimeNext(events, e, release, held);
  }

  // ---------- The chain of deploys ----------

  ghost function Tail(held: seq<string>, i: nat): set<string>
    requires i <= |held|
  {
    set k | k in held[i..]
  }

  /* The manifest without the held services still to come after the first i. */
  ghost function Stage(m: Manifest, held: seq<string>, i: nat): Manifest
    requires i <= |held|
  {
    Without(m, Tail(held, i))
  }

  /* Each deploy adds exactly one held service to the one before, with the definition the whole
     manifest gives it, and the last is the whole manifest. */
  lemma StageGrows(m: Manifest, held: seq<string>, i: nat)
    requires i < |held| && held[i] in Specs(m) && forall j :: i < j < |held| ==> held[j] != held[i]
    ensures Specs(Stage(m, held, i + 1)) == Specs(Stage(m, held, i))[held[i] := Specs(m)[held[i]]]
    ensures held[i] !in Specs(Stage(m, held, i))
    ensures Stage(m, held, |held|) == m
  {
    WithoutSpecs(m, Tail(held, i));
    WithoutSpecs(m, Tail(held, i + 1));
    TailStep(held, i);
    assert held[i] !in held[i + 1..];
    LastStage(m, held);
  }

  lemma TailStep(held: seq<string>, i: nat)
    requires i < |held|
    ensures Tail(held, i) == Tail(held, i + 1) + {held[i]}
  {
    assert held[i..] == [held[i]] + held[i + 1..];
  }

  lemma LastStage(m: Manifest, held: seq<string>)
    ensures Tail(held, |held|) == {} && Stage(m, held, |held|) == m
  {
    WithoutNothing(m);
  }

  ghost function Stages(m: Manifest, held: seq<string>, first: nat, last: nat): seq<Manifest>
    requires first <= last <= |held|
  {
    seq<Manifest>(last - first + 1, i requires 0 <= i <= last - first => Stage(m, held, first + i))
  }

  /* The manifests a run handed to a release, in order. */
  ghost function HandedTo(events: seq<Event>, release: string): seq<Manifest> {
    if events == [] then []
    else
      var last := events[|events| - 1];
      HandedTo(events[..|events| - 1], release) + HandedBy(last, release)
  }

  ghost function HandedBy(e: Event, release: string): seq<Manifest> {
    match e
    case Handed(r, m, _, _) => if r == release then [m] else []
    case Polled(_, _) => []
  }

  lemma HandedNext(events: seq<Event>, e: Event, release: string)
    ensures HandedTo(events + [e], release)
         == HandedTo(events, release) + HandedBy(e, release)
  {
    assert (events + [e])[..|events|] == events;
  }

  /* Everything handed over was this release's, with its own files. */
  ghost predicate HandsOnly(events: seq<Event>, rel: Release) {
    forall i {:trigger events[i]} :: 0 <= i < |events| ==> HandsAs(events[i], rel)
  }

  ghost predicate HandsAs(e: Event, rel: Release) { e.Handed? ==> e.release == rel.name && e.files == rel.files }

  lemma HandsOnlyNext(events: seq<Event>, e: Event, rel: Release)
    requires HandsOnly(events, rel) && HandsAs(e, rel)
    ensures HandsOnly(events + [e], rel)
  {
  }

  lemma StagesNext(m: Manifest, held: seq<string>, first: nat, last: nat)
    requires first <= last < |held|
    ensures Stages(m, held, first, last + 1) == Stages(m, held, first, last) + [Stage(m, held, last + 1)]
  {
  }

  // ---------- Definitions ----------

  /* Every service of the manifest but the pending ones has its new definition; the pending ones, and
     those the manifest does not name, have the definition they had. */
  ghost predicate Staged(
    before: map<string, Definitions>, after: map<string, Definitions>, release: string, m: Manifest,
    pending: set<string>)
  {
    forall key {:trigger Definition(after, release, key)} ::
      Definition(after, release, key) ==
        if key in Specs(m) && key !in pending then Some(Specs(m)[key]) else Definition(before, release, key)
  }

  /* The same, but for one service of which it is not known whether it has its new definition. */
  ghost predicate StagedBut(
    before: map<string, Definitions>, after: map<string, Definitions>, release: string, m: Manifest,
    pending: set<string>, torn: string)
  {
    forall key {:trigger Definition(after, release, key)} ::
      || Definition(after, release, key) ==
           (if key in Specs(m) && key !in pending then Some(Specs(m)[key]) else Definition(before, release, key))
      || (key == torn && Definition(after, release, key) == Definition(before, release, key))
  }

  /* Deploying the next stage on top of the last moves exactly one service to its new definition. */
  lemma StagedNext(
    start: map<string, Definitions>, before: map<string, Definitions>, after: map<string, Definitions>,
    release: string, m: Manifest, held: seq<string>, i: nat, ok: bool)
    requires i < |held| && Staged(start, before, release, m, Tail(held, i))
    requires DeployedTo(before, after, release, Stage(m, held, i + 1), ok, true)
    ensures ok ==> Staged(start, after, release, m, Tail(held, i + 1))
    ensures !ok ==> StagedBut(start, after, release, m, Tail(held, i + 1), held[i])
  {
    WithoutSpecs(m, Tail(held, i + 1));
    TailStep(held, i);
  }

  /* And the first deploy, of the manifest without the pending services, moves all the others. */
  lemma StagedFirst(
    before: map<string, Definitions>, after: map<string, Definitions>, release: string, m: Manifest,
    pending: set<string>)
    requires DeployedTo(before, after, release, Without(m, pending), true, true)
    ensures Staged(before, after, release, m, pending)
  {
    WithoutSpecs(m, pending);
  }
}
