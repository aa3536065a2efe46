/** The staged deploy of one revision (charts/release.go, charts/rollout.go): a first deploy without the
    held services, then the held services one at a time. */
module Deploys {
  import opened Text
  import opened Tasks
  import opened Manifests
  import opened Releases
  import opened Phase
  import opened Backends
  import opened Flights
  import opened Rollout
  import opened Waiting

  datatype Start = NotAttempted | FirstRejected | FirstAccepted

  /* The services a run must not update together, read off its first event. */
  ghost predicate HeldBy(events: seq<Event>, rel: Release, preserves: bool, held: seq<string>) {
    if !preserves || !rel.manifest.Stack? || MarkedKeys(rel.manifest.services) == [] then held == []
    else
      && events != [] && events[0].Polled? && events[0].release == rel.name
      && held == HeldKeys(events[0].states, rel.name, MarkedKeys(rel.manifest.services))
  }

  /* When every service is held the first deploy carries the first of them. */
  ghost function FirstCount(m: Manifest, held: seq<string>): (n: nat)
    ensures n <= |held|
  {
    if held != [] && ServiceKeys(m) - Tail(held, 0) == {} then 1 else 0
  }

  lemma HeldRollable(m: Manifest, release: string, states: seq<ServiceState>)
    requires m.Stack?
    ensures Rollable(m, HeldKeys(states, release, MarkedKeys(m.services)))
  {
    var marked := MarkedKeys(m.services);
    var held := HeldKeys(states, release, marked);
    MarkedKeysSorted(m.services);
    HeldAmongElements(states, release, marked, marked);
    WithoutSpecs(m, {});
    forall i, j | 0 <= i < j < |held| ensures held[i] != held[j] {
      if held[i] == held[j] { LessAsymmetric(held[i], held[j]); }
    }
    forall k | k in held ensures k in Specs(m) {
      var s :| s in m.services && Sequential(s.labels) && s.key == k;
    }
  }

  /* What the first deploy of a run leaves, once it was accepted. */
  ghost predicate Started(
    trace: seq<Event>, stacks: map<string, Definitions>, rel: Release, from: nat, start: map<string, Definitions>,
    all: seq<string>, held: seq<string>, leading: Option<string>, before: Time)
    requires from <= |trace|
  {
    match leading
    case None => held == all && RolledUpTo(trace, stacks, rel, from, start, all, 0, 0)
    case Some(key) =>
      && all != [] && key == all[0] && held == all[1..]
      && StoppedAt(trace, stacks, rel, from, start, all, 1, 1, true)
      && Rolling(Since(trace, from), rel.name, all, 0, before)
  }

  /* A deploy of the whole manifest at once. */
  ghost predicate AtOnce(
    trace: seq<Event>, stacks: map<string, Definitions>, rel: Release, from: nat, start: map<string, Definitions>,
    accepted: bool, preserves: bool)
    requires from <= |trace|
  {
    && HandedTo(Since(trace, from), rel.name) == [rel.manifest]
    && HandsOnly(Since(trace, from), rel)
    && DeployedTo(start, stacks, rel.name, rel.manifest, accepted, preserves)
  }

  /* A run that has decided what to hold back and has deployed nothing yet. */
  ghost predicate CanStart(trace: seq<Event>, rel: Release, from: nat, preserves: bool, all: seq<string>)
    requires from <= |trace|
  {
    && Rollable(rel.manifest, all) && HeldBy(Since(trace, from), rel, preserves, all)
    && OneAtATime(Since(trace, from), rel.name, all) && Between(Since(trace, from), rel.name, all, 0)
    && HandedTo(Since(trace, from), rel.name) == [] && HandsOnly(Since(trace, from), rel)
    && (all != [] ==> preserves && rel.manifest.Stack?)
  }

  /* And one that has made, or tried to make, its first deploy. */
  ghost predicate Begun(
    r: Start, trace: seq<Event>, stacks: map<string, Definitions>, rel: Release, from: nat,
    start: map<string, Definitions>, preserves: bool, all: seq<string>, held: seq<string>, leading: Option<string>,
    before: Time)
    requires from <= |trace|
  {
    && Rollable(rel.manifest, all) && HeldBy(Since(trace, from), rel, preserves, all)
    && OneAtATime(Since(trace, from), rel.name, all) && HandsOnly(Since(trace, from), rel)
    && match r
       case NotAttempted =>
         preserves && rel.manifest.Malformed? && stacks == start && HandedTo(Since(trace, from), rel.name) == []
       case FirstRejected =>
         var first := Stage(rel.manifest, all, FirstCount(rel.manifest, all));
         && HandedTo(Since(trace, from), rel.name) == [first]
         && DeployedTo(start, stacks, rel.name, first, false, preserves)
       case FirstAccepted =>
         if all == [] then held == [] && leading == None && AtOnce(trace, stacks, rel, from, start, true, preserves)
         else
           && preserves && leading.Some? == (FirstCount(rel.manifest, all) == 1)
           && Started(trace, stacks, rel, from, start, all, held, leading, before)
  }

  lemma HeldByStays(events: seq<Event>, more: seq<Event>, rel: Release, preserves: bool, all: seq<string>)
    requires HeldBy(events, rel, preserves, all) && events <= more
    ensures HeldBy(more, rel, preserves, all)
  {
  }

  lemma QuietStart(trace: seq<Event>, rel: Release, preserves: bool)
    requires !preserves || !rel.manifest.Stack? || MarkedKeys(rel.manifest.services) == []
    ensures CanStart(trace, rel, |trace|, preserves, [])
  {
    assert Since(trace, |trace|) == [];
  }

  lemma PolledStart(trace: seq<Event>, rel: Release, preserves: bool, states: seq<ServiceState>)
    requires preserves && rel.manifest.Stack? && MarkedKeys(rel.manifest.services) != []
    ensures CanStart(trace + [Polled(rel.name, states)], rel, |trace|, preserves,
                     HeldKeys(states, rel.name, MarkedKeys(rel.manifest.services)))
  {
    var all, e := HeldKeys(states, rel.name, MarkedKeys(rel.manifest.services)), Polled(rel.name, states);
    assert Since(trace, |trace|) == [] && [] + [e] == [e];
    SinceNext(trace, |trace|, e);
    HeldRollable(rel.manifest, rel.name, states);
    BetweenStart(rel.name, all);
    PollBetween([], states, rel.name, all, 0);
    HandedNext([], e, rel.name);
  }

  /* Decides what to hold back and makes the first deploy. */
  method FirstDeploy(b: Backend, rel: Release)
    returns (r: Start, held: seq<string>, leading: Option<string>, before: Time, ghost all: seq<string>)
    modifies b`clock, b`trace, b`stacks
    ensures b.clock >= old(b.clock) && old(b.trace) <= b.trace
    ensures r == NotAttempted <==> b.preserves && rel.manifest.Malformed?
    ensures Begun(r, b.trace, b.stacks, rel, |old(b.trace)|, old(b.stacks), b.preserves, all, held, leading, before)
  {
    ghost var from, quiet := |b.trace|, b.trace;
    var plan, states := HeldForRollout(b, rel);
    if b.trace == quiet {
      QuietStart(quiet, rel, b.preserves);
    } else {
      PolledStart(quiet, rel, b.preserves, states);
    }
    held, leading, before, all := [], None, 0, [];
    if plan.None? {
      r := NotAttempted;
    } else if plan.value == [] {
      r := HandWhole(b, rel, from);
    } else {
      all := plan.value;
      r, held, leading, before := FirstOfHeld(b, rel, plan.value, from);
    }
  }

  /* With nothing held, the first deploy is the whole manifest. */
  method HandWhole(b: Backend, rel: Release, ghost from: nat) returns (r: Start)
    requires from <= |b.trace| && CanStart(b.trace, rel, from, b.preserves, [])
    modifies b`clock, b`trace, b`stacks
    ensures b.clock >= old(b.clock) && old(b.trace) <= b.trace && r != NotAttempted
    ensures Begun(r, b.trace, b.stacks, rel, from, old(b.stacks), b.preserves, [], [], None, 0)
  {
    ghost var events := Since(b.trace, from);
    var accepted := b.DeployStack(rel.name, rel.manifest, rel.files);
    ghost var e := Handed(rel.name, rel.manifest, rel.files, accepted);
    SinceNext(old(b.trace), from, e);
    HandedNext(events, e, rel.name);
    HandsOnlyNext(events, e, rel);
    HeldByStays(events, events + [e], rel, b.preserves, []);
    LastStage(rel.manifest, []);
    r := if accepted then FirstAccepted else FirstRejected;
  }

  /* The manifest of a first deploy: without the held services, or with the first of them when that
     would leave none. */
  method FirstManifest(m: Manifest, all: seq<string>) returns (first: Manifest, leads: bool)
    requires m.Stack? && all != [] && Rollable(m, all)
    ensures leads == (FirstCount(m, all) == 1) && first == Stage(m, all, FirstCount(m, all))
  {
    var drop := set k | k in all;
    assert drop == Tail(all, 0);
    var parsed, without, kept := WithoutServices(m, drop);
    WithoutKeys(m, drop);
    leads := kept == 0;
    first := without;
    if leads {
      NextPending(all, 0);
      parsed, first, kept := WithoutServices(m, drop - {all[0]});
    }
  }

  /* The first deploy of a run that holds services back. */
  method FirstOfHeld(b: Backend, rel: Release, all: seq<string>, ghost from: nat)
    returns (r: Start, held: seq<string>, leading: Option<string>, before: Time)
    requires from <= |b.trace| && CanStart(b.trace, rel, from, b.preserves, all) && all != []
    modifies b`clock, b`trace, b`stacks
    ensures b.clock >= old(b.clock) && old(b.trace) <= b.trace && r != NotAttempted
    ensures Begun(r, b.trace, b.stacks, rel, from, old(b.stacks), b.preserves, all, held, leading, before)
  {
    var first, leads := FirstManifest(rel.manifest, all);
    if leads {
      held, leading := all[1..], Some(all[0]);
      r, before := HandLeading(b, rel, first, all, from);
    } else {
      held, leading, before := all, None, 0;
      r := HandRest(b, rel, first, all, from);
    }
  }

  /* When every service is held, the first of them leads. */
  method HandLeading(b: Backend, rel: Release, first: Manifest, all: seq<string>, ghost from: nat)
    returns (r: Start, before: Time)
    requires from <= |b.trace| && CanStart(b.trace, rel, from, b.preserves, all)
    requires all != [] && FirstCount(rel.manifest, all) == 1 && first == Stage(rel.manifest, all, 1)
    modifies b`clock, b`trace, b`stacks
    ensures b.clock >= old(b.clock) && old(b.trace) <= b.trace && r != NotAttempted
    ensures Begun(r, b.trace, b.stacks, rel, from, old(b.stacks), b.preserves, all, all[1..], Some(all[0]), before)
  {
    ghost var events, trace := Since(b.trace, from), b.trace;
    var st, states := ServiceStateOf(b, rel.name, SwarmName(rel.name, all[0]));
    ghost var e := Polled(rel.name, states);
    SinceNext(trace, from, e);
    PollBetween(events, states, rel.name, all, 0);
    HandedNext(events, e, rel.name);
    HandsOnlyNext(events, e, rel);
    HeldByStays(events, events + [e], rel, b.preserves, all);
    before := StartedAt(st);
    r := HandTheLeading(b, rel, first, all, before, from);
  }

  method HandTheLeading(b: Backend, rel: Release, first: Manifest, all: seq<string>, before: Time, ghost from: nat)
    returns (r: Start)
    requires from <= |b.trace| && CanStart(b.trace, rel, from, b.preserves, all)
    requires all != [] && FirstCount(rel.manifest, all) == 1 && first == Stage(rel.manifest, all, 1)
    requires FlightAfter(Since(b.trace, from), rel.name, all[0]) == Waiting(before)
    modifies b`clock, b`trace, b`stacks
    ensures b.clock >= old(b.clock) && old(b.trace) <= b.trace && r != NotAttempted
    ensures Begun(r, b.trace, b.stacks, rel, from, old(b.stacks), b.preserves, all, all[1..], Some(all[0]), before)
  {
    ghost var events := Since(b.trace, from);
    var accepted := b.DeployStack(rel.name, first, rel.files);
    SinceNext(old(b.trace), from, Handed(rel.name, first, rel.files, accepted));
    LeadingHanded(events, rel, first, all, before, accepted, b.preserves);
    r := if accepted then FirstAccepted else FirstRejected;
    LeadingBegun(r, b.trace, b.stacks, rel, from, old(b.stacks), b.preserves, all, before, first);
  }

  lemma LeadingHanded(
    events: seq<Event>, rel: Release, first: Manifest, all: seq<string>, before: Time, accepted: bool, preserves: bool)
    requires all != [] && Rollable(rel.manifest, all) && first == Stage(rel.manifest, all, 1)
    requires HeldBy(events, rel, preserves, all)
    requires OneAtATime(events, rel.name, all) && Between(events, rel.name, all, 0)
    requires HandedTo(events, rel.name) == [] && HandsOnly(events, rel)
    requires FlightAfter(events, rel.name, all[0]) == Waiting(before)
    ensures var more := events + [Handed(rel.name, first, rel.files, accepted)];
            && HeldBy(more, rel, preserves, all)
            && OneAtATime(more, rel.name, all) && Rolling(more, rel.name, all, 0, before)
            && HandedTo(more, rel.name) == [first] && HandsOnly(more, rel)
  {
    var h := Handed(rel.name, first, rel.files, accepted);
    StageKeys(rel.manifest, all, 0);
    HandOne(events, first, rel.files, accepted, rel.name, all, 0, before);
    HandedNext(events, h, rel.name);
    HandsOnlyNext(events, h, rel);
    HeldByStays(events, events + [h], rel, preserves, all);
    assert [] + [first] == [first];
  }

  lemma LeadingBegun(
    r: Start, trace: seq<Event>, stacks: map<string, Definitions>, rel: Release, from: nat,
    start: map<string, Definitions>, preserves: bool, all: seq<string>, before: Time, first: Manifest)
    requires preserves && r != NotAttempted
    requires from <= |trace| && Rollable(rel.manifest, all) && HeldBy(Since(trace, from), rel, preserves, all)
    requires OneAtATime(Since(trace, from), rel.name, all) && HandsOnly(Since(trace, from), rel)
    requires Rolling(Since(trace, from), rel.name, all, 0, before) && HandedTo(Since(trace, from), rel.name) == [first]
    requires FirstCount(rel.manifest, all) == 1 && first == Stage(rel.manifest, all, 1)
    requires DeployedTo(start, stacks, rel.name, first, r == FirstAccepted, preserves)
    ensures Begun(r, trace, stacks, rel, from, start, preserves, all, all[1..], Some(all[0]), before)
  {
    if r == FirstAccepted {
      StagedFirst(start, stacks, rel.name, rel.manifest, Tail(all, 1));
      assert Stages(rel.manifest, all, 1, 1) == [first];
    }
  }

  method HandRest(b: Backend, rel: Release, first: Manifest, all: seq<string>, ghost from: nat) returns (r: Start)
    requires from <= |b.trace| && CanStart(b.trace, rel, from, b.preserves, all)
    requires all != [] && FirstCount(rel.manifest, all) == 0 && first == Stage(rel.manifest, all, 0)
    modifies b`clock, b`trace, b`stacks
    ensures b.clock >= old(b.clock) && old(b.trace) <= b.trace && r != NotAttempted
    ensures Begun(r, b.trace, b.stacks, rel, from, old(b.stacks), b.preserves, all, all, None, 0)
  {
    ghost var events := Since(b.trace, from);
    var accepted := b.DeployStack(rel.name, first, rel.files);
    ghost var h := Handed(rel.name, first, rel.files, accepted);
    SinceNext(old(b.trace), from, h);
    WithoutKeys(rel.manifest, Tail(all, 0));
    HandNone(events, first, rel.files, accepted, rel.name, all);
    HandedNext(events, h, rel.name);
    HandsOnlyNext(events, h, rel);
    HeldByStays(events, events + [h], rel, b.preserves, all);
    if accepted {
      StagedFirst(old(b.stacks), b.stacks, rel.name, rel.manifest, Tail(all, 0));
      assert Stages(rel.manifest, all, 0, 0) == [first];
    }
    r := if accepted then FirstAccepted else FirstRejected;
  }

  /* A run whose first deploy was accepted and that has done no more. */
  ghost predicate Launched(
    trace: seq<Event>, stacks: map<string, Definitions>, rel: Release, from: nat, start: map<string, Definitions>,
    preserves: bool, all: seq<string>)
    requires from <= |trace|
  {
    && HeldBy(Since(trace, from), rel, preserves, all)
    && if all == [] then AtOnce(trace, stacks, rel, from, start, true, preserves)
       else if FirstCount(rel.manifest, all) == 1 then StoppedAt(trace, stacks, rel, from, start, all, 1, 1, true)
       else RolledUpTo(trace, stacks, rel, from, start, all, 0, 0)
  }

  lemma BegunIsLaunched(
    trace: seq<Event>, stacks: map<string, Definitions>, rel: Release, from: nat, start: map<string, Definitions>,
    preserves: bool, all: seq<string>, held: seq<string>, leading: Option<string>, before: Time)
    requires from <= |trace|
    requires Begun(FirstAccepted, trace, stacks, rel, from, start, preserves, all, held, leading, before)
    ensures Launched(trace, stacks, rel, from, start, preserves, all)
    ensures OneAtATime(Since(trace, from), rel.name, all) && HandsOnly(Since(trace, from), rel)
  {
  }

  // ---------- The rest of a run ----------

  /* A run that deployed everything: all at once, or the held services one at a time to the last. */
  ghost predicate FullyDeployed(
    trace: seq<Event>, stacks: map<string, Definitions>, rel: Release, from: nat, start: map<string, Definitions>,
    all: seq<string>, preserves: bool)
    requires from <= |trace|
  {
    if all == [] then AtOnce(trace, stacks, rel, from, start, true, preserves)
    else RolledUpTo(trace, stacks, rel, from, start, all, FirstCount(rel.manifest, all), |all|)
  }

  /* Waits for a leading service, then rolls the other held ones. */
  method RollHeld(
    b: Backend, rel: Release, timeout: int, held: seq<string>, leading: Option<string>, before: Time,
    ghost from: nat, ghost start: map<string, Definitions>, ghost all: seq<string>)
    returns (r: Outcome, ghost n: nat)
    requires from <= |b.trace|
    requires Begun(FirstAccepted, b.trace, b.stacks, rel, from, start, b.preserves, all, held, leading, before)
    modifies b`clock, b`trace, b`stacks, b`mishaps
    ensures b.mishaps >= old(b.mishaps)
    ensures b.clock >= old(b.clock) && old(b.trace) <= b.trace
    ensures HeldBy(Since(b.trace, from), rel, b.preserves, all) && OneAtATime(Since(b.trace, from), rel.name, all)
    ensures r == Rolled ==> Through(b.trace, b.stacks, rel, from, start, all, b.preserves)
    ensures r != Rolled ==>
      StoppedAt(b.trace, b.stacks, rel, from, start, all, FirstCount(rel.manifest, all), n, r.NotSettled?)
  {
    r, n := Rolled, 0;
    ghost var events := Since(b.trace, from);
    r, n := RollThem(b, rel, timeout, held, leading, before, from, start, all);
    assert events <= Since(b.trace, from);
    HeldByStays(events, Since(b.trace, from), rel, b.preserves, all);
  }

  method RollThem(
    b: Backend, rel: Release, timeout: int, held: seq<string>, leading: Option<string>, before: Time,
    ghost from: nat, ghost start: map<string, Definitions>, ghost all: seq<string>)
    returns (r: Outcome, ghost n: nat)
    requires from <= |b.trace|
    requires Begun(FirstAccepted, b.trace, b.stacks, rel, from, start, b.preserves, all, held, leading, before)
    modifies b`clock, b`trace, b`stacks, b`mishaps
    ensures b.mishaps >= old(b.mishaps)
    ensures b.clock >= old(b.clock) && old(b.trace) <= b.trace
    ensures OneAtATime(Since(b.trace, from), rel.name, all)
    ensures r == Rolled ==> FullyDeployed(b.trace, b.stacks, rel, from, start, all, b.preserves)
    ensures r != Rolled ==>
      StoppedAt(b.trace, b.stacks, rel, from, start, all, FirstCount(rel.manifest, all), n, r.NotSettled?)
  {
    hide OneAtATime, Between, HandedTo, Staged, Stages, HandsOnly, DeployedTo;
    r, n := Rolled, 0;
    if leading.Some? {
      n := 1;
      var waited := WaitRolled(b, rel.name, leading.value, before, timeout, rel, from, all, 0);
      if waited != Settled {
        return NotSettled(waited), n;
      }
    }
    if held != [] {
      r, n := RollOneAtATime(b, rel, timeout, held, from, start, all, FirstCount(rel.manifest, all));
    }
  }

  /* A run that is through with its deploys, and kept them one at a time. */
  ghost predicate Through(
    trace: seq<Event>, stacks: map<string, Definitions>, rel: Release, from: nat, start: map<string, Definitions>,
    all: seq<string>, preserves: bool)
    requires from <= |trace|
  {
    && HeldBy(Since(trace, from), rel, preserves, all)
    && OneAtATime(Since(trace, from), rel.name, all)
    && FullyDeployed(trace, stacks, rel, from, start, all, preserves)
  }

  /* Once every held service has settled, later polls change nothing about that. */
  lemma {:induction false} PollsAfterLanding(
    trace: seq<Event>, more: seq<Event>, stacks: map<string, Definitions>, rel: Release, from: nat,
    start: map<string, Definitions>, all: seq<string>, preserves: bool)
    requires from <= |trace| && OnlyPolls(trace, more)
    requires Through(trace, stacks, rel, from, start, all, preserves)
    ensures Through(more, stacks, rel, from, start, all, preserves)
    decreases |more|
  {
    if |more| == |trace| {
      assert more == trace;
    } else {
      var less, e := more[..|more| - 1], more[|more| - 1];
      LastPoll(trace, more, less, e);
      PollsAfterLanding(trace, less, stacks, rel, from, start, all, preserves);
      OnePollAfterLanding(less, e, stacks, rel, from, start, all, preserves);
    }
  }

  lemma LastPoll(trace: seq<Event>, more: seq<Event>, less: seq<Event>, e: Event)
    requires OnlyPolls(trace, more) && |trace| < |more| && less == more[..|more| - 1] && e == more[|more| - 1]
    ensures OnlyPolls(trace, less) && e.Polled? && more == less + [e]
  {
  }

  lemma OnePollAfterLanding(
    trace: seq<Event>, e: Event, stacks: map<string, Definitions>, rel: Release, from: nat,
    start: map<string, Definitions>, all: seq<string>, preserves: bool)
    requires from <= |trace| && e.Polled?
    requires Through(trace, stacks, rel, from, start, all, preserves)
    ensures Through(trace + [e], stacks, rel, from, start, all, preserves)
  {
    var events := Since(trace, from);
    SinceNext(trace, from, e);
    FlightsNext(events, e, rel.name, all);
    HandedNext(events, e, rel.name);
    HandsOnlyNext(events, e, rel);
    OneAtATimeNext(events, e, rel.name, all);
    HeldByStays(events, events + [e], rel, preserves, all);
  }
}
