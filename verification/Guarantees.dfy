/** What the runs of the release engine guarantee, read off what they leave behind. */
module Guarantees {
  import opened Text
  import opened Tasks
  import opened Manifests
  import opened Releases
  import opened Phase
  import opened Backends
  import opened Flights
  import opened Rollout
  import opened Deploys
  import opened Preflight
  import Engine
  import Verbs

  // ---------- One at a time ----------

  /* The swarm runs at least as many tasks of that name as it wants, and wants some. */
  ghost predicate RunsAll(states: seq<ServiceState>, name: string) {
    exists i :: 0 <= i < |states| && states[i].name == name && 0 < states[i].desired <= states[i].running
  }

  /* Two services labelled sequential that the poll a run begins with finds up are at no moment of it both in
     flight, whatever the swarm answers and however the run ends. */
  lemma TwoUpNeverFlyTogether(
    events: seq<Event>, rel: Release, preserves: bool, held: seq<string>, s: ServiceSpec, t: ServiceSpec, moment: nat)
    requires preserves && rel.manifest.Stack? && HeldBy(events, rel, preserves, held)
    requires OneAtATime(events, rel.name, held)
    requires s in rel.manifest.services && Sequential(s.labels)
    requires t in rel.manifest.services && Sequential(t.labels) && s.key != t.key
    requires moment <= |events|
    ensures events != [] && events[0].Polled? && events[0].release == rel.name
    ensures RunsAll(events[0].states, rel.name + "_" + s.key) && RunsAll(events[0].states, rel.name + "_" + t.key) ==>
      var so := events[..moment];
      !(FlightAfter(so, rel.name, s.key).Flying? && FlightAfter(so, rel.name, t.key).Flying?)
  {
    var marked := MarkedKeys(rel.manifest.services);
    MarkedKeysSorted(rel.manifest.services);
    assert s.key in marked && t.key in marked;
    var states := events[0].states;
    HeldAmongElements(states, rel.name, marked, marked);
    if RunsAll(states, rel.name + "_" + s.key) && RunsAll(states, rel.name + "_" + t.key) {
      RunsAllIsUp(states, rel.name, s.key);
      RunsAllIsUp(states, rel.name, t.key);
      assert s.key in held && t.key in held;
      assert AtMostOneFlying(events[..moment], rel.name, held);
    }
  }

  lemma RunsAllIsUp(states: seq<ServiceState>, release: string, key: string)
    ensures RunsAll(states, release + "_" + key) <==> Up(states, release, key)
  {
    if s :| s in states && s.name == SwarmName(release, key) && IsUp(s) {
      var i :| 0 <= i < |states| && states[i] == s;
    }
  }

  /* The first state of that name in a poll. */
  ghost predicate FirstNamed(states: seq<ServiceState>, name: string, k: nat) {
    k < |states| && states[k].name == name && forall m :: 0 <= m < k ==> states[m].name != name
  }

  /* When a poll shows the last update of a service began; the zero time when it does not show the service. */
  ghost predicate ShowsStart(states: seq<ServiceState>, name: string, at: Time) {
    || (exists k: nat :: FirstNamed(states, name, k) && states[k].updateStartedAt == at)
    || (at == 0 && forall m :: 0 <= m < |states| ==> states[m].name != name)
  }

  ghost predicate PollOf(e: Event, release: string) { e.Polled? && e.release == release }

  ghost predicate IsLastPoll(events: seq<Event>, p: int, release: string) {
    0 <= p < |events| && PollOf(events[p], release) && forall q :: p < q < |events| ==> !PollOf(events[q], release)
  }

  /* What the last of these events that polls the release shows; the zero time when none does. */
  ghost predicate LastSeen(events: seq<Event>, release: string, name: string, at: Time) {
    || (exists p :: IsLastPoll(events, p, release) && ShowsStart(events[p].states, name, at))
    || (at == 0 && forall q :: 0 <= q < |events| ==> !PollOf(events[q], release))
  }

  ghost predicate WasHanded(events: seq<Event>, release: string, key: string, i: nat, before: Time) {
    && i < |events| && events[i].Handed? && events[i].release == release && key in ServiceKeys(events[i].manifest)
    && LastSeen(events[..i], release, release + "_" + key, before)
  }

  /* A poll that shows the service with its task spec unchanged, or finished by an update that began later. */
  ghost predicate ShowsLanded(states: seq<ServiceState>, name: string, before: Time) {
    exists k: nat :: FirstNamed(states, name, k) &&
      (!states[k].taskSpecChanged || (states[k].updateStartedAt > before && Finished(states[k])))
  }

  ghost predicate WasSettled(events: seq<Event>, release: string, key: string, i: nat, j: nat, before: Time) {
    && WasHanded(events, release, key, i, before)
    && i < j < |events| && PollOf(events[j], release) && ShowsLanded(events[j].states, release + "_" + key, before)
  }

  lemma {:induction false} FindIsFirst(states: seq<ServiceState>, name: string)
    ensures Find(states, name).Some? ==>
      exists k: nat :: FirstNamed(states, name, k) && states[k] == Find(states, name).value
    ensures Find(states, name).None? ==> forall m :: 0 <= m < |states| ==> states[m].name != name
  {
    if states == [] {
    } else if states[0].name == name {
      assert FirstNamed(states, name, 0);
    } else {
      FindIsFirst(states[1..], name);
      if Find(states, name).Some? {
        var k: nat :| FirstNamed(states[1..], name, k) && states[1..][k] == Find(states, name).value;
        assert forall m :: 1 <= m < k + 1 ==> states[m] == states[1..][m - 1];
        assert FirstNamed(states, name, k + 1);
      } else {
        assert forall m :: 1 <= m < |states| ==> states[m] == states[1..][m - 1];
      }
    }
  }

  /* The update a waiting service was last seen with is the one the last poll showed. */
  lemma {:induction false} WaitingIsLastSeen(events: seq<Event>, release: string, key: string)
    requires FlightAfter(events, release, key).Waiting?
    ensures LastSeen(events, release, release + "_" + key, FlightAfter(events, release, key).seen)
    decreases |events|
  {
    hide ShowsStart;
    if events != [] {
      var n := |events| - 1;
      var less, e := events[..n], events[n];
      WaitingIsLastSeen(less, release, key);
      var at := FlightAfter(less, release, key).seen;
      if PollOf(e, release) {
        FindShowsStart(e.states, SwarmName(release, key));
        assert IsLastPoll(events, n, release);
      } else if p :| IsLastPoll(less, p, release) && ShowsStart(less[p].states, release + "_" + key, at) {
        assert forall q :: p <= q < n ==> events[q] == less[q];
        assert IsLastPoll(events, p, release);
      } else {
        assert forall q :: 0 <= q < n ==> events[q] == less[q];
      }
    }
  }

  lemma FindShowsStart(states: seq<ServiceState>, name: string)
    ensures ShowsStart(states, name, StartedAt(Find(states, name)))
  {
    FindIsFirst(states, name);
  }

  lemma FindShowsLanded(states: seq<ServiceState>, name: string, before: Time)
    requires Settles(Find(states, name), before)
    ensures ShowsLanded(states, name, before)
  {
    FindIsFirst(states, name);
  }

  /* A service counts as landed only after a deploy that named it, followed by a poll that found its task spec
     unchanged, or finished by an update newer than the one the last poll before that deploy showed. */
  lemma {:induction false} LandedWasSettled(events: seq<Event>, release: string, key: string)
    requires FlightAfter(events, release, key) == Landed
    ensures exists i: nat, j: nat, before: Time :: WasSettled(events, release, key, i, j, before)
    decreases |events|
  {
    hide LastSeen, ShowsLanded, Settles;
    var less, e := events[..|events| - 1], events[|events| - 1];
    var f := FlightAfter(less, release, key);
    if f == Landed {
      LandedWasSettled(less, release, key);
      var i: nat, j: nat, before: Time :| WasSettled(less, release, key, i, j, before);
      assert less[..i] == events[..i];
      assert WasSettled(events, release, key, i, j, before);
    } else {
      FlyingWasHanded(less, release, key);
      var i: nat :| WasHanded(less, release, key, i, f.before);
      assert less[..i] == events[..i];
      FindShowsLanded(e.states, SwarmName(release, key), f.before);
      assert WasSettled(events, release, key, i, |events| - 1, f.before);
    }
  }

  lemma {:induction false} FlyingWasHanded(events: seq<Event>, release: string, key: string)
    requires FlightAfter(events, release, key).Flying?
    ensures exists i: nat :: WasHanded(events, release, key, i, FlightAfter(events, release, key).before)
    decreases |events|
  {
    hide LastSeen;
    var less, e := events[..|events| - 1], events[|events| - 1];
    var f := FlightAfter(less, release, key);
    if f.Flying? {
      FlyingWasHanded(less, release, key);
      var i: nat :| WasHanded(less, release, key, i, f.before);
      assert less[..i] == events[..i];
      assert WasHanded(events, release, key, i, f.before);
    } else {
      WaitingIsLastSeen(less, release, key);
      assert WasHanded(events, release, key, |events| - 1, f.seen);
    }
  }

  // ---------- The chain ----------

  /* Each deploy of a staged run is the one before plus exactly one held service, defined as the whole
     manifest defines it; a run that got to the end deployed the whole manifest last. */
  lemma ChainGrows(m: Manifest, held: seq<string>, first: nat, last: nat, i: nat)
    requires Rollable(m, held) && first <= last <= |held| && i < last - first
    ensures var chain, key := Stages(m, held, first, last), held[first + i];
            && key !in Specs(chain[i]) && Specs(chain[i + 1]) == Specs(chain[i])[key := Specs(m)[key]]
    ensures last == |held| ==> Stages(m, held, first, last)[last - first] == m
  {
    assert held[first + i] in held;
    StageGrows(m, held, first + i);
  }

  // ---------- Definitions ----------

  /* A run that recorded its revision and rolled to the end gave every service of the manifest its new
     definition, and where omitted services are preserved it changed no other service. */
  lemma SuccessUpdatesEveryService(
    w: Engine.World, v: Engine.World, codec: Codec, preserves: bool, rel: Release, opts: Engine.Options, out: Release,
    exit: Engine.Exit, held: seq<string>, n: nat, key: string)
    requires Engine.Ran(w, v, codec, preserves, rel, opts, out, exit, held, n)
    requires exit in {Engine.NotReady, Engine.Done}
    ensures key in Specs(rel.manifest) ==> Definition(v.stacks, rel.name, key) == Some(Specs(rel.manifest)[key])
    ensures key !in Specs(rel.manifest) && preserves ==>
      Definition(v.stacks, rel.name, key) == Definition(w.stacks, rel.name, key)
  {
    LastStage(rel.manifest, held);
  }

  /* A rollout that stopped because a service wedged, timed out or was cancelled leaves the held services
     after that one with the definition they had, and gave every other service of the manifest, that one
     included, its new one. */
  lemma StoppedRolloutKeepsTheRest(
    w: Engine.World, v: Engine.World, codec: Codec, preserves: bool, rel: Release, opts: Engine.Options, out: Release,
    why: Waited, held: seq<string>, n: nat, key: string)
    requires Engine.Ran(w, v, codec, preserves, rel, opts, out, Engine.NotRolled(NotSettled(why)), held, n)
    requires key in Specs(rel.manifest)
    ensures 0 < n <= |held|
    ensures Definition(v.stacks, rel.name, key) ==
      if key in held[n..] then Definition(w.stacks, rel.name, key) else Some(Specs(rel.manifest)[key])
  {
  }

  /* One that stopped because a deploy failed leaves in doubt only the service that deploy added. */
  lemma FailedDeployTearsOne(
    w: Engine.World, v: Engine.World, codec: Codec, preserves: bool, rel: Release, opts: Engine.Options, out: Release,
    held: seq<string>, n: nat, key: string)
    requires Engine.Ran(w, v, codec, preserves, rel, opts, out, Engine.NotRolled(NotDeployed), held, n)
    requires key in Specs(rel.manifest)
    ensures 0 < n <= |held|
    ensures key in held[n..] ==> Definition(v.stacks, rel.name, key) == Definition(w.stacks, rel.name, key)
    ensures key !in held[n - 1..] ==> Definition(v.stacks, rel.name, key) == Some(Specs(rel.manifest)[key])
    ensures Definition(v.stacks, rel.name, key) in {Definition(w.stacks, rel.name, key), Some(Specs(rel.manifest)[key])}
  {
  }

  // ---------- Conservation ----------

  /* A run that ended before its first deploy was accepted wrote no record; with every removal done, it
     also left the networks as it found them, and it never took away one that was there before. */
  lemma FailureLeavesNoTrace(
    w: Engine.World, v: Engine.World, codec: Codec, preserves: bool, rel: Release, opts: Engine.Options, out: Release,
    exit: Engine.Exit, held: seq<string>, n: nat)
    requires Engine.Ran(w, v, codec, preserves, rel, opts, out, exit, held, n)
    requires exit in {Engine.TurnedDown, Engine.DeployRefused}
    ensures v.configs == w.configs && v.written == w.written
    ensures v.stranded == w.stranded ==> v.networks == w.networks
    ensures forall name :: name in w.networks ==> name in v.networks && v.networks[name] == w.networks[name]
    ensures exit == Engine.TurnedDown ==> v.stacks == w.stacks
  {
    if v.stranded == w.stranded {
      assert v.stranded[|w.stranded|..] == [];
      NothingStranded(w.networks, v.networks);
    }
  }

  function NewIn(w: Engine.World, v: Engine.World): set<string> { v.networks.Keys - w.networks.Keys }

  /* However a run ends, the networks are those it found, unchanged, and others its manifest names external,
     made as declared. Once a first deploy was accepted those others are exactly the ones its record names,
     and none the manifest names external is missing; before that, only ones a removal failed to take back. */
  lemma NetworksConserved(
    w: Engine.World, v: Engine.World, codec: Codec, preserves: bool, rel: Release, opts: Engine.Options, out: Release,
    exit: Engine.Exit, held: seq<string>, n: nat)
    requires Engine.Ran(w, v, codec, preserves, rel, opts, out, exit, held, n)
    ensures MayMake(rel.manifest, opts.requirements, NewIn(w, v))
    ensures v.networks == w.networks + Creation(opts.requirements, NewIn(w, v))
    ensures exit == Engine.NotRecorded || Verbs.Recorded(exit) ==>
      && NewIn(w, v) == (set name | name in out.managedNetworks) && v.stranded == w.stranded
      && AllUsable(v.networks, rel.manifest, opts.requirements)
    ensures exit in {Engine.TurnedDown, Engine.DeployRefused} ==>
      forall name :: name in NewIn(w, v) ==> name in v.stranded[|w.stranded|..]
  {
    hide Engine.OneRecorded, Engine.Becomes, StoppedAt, Through, Launched, HeldBy, OneAtATime, HandsOnly, DeployedTo;
    hide Made, AllUsable, MayCreate;
    if exit == Engine.NotRecorded || Verbs.Recorded(exit) {
      assert Provided(w.networks, v.networks, out.managedNetworks, rel.manifest, opts.requirements);
    }
  }
}
