/** The sequential rollout (charts/rollout.go): which services a deploy holds back, and how they are then
    rolled one at a time. */
module Rollout {
  import opened Text
  import opened Tasks
  import opened Manifests
  import opened Releases
  import opened Phase
  import opened Backends
  import opened Flights

  /* Why a wait for one service ended. */
  datatype Waited = Settled | GaveUp | TimedOut | Cancelled

  datatype Outcome = Rolled | NotDeployed | NotSettled(why: Waited)

  const DEFAULT_TIMEOUT := 300_000_000_000

  ghost function Since(trace: seq<Event>, from: nat): seq<Event>
    requires from <= |trace|
  {
    trace[from..]
  }

  lemma SinceNext(trace: seq<Event>, from: nat, e: Event)
    requires from <= |trace|
    ensures Since(trace + [e], from) == Since(trace, from) + [e]
  {
  }

  // ---------- Holding services back ----------

  /* The marked services of a manifest, unless it does not parse. */
  function SequentialServices(m: Manifest): Option<seq<string>> {
    match m
    case Malformed => None
    case Serviceless(_) => Some([])
    case Stack(services, _) => Some(MarkedKeys(services))
  }

  method HeldForRollout(b: Backend, rel: Release) returns (held: Option<seq<string>>, ghost states: seq<ServiceState>)
    modifies b`clock, b`trace
    ensures b.clock >= old(b.clock)
    ensures !b.preserves || SequentialServices(rel.manifest) == Some([]) ==> held == Some([]) && b.trace == old(b.trace)
    ensures b.preserves && rel.manifest.Malformed? ==> held == None && b.trace == old(b.trace)
    ensures b.preserves && rel.manifest.Stack? && MarkedKeys(rel.manifest.services) != [] ==>
      && b.trace == old(b.trace) + [Polled(rel.name, states)]
      && held == Some(HeldKeys(states, rel.name, MarkedKeys(rel.manifest.services)))
  {
    states := [];
    if !b.preserves {
      return Some([]), states;
    }
    var marked := SequentialServices(rel.manifest);
    if marked.None? || marked.value == [] {
      return marked, states;
    }
    var answer := b.StackServices(rel.name);
    var keys := HeldOf(answer, rel.name, marked.value);
    return Some(keys), answer;
  }

  method HeldOf(states: seq<ServiceState>, release: string, marked: seq<string>) returns (held: seq<string>)
    ensures held == HeldKeys(states, release, marked)
  {
    hide IsUp, IsStarting, SwarmName, HeldAmong;
    var up, starting := UpAndStarting(states);
    var anyUp := AnyIsUp(states, release, marked, up);
    held := [];
    assert marked[0..] == marked && [] + HeldKeys(states, release, marked) == HeldKeys(states, release, marked);
    for i := 0 to |marked|
      invariant HeldKeys(states, release, marked) == held + HeldAmong(states, release, marked, marked[i..])
    {
      HeldNext(states, release, marked, held, i);
      var name := SwarmName(release, marked[i]);
      assert name in up <==> Up(states, release, marked[i]);
      assert name in starting <==> Rising(states, release, marked[i]);
      if name in up || (anyUp && name in starting) {
        held := held + [marked[i]];
      }
    }
    HeldEnd(states, release, marked, held);
  }

  lemma HeldNext(states: seq<ServiceState>, release: string, marked: seq<string>, held: seq<string>, i: nat)
    requires i < |marked|
    ensures var next := if IsHeld(states, release, marked, marked[i]) then held + [marked[i]] else held;
            held + HeldAmong(states, release, marked, marked[i..])
              == next + HeldAmong(states, release, marked, marked[i + 1..])
  {
    hide IsHeld;
    assert marked[i..][1..] == marked[i + 1..];
  }

  lemma HeldEnd(states: seq<ServiceState>, release: string, marked: seq<string>, held: seq<string>)
    ensures held + HeldAmong(states, release, marked, marked[|marked|..]) == held
  {
  }

  method AnyIsUp(states: seq<ServiceState>, release: string, marked: seq<string>, up: set<string>) returns (any: bool)
    requires forall name :: name in up <==> exists s :: s in states && s.name == name && IsUp(s)
    ensures any == AnyUp(states, release, marked)
  {
    hide IsUp, SwarmName;
    any := false;
    for i := 0 to |marked|
      invariant any <==> exists j :: 0 <= j < i && Up(states, release, marked[j])
    {
      assert SwarmName(release, marked[i]) in up <==> Up(states, release, marked[i]);
      any := any || SwarmName(release, marked[i]) in up;
    }
  }

  /* The names of the services that are up, and of those coming up. */
  method UpAndStarting(states: seq<ServiceState>) returns (up: set<string>, starting: set<string>)
    ensures forall name :: name in up <==> exists s :: s in states && s.name == name && IsUp(s)
    ensures forall name :: name in starting <==> exists s :: s in states && s.name == name && IsStarting(s)
  {
    up, starting := {}, {};
    for i := 0 to |states|
      invariant forall name :: name in up <==> exists j :: 0 <= j < i && states[j].name == name && IsUp(states[j])
      invariant forall name :: name in starting <==>
        exists j :: 0 <= j < i && states[j].name == name && IsStarting(states[j])
    {
      var s := states[i];
      if s.desired > 0 && s.running >= s.desired {
        up := up + {s.name};
      } else if s.desired > 0 && s.running + s.starting >= s.desired {
        starting := starting + {s.name};
      }
    }
  }

  // ---------- Waiting for one service ----------

  method ServiceStateOf(b: Backend, release: string, name: string)
    returns (st: Option<ServiceState>, ghost states: seq<ServiceState>)
    modifies b`clock, b`trace
    ensures b.clock >= old(b.clock)
    ensures b.trace == old(b.trace) + [Polled(release, states)] && st == Find(states, name)
  {
    var answer := b.StackServices(release);
    states := answer;
    for i := 0 to |answer|
      invariant Find(answer, name) == Find(answer[i..], name)
    {
      assert answer[i..][1..] == answer[i + 1..];
      if answer[i].name == name {
        return Some(answer[i]), states;
      }
    }
    return None, states;
  }

  /* How long a wait lasts when no monitor window extends it. */
  function Patience(timeout: int): (p: int)
    ensures p > 0
    ensures timeout > 0 ==> p == timeout
    ensures timeout <= 0 ==> p == 5 * 60 * 1_000_000_000
  {
    if timeout <= 0 then DEFAULT_TIMEOUT else timeout
  }

  /* The service's own monitor window, once a poll has shown the service changed. */
  ghost function Extension(events: seq<Event>, name: string): int {
    match FirstMonitor(events, name)
    case Some(monitor) => monitor
    case None => 0
  }

  lemma NotExtended(trace: seq<Event>, name: string)
    ensures FirstMonitor(Since(trace, |trace|), name) == None
  {
  }

  /* A state that says swarm has given up on an update newer than the one before the deploy. */
  predicate GivesUp(st: Option<ServiceState>, before: Time) {
    st.Some? && st.value.taskSpecChanged && st.value.updateStartedAt > before && GivenUp(st.value)
  }

  /* Waits for held service i, which was just handed its new definition. The wait ends: each poll moves
     the clock towards the deadline, which moves away at most once. */
  method WaitRolled(
    b: Backend, release: string, key: string, before: Time, timeout: int,
    ghost rel: Release, ghost from: nat, ghost held: seq<string>, ghost i: nat)
    returns (r: Waited)
    requires from <= |b.trace| && i < |held| && key == held[i] && release == rel.name
    requires HandsOnly(Since(b.trace, from), rel)
    requires Rolling(Since(b.trace, from), release, held, i, before) && OneAtATime(Since(b.trace, from), release, held)
    modifies b`clock, b`trace, b`mishaps
    ensures b.mishaps >= old(b.mishaps)
    ensures b.clock >= old(b.clock) && old(b.trace) < b.trace
    ensures OneAtATime(Since(b.trace, from), release, held)
    ensures r == Settled ==> Between(Since(b.trace, from), release, held, i + 1)
    ensures r != Settled ==> Rolling(Since(b.trace, from), release, held, i, before)
    ensures HandedTo(Since(b.trace, from), release) == HandedTo(Since(old(b.trace), from), release)
    ensures HandsOnly(Since(b.trace, from), rel)
    ensures b.trace[|b.trace| - 1].Polled?
    ensures var last := Find(b.trace[|b.trace| - 1].states, SwarmName(release, key));
            && (r == Settled <==> Settles(last, before))
            && (r == GaveUp <==> GivesUp(last, before))
    ensures r == Cancelled <==> b.mishaps > old(b.mishaps)
    ensures r == TimedOut ==>
      var patience := if timeout <= 0 then 300_000_000_000 else timeout;
      b.clock >= old(b.clock) + patience + Extension(Since(b.trace, |old(b.trace)|), SwarmName(release, key))
  {
    hide FirstMonitor, Rolling, Between, OneAtATime, HandedTo, HandsOnly;
    var deadline, extended := b.clock + Patience(timeout), false;
    NotExtended(b.trace, SwarmName(release, key));
    while true
      invariant b.clock >= old(b.clock) && old(b.trace) <= b.trace && b.mishaps == old(b.mishaps)
      invariant Rolling(Since(b.trace, from), release, held, i, before)
      invariant OneAtATime(Since(b.trace, from), release, held)
      invariant HandedTo(Since(b.trace, from), release) == HandedTo(Since(old(b.trace), from), release)
      invariant HandsOnly(Since(b.trace, from), rel)
      invariant extended == FirstMonitor(Since(b.trace, |old(b.trace)|), SwarmName(release, key)).Some?
      invariant deadline == old(b.clock) + Patience(timeout)
                            + Extension(Since(b.trace, |old(b.trace)|), SwarmName(release, key))
      decreases !extended, if b.clock < deadline then deadline - b.clock else 0
    {
      ghost var events := Since(b.trace, from);
      ghost var trace := b.trace;
      var st, states := ServiceStateOf(b, release, SwarmName(release, key));
      SinceNext(trace, from, Polled(release, states));
      PollWhileRolling(events, states, release, held, i, before);
      HandedNext(events, Polled(release, states), release);
      HandsOnlyNext(events, Polled(release, states), rel);
      assert HandedBy(Polled(release, states), release) == [];
      SinceNext(trace, |old(b.trace)|, Polled(release, states));
      FirstMonitorNext(Since(trace, |old(b.trace)|), Polled(release, states), SwarmName(release, key));
      if st.Some? {
        if !st.value.taskSpecChanged {
          return Settled;
        }
        if !extended {
          deadline := deadline + st.value.monitor;
          extended := true;
        }
        ConvergenceMeans(st.value);
        if st.value.updateStartedAt > before {
          match Convergence(st.value) {
            case Wedged => return GaveUp;
            case Converged => return Settled;
            case Progressing =>
          }
        }
      }
      if !(b.clock < deadline) {
        return TimedOut;
      }
      var cancelled := b.Sleep();
      if cancelled {
        return Cancelled;
      }
    }
  }

  // ---------- Rolling one at a time ----------

  /* What holds between two deploys of a run: n held services have settled, each deploy so far was the
     next stage, and only what was deployed has its new definition. */
  ghost predicate RolledUpTo(
    trace: seq<Event>, stacks: map<string, Definitions>, rel: Release,
    from: nat, start: map<string, Definitions>, held: seq<string>, first: nat, n: nat)
    requires from <= |trace|
  {
    && first <= n <= |held|
    && OneAtATime(Since(trace, from), rel.name, held)
    && Between(Since(trace, from), rel.name, held, n)
    && HandedTo(Since(trace, from), rel.name) == Stages(rel.manifest, held, first, n)
    && HandsOnly(Since(trace, from), rel)
    && Staged(start, stacks, rel.name, rel.manifest, Tail(held, n))
  }

  /* What a run that stopped at held service n - 1 leaves: that service is the one in flight, none after
     it was touched, and whether it has its new definition is in doubt only if its deploy failed. */
  ghost predicate StoppedAt(
    trace: seq<Event>, stacks: map<string, Definitions>, rel: Release,
    from: nat, start: map<string, Definitions>, held: seq<string>, first: nat, n: nat, deployed: bool)
    requires from <= |trace|
  {
    && first <= n <= |held| && 0 < n
    && OneAtATime(Since(trace, from), rel.name, held)
    && InFlight(Since(trace, from), rel.name, held, n - 1)
    && HandedTo(Since(trace, from), rel.name) == Stages(rel.manifest, held, first, n)
    && HandsOnly(Since(trace, from), rel)
    && (if deployed then Staged(start, stacks, rel.name, rel.manifest, Tail(held, n))
        else StagedBut(start, stacks, rel.name, rel.manifest, Tail(held, n), held[n - 1]))
  }

  /* The held services still to be rolled. */
  ghost predicate Rollable(m: Manifest, held: seq<string>) {
    (forall i, j :: 0 <= i < j < |held| ==> held[i] != held[j]) && (forall k :: k in held ==> k in Specs(m))
  }

  lemma StageKeys(m: Manifest, held: seq<string>, i: nat)
    requires Rollable(m, held) && i < |held|
    ensures held[i] in ServiceKeys(Stage(m, held, i + 1))
    ensures forall j :: i < j < |held| ==> held[j] !in ServiceKeys(Stage(m, held, i + 1))
  {
    WithoutKeys(m, Tail(held, i + 1));
    WithoutSpecs(m, {});
    assert held[i] !in held[i + 1..];
    forall j | i < j < |held| ensures held[j] in Tail(held, i + 1) {
      assert held[j] == held[i + 1..][j - i - 1];
    }
  }

  /* The manifest of the next deploy: the whole one once nothing is pending. */
  method StageManifest(m: Manifest, pending: set<string>) returns (manifest: Manifest)
    requires m.Stack?
    ensures manifest == Without(m, pending)
  {
    manifest := m;
    if pending != {} {
      var parsed, partial, kept := WithoutServices(m, pending);
      manifest := partial;
    } else {
      WithoutNothing(m);
    }
  }

  method RollOneAtATime(
    b: Backend, rel: Release, timeout: int, held: seq<string>,
    ghost from: nat, ghost start: map<string, Definitions>, ghost all: seq<string>, ghost first: nat)
    returns (r: Outcome, ghost n: nat)
    requires b.preserves && from <= |b.trace| && Rollable(rel.manifest, all)
    requires |held| <= |all| && held == all[|all| - |held|..]
    requires RolledUpTo(b.trace, b.stacks, rel, from, start, all, first, |all| - |held|)
    modifies b`clock, b`trace, b`stacks, b`mishaps
    ensures b.mishaps >= old(b.mishaps)
    ensures b.clock >= old(b.clock) && old(b.trace) <= b.trace
    ensures r == Rolled ==> n == |all| && RolledUpTo(b.trace, b.stacks, rel, from, start, all, first, n)
    ensures r != Rolled ==>
      |all| - |held| < n && StoppedAt(b.trace, b.stacks, rel, from, start, all, first, n, r.NotSettled?)
  {
    hide StoppedAt, OneAtATime, Between, Stages, Staged, HandedTo, HandsOnly;
    var pending := set k | k in held;
    n := |all| - |held|;
    for i := 0 to |held|
      invariant b.mishaps >= old(b.mishaps)
      invariant b.clock >= old(b.clock) && old(b.trace) <= b.trace
      invariant n == |all| - |held| + i && pending == Tail(all, n)
      invariant RolledUpTo(b.trace, b.stacks, rel, from, start, all, first, n)
    {
      assert held[i] == all[n] && all[n] in all;
      pending := pending - {held[i]};
      NextPending(all, n);
      var manifest := StageManifest(rel.manifest, pending);
      r := RollService(b, rel, manifest, held[i], timeout, from, start, all, first, n);
      n := n + 1;
      if r != Rolled {
        return;
      }
    }
    r := Rolled;
  }

  lemma NextPending(held: seq<string>, n: nat)
    requires n < |held| && forall i, j :: 0 <= i < j < |held| ==> held[i] != held[j]
    ensures Tail(held, n) - {held[n]} == Tail(held, n + 1)
  {
    TailStep(held, n);
    assert held[n] !in held[n + 1..];
  }

  /* One service of a run: the deploy that adds it, and the wait for it. */
  method RollService(
    b: Backend, rel: Release, manifest: Manifest, key: string, timeout: int,
    ghost from: nat, ghost start: map<string, Definitions>, ghost all: seq<string>, ghost first: nat, ghost n: nat)
    returns (r: Outcome)
    requires b.preserves && from <= |b.trace| && Rollable(rel.manifest, all)
    requires n < |all| && key == all[n] && manifest == Stage(rel.manifest, all, n + 1)
    requires RolledUpTo(b.trace, b.stacks, rel, from, start, all, first, n)
    modifies b`clock, b`trace, b`stacks, b`mishaps
    ensures b.mishaps >= old(b.mishaps)
    ensures b.clock >= old(b.clock) && old(b.trace) <= b.trace
    ensures r == Rolled ==> RolledUpTo(b.trace, b.stacks, rel, from, start, all, first, n + 1)
    ensures r != Rolled ==> StoppedAt(b.trace, b.stacks, rel, from, start, all, first, n + 1, r.NotSettled?)
  {
    var deployed, before := RollNext(b, rel, manifest, key, from, start, all, first, n);
    if !deployed {
      return NotDeployed;
    }
    var waited := WaitRolled(b, rel.name, key, before, timeout, rel, from, all, n);
    return if waited == Settled then Rolled else NotSettled(waited);
  }

  /* One deploy of a run: it notes when the service's last update started, then hands over the next
     stage. */
  method RollNext(
    b: Backend, rel: Release, manifest: Manifest, key: string,
    ghost from: nat, ghost start: map<string, Definitions>, ghost all: seq<string>, ghost first: nat, ghost n: nat)
    returns (deployed: bool, before: Time)
    requires b.preserves && from <= |b.trace| && Rollable(rel.manifest, all)
    requires n < |all| && key == all[n] && manifest == Stage(rel.manifest, all, n + 1)
    requires RolledUpTo(b.trace, b.stacks, rel, from, start, all, first, n)
    modifies b`clock, b`trace, b`stacks
    ensures b.clock >= old(b.clock) && old(b.trace) <= b.trace
    ensures StoppedAt(b.trace, b.stacks, rel, from, start, all, first, n + 1, deployed)
    ensures Rolling(Since(b.trace, from), rel.name, all, n, before)
  {
    ghost var events, trace, stacks := Since(b.trace, from), b.trace, b.stacks;
    var st, states := ServiceStateOf(b, rel.name, SwarmName(rel.name, key));
    ghost var polled := events + [Polled(rel.name, states)];
    SinceNext(trace, from, Polled(rel.name, states));
    PollBetween(events, states, rel.name, all, n);
    HandedNext(events, Polled(rel.name, states), rel.name);
    HandsOnlyNext(events, Polled(rel.name, states), rel);
    before := StartedAt(st);
    deployed := b.DeployStack(rel.name, manifest, rel.files);
    SinceNext(trace + [Polled(rel.name, states)], from, Handed(rel.name, manifest, rel.files, deployed));
    StageKeys(rel.manifest, all, n);
    HandOne(polled, manifest, rel.files, deployed, rel.name, all, n, before);
    HandedNext(polled, Handed(rel.name, manifest, rel.files, deployed), rel.name);
    HandsOnlyNext(polled, Handed(rel.name, manifest, rel.files, deployed), rel);
    StagesNext(rel.manifest, all, first, n);
    StagedNext(start, stacks, b.stacks, rel.name, rel.manifest, all, n, deployed);
  }
}
