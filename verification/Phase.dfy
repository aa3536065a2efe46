/** How far a rollout has got (charts/release.go): one service, a release, and time passing. */
module Phase {
  import opened Tasks
  import Counting

  /* A live status line of one service; durations in nanoseconds. */
  datatype ServiceState = ServiceState(
    name: string, running: int, starting: int, upToDate: int, desired: int, completed: int,
    job: bool, nativeJob: bool, updateState: UpdateState, monitor: int, newestTaskAge: int,
    deadTask: bool, taskSpecChanged: bool, updateStartedAt: Time)

  datatype Phase = Converged | Progressing | Wedged

  /* The state a snapshot's facts become. */
  function StateOf(f: Counting.Facts): ServiceState {
    ServiceState(
      f.name, f.running, f.starting, f.upToDate, f.desired, f.completed, f.job, f.nativeJob,
      f.updateState, f.monitor, f.newestTaskAge, f.deadTask, f.taskSpecChanged, f.updateStartedAt)
  }

  /* The tasks that meet the target. */
  function Arrived(s: ServiceState): int {
    if s.nativeJob then s.completed else s.running + s.completed
  }

  /* How much of the monitor window is still to sit out. */
  function StabilityRemaining(s: ServiceState): int {
    var window := if s.monitor < Counting.DEFAULT_MONITOR then Counting.DEFAULT_MONITOR else s.monitor;
    window - s.newestTaskAge
  }

  /* One service. A pause stops counting as one for a job whose task arrived, and once every slot
     the target asks for runs the current generation. */
  function Convergence(s: ServiceState): Phase {
    if s.deadTask && Arrived(s) < s.desired then Wedged
    else if s.job && s.updateState == Paused && Arrived(s) < s.desired then Wedged
    else
      var state := if s.updateState == Paused && (s.job || s.upToDate >= s.desired) then NoUpdate else s.updateState;
      match state
      case Paused => Wedged
      case RollbackPaused => Wedged
      case RollbackCompleted => Wedged
      case Updating => Progressing
      case RollbackStarted => Progressing
      case _ =>
        if Arrived(s) < s.desired then Progressing
        else if StabilityRemaining(s) > 0 then Progressing
        else Phase.Converged
  }

  // ---------- What the answers mean ----------

  /* Fewer tasks than wanted have arrived: completed, for one of swarm's own jobs. */
  predicate Short(s: ServiceState) {
    if s.nativeJob then s.completed < s.desired else s.running + s.completed < s.desired
  }

  /* Swarm will not get this service any further by itself: a one-shot's task died short of the target, an
     update is paused that tasks of the new spec have not outgrown, or an update was rolled back. */
  predicate GivenUp(s: ServiceState) {
    || (s.deadTask && Short(s))
    || (s.updateState == Paused && s.job && Short(s))
    || (s.updateState == Paused && !s.job && s.upToDate < s.desired)
    || s.updateState == RollbackPaused
    || s.updateState == RollbackCompleted
  }

  /* The service met its target and outlived swarm's window, of five seconds at least, in no update or
     rollback; a pause it carries is one every slot has outgrown, or a finished job's. */
  predicate Finished(s: ServiceState) {
    && !Short(s)
    && (s.updateState in {NoUpdate, UpdateState.Completed} ||
        (s.updateState == Paused && (s.job || s.upToDate >= s.desired)))
    && s.newestTaskAge >= 5_000_000_000 && s.newestTaskAge >= s.monitor
  }

  lemma ConvergenceMeans(s: ServiceState)
    ensures Convergence(s) == Wedged <==> GivenUp(s)
    ensures Convergence(s) == Phase.Converged <==> Finished(s)
    ensures Convergence(s) == Progressing <==> !GivenUp(s) && !Finished(s)
  {
  }

  // ---------- A release ----------

  function Rank(p: Phase): nat {
    match p
    case Converged => 0
    case Progressing => 1
    case Wedged => 2
  }

  /* Wedged if any service is given up on, converged only if there are services and all are finished. */
  ghost function RollupPhase(states: seq<ServiceState>): Phase {
    if exists i :: 0 <= i < |states| && GivenUp(states[i]) then Wedged
    else if states == [] || exists i :: 0 <= i < |states| && !Finished(states[i]) then Progressing
    else Phase.Converged
  }

  /* The first service to blame for that. */
  ghost predicate IsCulprit(states: seq<ServiceState>, culprit: int) {
    match RollupPhase(states)
    case Converged => culprit == -1
    case Wedged =>
      0 <= culprit < |states| && GivenUp(states[culprit]) && forall i :: 0 <= i < culprit ==> !GivenUp(states[i])
    case Progressing =>
      if states == [] then culprit == -1
      else 0 <= culprit < |states| && !Finished(states[culprit]) && forall i :: 0 <= i < culprit ==> Finished(states[i])
  }

  method Rollup(states: seq<ServiceState>) returns (p: Phase, culprit: int)
    ensures p == RollupPhase(states)
    ensures IsCulprit(states, culprit)
  {
    if |states| == 0 {
      return Progressing, -1;
    }
    var worst := Phase.Converged;
    culprit := -1;
    for i := 0 to |states|
      invariant if i == 0 then worst == Phase.Converged && culprit == -1
                else worst == RollupPhase(states[..i]) && IsCulprit(states[..i], culprit)
    {
      var c := Convergence(states[i]);
      RollupNext(states[..i], states[i], culprit, i);
      assert states[..i + 1] == states[..i] + [states[i]];
      if Rank(c) > Rank(worst) {
        worst, culprit := c, i;
      }
    }
    assert states[..|states|] == states;
    p := worst;
  }

  /* One service more makes things worse only when it ranks worse. */
  lemma RollupNext(states: seq<ServiceState>, s: ServiceState, culprit: int, i: nat)
    requires i == |states| && (states == [] || IsCulprit(states, culprit))
    ensures var was := if states == [] then Phase.Converged else RollupPhase(states);
            var worse := Rank(Convergence(s)) > Rank(was);
            && RollupPhase(states + [s]) == (if worse then Convergence(s) else was)
            && IsCulprit(states + [s], if worse then i else if states == [] then -1 else culprit)
  {
    hide Convergence, GivenUp, Finished;
    ConvergenceMeans(s);
    GivenUpNotFinished(s);
    var more := states + [s];
    assert more[i] == s;
    assert forall k :: 0 <= k < i ==> more[k] == states[k];
    forall k | 0 <= k < i ensures !(GivenUp(states[k]) && Finished(states[k])) { GivenUpNotFinished(states[k]); }
    if k :| 0 <= k < |states| && GivenUp(states[k]) { assert GivenUp(more[k]); }
    if k :| 0 <= k < |states| && !Finished(states[k]) { assert !Finished(more[k]); }
  }

  lemma GivenUpNotFinished(s: ServiceState)
    ensures !(GivenUp(s) && Finished(s))
  {
  }

  // ---------- Time passing ----------

  /* Nothing but the tasks' ages moved on. */
  ghost predicate Older(s: ServiceState, t: ServiceState) {
    t == s.(newestTaskAge := t.newestTaskAge) && s.newestTaskAge <= t.newestTaskAge
  }

  lemma AgeingNeverWorsens(before: seq<ServiceState>, after: seq<ServiceState>)
    requires |before| == |after| && forall i :: 0 <= i < |before| ==> Older(before[i], after[i])
    ensures Rank(RollupPhase(after)) <= Rank(RollupPhase(before))
  {
    forall i | 0 <= i < |before|
      ensures GivenUp(after[i]) <==> GivenUp(before[i])
      ensures Finished(before[i]) ==> Finished(after[i])
    {
      assert Older(before[i], after[i]);
    }
    if RollupPhase(after) == Wedged {
      var i :| 0 <= i < |after| && GivenUp(after[i]);
      assert GivenUp(before[i]);
    }
    if RollupPhase(before) == Phase.Converged {
      assert forall i :: 0 <= i < |after| ==> Finished(after[i]) && Finished(before[i]) && !GivenUp(before[i]);
    }
  }

  // ---------- Read off a snapshot ----------

  /* What a poll says of a service, in terms of its tasks. */
  lemma StateSays(f: Counting.Facts, svc: Service, tasks: seq<Task>, nodes: seq<Node>, now: Time)
    requires Counting.Counted(f, svc, tasks, nodes, now)
    ensures var s := StateOf(f);
            && s.name == svc.name && s.desired == Counting.Target(svc, nodes)
            && s.running == |Counting.RunningSlots(svc, tasks, nodes)|
            && s.starting == |Counting.StartingSlots(svc, tasks, nodes)|
            && s.taskSpecChanged == (svc.previousTaskSpec.Some? && svc.previousTaskSpec.value != svc.taskSpec)
            && s.updateStartedAt ==
                 if svc.update.Some? && svc.update.value.startedAt.Some? then svc.update.value.startedAt.value else 0
  {
  }

  /* And what its phase means: the service is given up on exactly when a one-shot's task died short of the
     target, an update is paused that tasks of the new spec have not outgrown, or an update was rolled back;
     it is converged exactly when it met its target in no update or rollback and its youngest task outlived
     the window. */
  lemma PhaseSays(f: Counting.Facts, svc: Service, tasks: seq<Task>, nodes: seq<Node>, now: Time)
    requires Counting.Counted(f, svc, tasks, nodes, now)
    ensures var running := if Counting.SwarmJob(svc) then 0 else |Counting.RunningSlots(svc, tasks, nodes)|;
            var target := Counting.Target(svc, nodes);
            var short := running + |Counting.CompletedSlots(svc, tasks, nodes)| < target;
            var update := if svc.update.Some? then svc.update.value.state else NoUpdate;
            var outgrown :=
              if Counting.OneShot(svc) then !short else |Counting.CurrentSlots(svc, tasks, nodes)| >= target;
            && (Convergence(StateOf(f)) == Wedged <==>
                  || (short && Counting.DeadSlots(svc, tasks, nodes) != {})
                  || (update == Paused && !outgrown)
                  || update in {RollbackPaused, RollbackCompleted})
            && (Convergence(StateOf(f)) == Phase.Converged <==>
                  && !short && (update in {NoUpdate, UpdateState.Completed} || (update == Paused && outgrown))
                  && f.newestTaskAge >= 5_000_000_000
                  && (svc.monitor.Some? ==> f.newestTaskAge >= svc.monitor.value))
  {
    hide Counting.RunningSlots, Counting.CompletedSlots, Counting.CurrentSlots, Counting.DeadSlots, Counting.Target;
    hide Counting.OneShot, Counting.SwarmJob, Convergence;
    ConvergenceMeans(StateOf(f));
  }

  /* Read off a snapshot, a converged service that is no job and carries a pause runs its current
     generation in at least as many slots as it wants. */
  lemma OutgrownPause(c: Counting.Tally, f: Counting.Facts, svc: Service, tasks: seq<Task>, nodes: seq<Node>, now: Time)
    requires Counting.Describes(f, svc, nodes) && Counting.Carries(f, c, now)
    requires Counting.TallyOfService(c, svc, tasks, nodes)
    requires Convergence(StateOf(f)) == Phase.Converged && f.updateState == Paused && !f.job
    ensures |Counting.UpToDateSlots(svc, tasks)| >= Counting.Target(svc, nodes)
  {
    hide Counting.Target, Counting.TallyOfService, Counting.UpToDateSlots, Counting.OneShot;
    ConvergenceMeans(StateOf(f));
    Counting.WaitWithinView(c, svc, tasks, nodes);
  }
}
