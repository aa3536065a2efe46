/** Convergence facts per service (docker/convergence.go): an unordered task list, with its history,
    reduced to counts over slots. */
module Counting {
  import opened Text
  import opened Tasks

  const DEFAULT_MONITOR: int := 5_000_000_000 // nanoseconds

  /* What the counting loop makes of one slot. Fresh and Stale are running tasks of the current
     and of an outgoing generation. */
  datatype Verdict = Skipped | Coming | Stale | Fresh | Done | Dead

  datatype Facts = Facts(
    id: string, name: string, running: nat, starting: nat, upToDate: nat, desired: nat, completed: nat,
    job: bool, nativeJob: bool, updateState: UpdateState, monitor: int, newestTaskAge: nat,
    deadTask: bool, deadTaskReason: string, taskSpecChanged: bool, updateStartedAt: Time)

  // ---------- Reading a service ----------

  predicate IsNativeJob(svc: Service) { svc.mode.ReplicatedJob? || svc.mode.GlobalJob? }

  predicate IsJob(svc: Service) {
    IsNativeJob(svc) || (svc.restart.Some? && svc.restart.value.condition != Any)
  }

  predicate NeverRestarts(svc: Service) {
    svc.restart.Some? && svc.restart.value.condition == Never
  }

  predicate PerNode(svc: Service) { svc.mode.Global? || svc.mode.GlobalJob? }

  predicate InCurrentIteration(svc: Service, t: Task) {
    svc.jobIteration.Some? && t.iteration.Some? && t.iteration == svc.jobIteration
  }

  predicate IsDeadState(s: TaskState) { s == Failed || s == Rejected || s == Orphaned }

  predicate ComingUp(s: TaskState) {
    s == Assigned || s == Accepted || s == Preparing || s == Ready || s == Starting
  }

  function Monitor(svc: Service): int { if svc.monitor.Some? then svc.monitor.value else 0 }

  function Max(a: int, b: int): int { if a < b then b else a }

  /* The slot rests between scheduled runs only when the restart delay outlasts the window. */
  predicate Rests(svc: Service) {
    && !IsJob(svc)
    && svc.restart.Some? && svc.restart.value.delay.Some?
    && svc.restart.value.delay.value > Max(Monitor(svc), DEFAULT_MONITOR)
  }

  /* The instant a task must postdate to belong to the current generation. */
  function RolloutStart(svc: Service): Time {
    if svc.update.Some? && (svc.update.value.state == Updating || svc.update.value.state == Paused)
       && svc.update.value.startedAt.Some?
    then svc.update.value.startedAt.value else 0
  }

  predicate Schedulable(n: Node) { !n.drained && !n.down }

  function SchedulableNodes(nodes: seq<Node>): seq<Node> {
    if nodes == [] then []
    else (if Schedulable(nodes[0]) then [nodes[0]] else []) + SchedulableNodes(nodes[1..])
  }

  function NodeIds(nodes: seq<Node>): set<string> { set n | n in nodes :: n.id }

  /* How many of the nodes the placement constraints admit. */
  function Eligible(svc: Service, nodes: seq<Node>): nat {
    if svc.admitted.None? then |nodes|
    else if nodes == [] then 0
    else (if nodes[0].id in svc.admitted.value then 1 else 0) + Eligible(svc, nodes[1..])
  }

  function Desired(svc: Service, nodes: seq<Node>): nat {
    match svc.mode
    case Replicated(Some(n)) => n
    case ReplicatedJob(Some(n)) => n
    case Global => Eligible(svc, nodes)
    case GlobalJob => Eligible(svc, nodes)
    case _ => 1
  }

  // ---------- Judging a slot ----------

  /* The arms of the counting loop, for the task that stands for a slot. */
  function Judge(svc: Service, t: Task, resting: bool, active: set<string>): Verdict {
    var terminal := IsJob(svc) && NeverRestarts(svc);
    var finished := IsJob(svc) && !PerNode(svc) && (t.state == Complete || (terminal && IsDeadState(t.state)));
    if t.node !in active && !finished then Skipped
    else if IsNativeJob(svc) && !InCurrentIteration(svc, t) then Skipped
    else if (t.desired == Running || (IsNativeJob(svc) && t.desired == Complete)) && t.state == Running then
      if t.created > RolloutStart(svc) then Fresh else Stale
    else if t.desired == Running && ComingUp(t.state) then Coming
    else if resting || (IsJob(svc) && t.state == Complete) then Done
    else if terminal && IsDeadState(t.state) then Dead
    else Skipped
  }

  /* The task a slot is judged by: its newest, or the run it rests after. */
  function Standing(svc: Service, tasks: seq<Task>, newest: Task): (Task, bool) {
    if Rests(svc) then RestingTask(newest, tasks) else (newest, false)
  }

  function JudgeNewest(svc: Service, tasks: seq<Task>, active: set<string>, newest: Task): Verdict {
    var (t, resting) := Standing(svc, tasks, newest);
    Judge(svc, t, resting, active)
  }

  /* The verdict on each slot, and the creation time it counts with. */
  ghost function Verdicts(svc: Service, tasks: seq<Task>, active: set<string>): map<string, Verdict> {
    map key | key in Slots(svc.id, tasks) ::
      FullSlot(svc.id, key, tasks);
      JudgeNewest(svc, tasks, active, NewestTask(svc.id, key, tasks).value)
  }

  ghost function Ages(svc: Service, tasks: seq<Task>): map<string, Time> {
    map key | key in Slots(svc.id, tasks) ::
      FullSlot(svc.id, key, tasks);
      Standing(svc, tasks, NewestTask(svc.id, key, tasks).value).0.created
  }

  /* What the task a slot is judged by says went wrong. */
  ghost function Errors(svc: Service, tasks: seq<Task>): map<string, string> {
    map key | key in Slots(svc.id, tasks) ::
      FullSlot(svc.id, key, tasks);
      Standing(svc, tasks, NewestTask(svc.id, key, tasks).value).0.err
  }

  /* A reason one of the dead tasks gives, if any of them gives one. */
  ghost predicate IsReason(
    reason: string, verdicts: map<string, Verdict>, errors: map<string, string>, seen: set<string>)
    requires verdicts.Keys == errors.Keys
  {
    if reason == "" then forall key :: key in Having(verdicts, seen, Dead) ==> errors[key] == ""
    else exists key :: key in Having(verdicts, seen, Dead) && errors[key] == reason
  }

  /* The slots among some that got this verdict. */
  ghost function Having(verdicts: map<string, Verdict>, slots: set<string>, v: Verdict): set<string> {
    set key | key in slots && key in verdicts && verdicts[key] == v
  }

  /* A task on its way up, or one left out, has no part in the monitor window. */
  predicate InWindow(v: Verdict) { v != Skipped && v != Coming }

  /* t is the latest creation time among the slots whose window matters; 0 when there is none. */
  ghost predicate IsNewestOf(verdicts: map<string, Verdict>, ages: map<string, Time>, slots: set<string>, t: Time)
    requires verdicts.Keys == ages.Keys
  {
    && (forall key :: key in slots && key in verdicts && InWindow(verdicts[key]) ==> ages[key] <= t)
    && (t > 0 ==> exists key :: key in slots && key in verdicts && InWindow(verdicts[key]) && ages[key] == t)
  }

  function AgeSince(t: Time, now: Time): nat {
    if t == 0 || now < t then 0 else now - t
  }

  /* What the loop accumulates. */
  datatype Tally = Tally(running: nat, starting: nat, upToDate: nat, completed: nat, dead: nat, newest: Time)

  /* The tally of the slots seen so far. */
  ghost predicate TallyOf(c: Tally, verdicts: map<string, Verdict>, ages: map<string, Time>, seen: set<string>)
    requires verdicts.Keys == ages.Keys
  {
    && c.running == |Having(verdicts, seen, Stale)| + |Having(verdicts, seen, Fresh)|
    && c.upToDate == |Having(verdicts, seen, Fresh)|
    && c.starting == |Having(verdicts, seen, Coming)|
    && c.completed == |Having(verdicts, seen, Done)|
    && c.dead == |Having(verdicts, seen, Dead)|
    && IsNewestOf(verdicts, ages, seen, c.newest)
  }

  /* What one service's facts say beyond the counts. */
  ghost predicate Describes(f: Facts, svc: Service, nodes: seq<Node>) {
    && f.id == svc.id && f.name == svc.name
    && f.desired == Target(svc, nodes)
    && f.job == OneShot(svc) && f.nativeJob == SwarmJob(svc)
    && f.updateState == (if svc.update.Some? then svc.update.value.state else NoUpdate)
    && f.monitor == (if svc.monitor.Some? then svc.monitor.value else 0)
    && f.taskSpecChanged == (svc.previousTaskSpec.Some? && svc.previousTaskSpec.value != svc.taskSpec)
    && f.updateStartedAt ==
         (if svc.update.Some? && svc.update.value.startedAt.Some? then svc.update.value.startedAt.value else 0)
  }

  /* And the counts. The reason is that of one of the dead tasks, which one depending on the order
     the slots came in. */
  ghost predicate Carries(f: Facts, c: Tally, now: Time) {
    && f.running == c.running && f.upToDate == c.upToDate && f.starting == c.starting && f.completed == c.completed
    && f.deadTask == (c.dead > 0)
    && f.newestTaskAge == AgeSince(c.newest, now)
  }

  /* The facts hold exactly what the slots of the service say. */
  ghost predicate Tallies(f: Facts, svc: Service, tasks: seq<Task>, nodes: seq<Node>, now: Time) {
    && Describes(f, svc, nodes)
    && (exists c :: Carries(f, c, now) && TallyOfService(c, svc, tasks, nodes))
    && ReasonOfService(f.deadTaskReason, svc, tasks, nodes)
  }

  ghost predicate ReasonOfService(reason: string, svc: Service, tasks: seq<Task>, nodes: seq<Node>) {
    var verdicts := Verdicts(svc, tasks, NodeIds(SchedulableNodes(nodes)));
    IsReason(reason, verdicts, Errors(svc, tasks), verdicts.Keys)
  }

  ghost predicate TallyOfService(c: Tally, svc: Service, tasks: seq<Task>, nodes: seq<Node>) {
    var verdicts := Verdicts(svc, tasks, NodeIds(SchedulableNodes(nodes)));
    TallyOf(c, verdicts, Ages(svc, tasks), verdicts.Keys)
  }

  lemma HavingAdd(verdicts: map<string, Verdict>, seen: set<string>, key: string, v: Verdict)
    requires key in verdicts && key !in seen
    ensures |Having(verdicts, seen + {key}, v)| == |Having(verdicts, seen, v)| + if verdicts[key] == v then 1 else 0
  {
    assert Having(verdicts, seen + {key}, v) == Having(verdicts, seen, v) + if verdicts[key] == v then {key} else {};
  }

  /* What one turn of the loop adds. */
  function Add(c: Tally, verdict: Verdict, created: Time): Tally {
    var later := if InWindow(verdict) && created > c.newest then created else c.newest;
    match verdict
    case Skipped => c
    case Coming => c.(starting := c.starting + 1)
    case Stale => c.(running := c.running + 1, newest := later)
    case Fresh => c.(running := c.running + 1, upToDate := c.upToDate + 1, newest := later)
    case Done => c.(completed := c.completed + 1, newest := later)
    case Dead => c.(dead := c.dead + 1, newest := later)
  }

  lemma AddKeepsTally(c: Tally, verdicts: map<string, Verdict>, ages: map<string, Time>, seen: set<string>, key: string)
    requires verdicts.Keys == ages.Keys && key in verdicts && key !in seen
    requires TallyOf(c, verdicts, ages, seen)
    ensures TallyOf(Add(c, verdicts[key], ages[key]), verdicts, ages, seen + {key})
  {
    HavingAdd(verdicts, seen, key, Stale);
    HavingAdd(verdicts, seen, key, Fresh);
    HavingAdd(verdicts, seen, key, Coming);
    HavingAdd(verdicts, seen, key, Done);
    HavingAdd(verdicts, seen, key, Dead);
    NewestAdd(c, verdicts, ages, seen, key);
  }

  lemma NewestAdd(c: Tally, verdicts: map<string, Verdict>, ages: map<string, Time>, seen: set<string>, key: string)
    requires verdicts.Keys == ages.Keys && key in verdicts && key !in seen
    requires IsNewestOf(verdicts, ages, seen, c.newest)
    ensures IsNewestOf(verdicts, ages, seen + {key}, Add(c, verdicts[key], ages[key]).newest)
  {
    if c.newest > 0 {
      var at :| at in seen && at in verdicts && InWindow(verdicts[at]) && ages[at] == c.newest;
      assert at in seen + {key};
    }
  }

  /* The counting loop for one service. The slots come in any order. */
  method CountService(svc: Service, tasks: seq<Task>, nodes: seq<Node>, now: Time) returns (f: Facts)
    ensures Tallies(f, svc, tasks, nodes, now)
    ensures Counted(f, svc, tasks, nodes, now)
  {
    hide Verdicts, Ages, Errors, TallyOf, IsReason, Counted, SchedulableNodes, Desired, Target, IsJob, OneShot;
    JobsAre(svc);
    TargetIsDesired(svc, nodes);
    var schedulable := SchedulableNodes(nodes);
    var c, deadReason := CountSlots(svc, tasks, NodeIds(schedulable));
    f := Facts(
      svc.id, svc.name, c.running, c.starting, c.upToDate, Desired(svc, schedulable), c.completed,
      IsJob(svc), IsNativeJob(svc), if svc.update.Some? then svc.update.value.state else NoUpdate,
      Monitor(svc), AgeSince(c.newest, now), c.dead > 0, deadReason,
      svc.previousTaskSpec.Some? && svc.previousTaskSpec.value != svc.taskSpec,
      if svc.update.Some? && svc.update.value.startedAt.Some? then svc.update.value.startedAt.value else 0);
    assert Carries(f, c, now) && TallyOfService(c, svc, tasks, nodes);
    TalliesMean(f, svc, tasks, nodes, now);
  }

  method CountSlots(svc: Service, tasks: seq<Task>, active: set<string>) returns (c: Tally, deadReason: string)
    ensures TallyOf(c, Verdicts(svc, tasks, active), Ages(svc, tasks), Verdicts(svc, tasks, active).Keys)
    ensures IsReason(deadReason, Verdicts(svc, tasks, active), Errors(svc, tasks), Verdicts(svc, tasks, active).Keys)
  {
    var slots := NewestTaskPerSlot(svc.id, tasks);
    c, deadReason := JudgeSlots(
      svc, tasks, active, slots, Verdicts(svc, tasks, active), Ages(svc, tasks), Errors(svc, tasks));
  }

  method JudgeSlots(svc: Service, tasks: seq<Task>, active: set<string>, slots: map<string, Task>,
                    ghost verdicts: map<string, Verdict>, ghost ages: map<string, Time>,
                    ghost errors: map<string, string>)
      returns (c: Tally, deadReason: string)
    requires slots.Keys == verdicts.Keys == ages.Keys == errors.Keys
    requires forall key {:trigger slots[key]} :: key in slots ==>
      Judged(svc, tasks, active, slots[key], verdicts[key], ages[key], errors[key])
    ensures TallyOf(c, verdicts, ages, verdicts.Keys) && IsReason(deadReason, verdicts, errors, verdicts.Keys)
  {
    hide TallyOf, Judge, Standing, IsReason;
    c, deadReason := Tally(0, 0, 0, 0, 0, 0), "";
    ghost var seen: set<string> := {};
    NothingSeen(verdicts, ages, errors);
    var left := slots.Keys;
    while left != {}
      invariant forall key :: key in verdicts <==> key in left || key in seen
      invariant forall key :: key in left ==> key !in seen
      invariant TallyOf(c, verdicts, ages, seen) && IsReason(deadReason, verdicts, errors, seen)
      decreases |left|
    {
      var key :| key in left;
      var verdict, created, err := JudgeSlot(svc, tasks, active, slots[key]);
      AddKeepsTally(c, verdicts, ages, seen, key);
      AddKeepsReason(deadReason, verdicts, errors, seen, key);
      c := Add(c, verdict, created);
      if verdict == Dead && deadReason == "" {
        deadReason := err;
      }
      left := left - {key};
      seen := seen + {key};
    }
    assert seen == verdicts.Keys;
  }

  lemma NothingSeen(verdicts: map<string, Verdict>, ages: map<string, Time>, errors: map<string, string>)
    requires verdicts.Keys == ages.Keys == errors.Keys
    ensures TallyOf(Tally(0, 0, 0, 0, 0, 0), verdicts, ages, {}) && IsReason("", verdicts, errors, {})
  {
  }

  lemma AddKeepsReason(
    reason: string, verdicts: map<string, Verdict>, errors: map<string, string>, seen: set<string>, key: string)
    requires verdicts.Keys == errors.Keys && key in verdicts && key !in seen
    requires IsReason(reason, verdicts, errors, seen)
    ensures IsReason(
      if verdicts[key] == Dead && reason == "" then errors[key] else reason, verdicts, errors, seen + {key})
  {
    assert Having(verdicts, seen + {key}, Dead)
        == Having(verdicts, seen, Dead) + if verdicts[key] == Dead then {key} else {};
  }

  ghost predicate Judged(
    svc: Service, tasks: seq<Task>, active: set<string>, newest: Task, verdict: Verdict, age: Time, err: string)
  {
    && verdict == JudgeNewest(svc, tasks, active, newest)
    && age == Standing(svc, tasks, newest).0.created && err == Standing(svc, tasks, newest).0.err
  }

  method JudgeSlot(svc: Service, tasks: seq<Task>, active: set<string>, newest: Task)
      returns (verdict: Verdict, created: Time, err: string)
    ensures Judged(svc, tasks, active, newest, verdict, created, err)
  {
    var t, resting := newest, false;
    if Rests(svc) {
      t, resting := RestingRun(t, tasks);
    }
    return Judge(svc, t, resting, active), t.created, t.err;
  }

  /* Every service of a stack, in the order the snapshot lists them. */
  method StackConvergence(snap: Snapshot, stack: string, now: Time) returns (out: seq<Facts>)
    ensures |out| == |OfStack(snap.services, stack)|
    ensures forall i :: 0 <= i < |out| ==>
      Counted(out[i], OfStack(snap.services, stack)[i], snap.tasks, snap.nodes, now)
  {
    hide Counted, Tallies;
    out := [];
    for i := 0 to |snap.services|
      invariant |out| == |OfStack(snap.services[..i], stack)|
      invariant forall k :: 0 <= k < |out| ==>
                  Counted(out[k], OfStack(snap.services[..i], stack)[k], snap.tasks, snap.nodes, now)
    {
      var svc := snap.services[i];
      assert snap.services[..i + 1][..i] == snap.services[..i];
      if svc.stack != stack {
        continue;
      }
      var f := CountService(svc, snap.tasks, snap.nodes, now);
      out := out + [f];
    }
    assert snap.services[..|snap.services|] == snap.services;
  }

  ghost function OfStack(services: seq<Service>, stack: string): seq<Service> {
    if services == [] then []
    else
      var last := services[|services| - 1];
      OfStack(services[..|services| - 1], stack) + if last.stack == stack then [last] else []
  }

  // ---------- What the counts mean ----------

  /* One of swarm's own jobs. */
  ghost predicate SwarmJob(svc: Service) { svc.mode.ReplicatedJob? || svc.mode.GlobalJob? }

  /* And anything else swarm does not start again after it exits cleanly. */
  ghost predicate OneShot(svc: Service) {
    SwarmJob(svc) || (svc.restart.Some? && svc.restart.value.condition in {Never, OnFailure})
  }

  ghost predicate TakesTasks(n: Node) { !n.drained && !n.down }

  ghost predicate OnSuchNode(nodes: seq<Node>, id: string) {
    exists i :: 0 <= i < |nodes| && nodes[i].id == id && TakesTasks(nodes[i])
  }

  /* How many tasks a service wants: what it declares; one for each node that takes tasks and that its
     constraints admit, when it runs on every node; or one. */
  ghost function Target(svc: Service, nodes: seq<Node>): nat {
    match svc.mode
    case Replicated(n) => if n.Some? then n.value else 1
    case ReplicatedJob(n) => if n.Some? then n.value else 1
    case Global => |Places(svc, nodes)|
    case GlobalJob => |Places(svc, nodes)|
  }

  ghost function Places(svc: Service, nodes: seq<Node>): set<nat> {
    set i: nat | i < |nodes| && TakesTasks(nodes[i]) && (svc.admitted.Some? ==> nodes[i].id in svc.admitted.value)
  }

  /* A service that runs again and again, with a pause longer than swarm's window and its own. */
  ghost predicate Scheduled(svc: Service) {
    && !OneShot(svc) && svc.restart.Some? && svc.restart.value.delay.Some?
    && svc.restart.value.delay.value > 5_000_000_000
    && (svc.monitor.Some? ==> svc.restart.value.delay.value > svc.monitor.value)
  }

  /* The task a slot is judged by: the newest; or, in a pause between two runs, the run that completed. */
  ghost function StandIn(svc: Service, tasks: seq<Task>, key: string): (r: (Task, bool))
    requires key in Slots(svc.id, tasks)
  {
    FullSlot(svc.id, key, tasks);
    var n := NewestTask(svc.id, key, tasks).value;
    var p := PreviousTask(n, tasks);
    if Scheduled(svc) && n.desired == Ready && p.Some? && p.value.state == Complete then (p.value, true) else (n, false)
  }

  /* A job's tasks count in its current run only. */
  ghost predicate OfThisRun(svc: Service, t: Task) {
    SwarmJob(svc) ==> svc.jobIteration.Some? && t.iteration == svc.jobIteration
  }

  /* Running, and meant to. */
  ghost predicate Runs(svc: Service, nodes: seq<Node>, t: Task) {
    && t.state == Running && (t.desired == Running || (SwarmJob(svc) && t.desired == Complete))
    && OnSuchNode(nodes, t.node) && OfThisRun(svc, t)
  }

  /* Taken by a node and meant to run, but not running yet. */
  ghost predicate Starts(svc: Service, nodes: seq<Node>, t: Task) {
    && t.desired == Running && t.state in {Assigned, Accepted, Preparing, Ready, Starting}
    && OnSuchNode(nodes, t.node) && OfThisRun(svc, t)
  }

  /* A finished task of a replicated one-shot stays counted whatever became of its node. */
  ghost predicate OutlivesNode(svc: Service) { OneShot(svc) && !svc.mode.Global? && !svc.mode.GlobalJob? }

  ghost predicate Completes(svc: Service, nodes: seq<Node>, t: Task, resting: bool) {
    && t.state == Complete && (resting || OneShot(svc))
    && (OnSuchNode(nodes, t.node) || OutlivesNode(svc)) && OfThisRun(svc, t)
  }

  /* Ended without completing, where swarm starts nothing in its place. */
  ghost predicate Died(svc: Service, nodes: seq<Node>, t: Task) {
    && t.state in {Failed, Rejected, Orphaned} && svc.restart.Some? && svc.restart.value.condition == Never
    && (OnSuchNode(nodes, t.node) || OutlivesNode(svc)) && OfThisRun(svc, t)
  }

  /* Created since the update began that is under way or paused, if there is one. */
  ghost predicate Current(svc: Service, t: Task) {
    t.created > if svc.update.Some? && svc.update.value.state in {Updating, Paused} && svc.update.value.startedAt.Some?
                then svc.update.value.startedAt.value else 0
  }

  ghost function RunningSlots(svc: Service, tasks: seq<Task>, nodes: seq<Node>): set<string> {
    set key | key in Slots(svc.id, tasks) && Runs(svc, nodes, StandIn(svc, tasks, key).0)
  }

  ghost function CurrentSlots(svc: Service, tasks: seq<Task>, nodes: seq<Node>): set<string> {
    set key | key in RunningSlots(svc, tasks, nodes) && Current(svc, StandIn(svc, tasks, key).0)
  }

  ghost function StartingSlots(svc: Service, tasks: seq<Task>, nodes: seq<Node>): set<string> {
    set key | key in Slots(svc.id, tasks) && Starts(svc, nodes, StandIn(svc, tasks, key).0)
  }

  ghost function CompletedSlots(svc: Service, tasks: seq<Task>, nodes: seq<Node>): set<string> {
    set key | key in Slots(svc.id, tasks) &&
      Completes(svc, nodes, StandIn(svc, tasks, key).0, StandIn(svc, tasks, key).1)
  }

  ghost function DeadSlots(svc: Service, tasks: seq<Task>, nodes: seq<Node>): set<string> {
    set key | key in Slots(svc.id, tasks) && Died(svc, nodes, StandIn(svc, tasks, key).0)
  }

  /* The slots whose task swarm still watches, or that have ended. */
  ghost function WindowSlots(svc: Service, tasks: seq<Task>, nodes: seq<Node>): (r: set<string>)
    ensures r <= Slots(svc.id, tasks)
  {
    RunningSlots(svc, tasks, nodes) + CompletedSlots(svc, tasks, nodes) + DeadSlots(svc, tasks, nodes)
  }

  function Elapsed(since: Time, now: Time): nat { if since < now then now - since else 0 }

  /* The age of the newest task among some slots; zero when none of them has a creation time. */
  ghost predicate IsYoungest(age: nat, svc: Service, tasks: seq<Task>, slots: set<string>, now: Time)
    requires slots <= Slots(svc.id, tasks)
  {
    && (forall key :: key in slots && StandIn(svc, tasks, key).0.created > 0 ==>
          age <= Elapsed(StandIn(svc, tasks, key).0.created, now))
    && if forall key :: key in slots ==> StandIn(svc, tasks, key).0.created == 0 then age == 0
       else exists key :: key in slots && StandIn(svc, tasks, key).0.created > 0
                          && age == Elapsed(StandIn(svc, tasks, key).0.created, now)
  }

  /* What one of the dead tasks says went wrong, if any of them says anything. */
  ghost predicate Explains(reason: string, svc: Service, tasks: seq<Task>, nodes: seq<Node>) {
    if reason == "" then forall key :: key in DeadSlots(svc, tasks, nodes) ==> StandIn(svc, tasks, key).0.err == ""
    else exists key :: key in DeadSlots(svc, tasks, nodes) && StandIn(svc, tasks, key).0.err == reason
  }

  /* The facts of a service, in terms of its tasks. */
  ghost predicate Counted(f: Facts, svc: Service, tasks: seq<Task>, nodes: seq<Node>, now: Time) {
    && Describes(f, svc, nodes)
    && f.running == |RunningSlots(svc, tasks, nodes)| && f.upToDate == |CurrentSlots(svc, tasks, nodes)|
    && f.starting == |StartingSlots(svc, tasks, nodes)| && f.completed == |CompletedSlots(svc, tasks, nodes)|
    && f.deadTask == (DeadSlots(svc, tasks, nodes) != {})
    && Explains(f.deadTaskReason, svc, tasks, nodes)
    && IsYoungest(f.newestTaskAge, svc, tasks, WindowSlots(svc, tasks, nodes), now)
  }

  lemma JobsAre(svc: Service)
    ensures IsNativeJob(svc) == SwarmJob(svc) && IsJob(svc) == OneShot(svc) && Rests(svc) == Scheduled(svc)
  {
  }

  lemma {:induction false} ActiveAre(nodes: seq<Node>, id: string)
    ensures id in NodeIds(SchedulableNodes(nodes)) <==> OnSuchNode(nodes, id)
  {
    if nodes != [] {
      ActiveAre(nodes[1..], id);
      var rest := SchedulableNodes(nodes[1..]);
      if id in NodeIds(SchedulableNodes(nodes)) {
        var n :| n in SchedulableNodes(nodes) && n.id == id;
        if n in rest { assert id in NodeIds(rest); }
      }
      if id in NodeIds(rest) {
        var n :| n in rest && n.id == id;
        assert n in SchedulableNodes(nodes);
      }
      if i :| 0 <= i < |nodes| && nodes[i].id == id && TakesTasks(nodes[i]) {
        if i > 0 { assert nodes[1..][i - 1] == nodes[i]; } else { assert nodes[0] in SchedulableNodes(nodes); }
      }
    }
  }

  lemma {:induction false} TargetIsDesired(svc: Service, nodes: seq<Node>)
    ensures Desired(svc, SchedulableNodes(nodes)) == Target(svc, nodes)
  {
    if PerNode(svc) { PlacesAreEligible(svc, nodes); }
  }

  lemma {:induction false} PlacesAreEligible(svc: Service, nodes: seq<Node>)
    ensures Eligible(svc, SchedulableNodes(nodes)) == |Places(svc, nodes)|
  {
    if nodes == [] {
      assert Places(svc, nodes) == {};
    } else {
      PlacesAreEligible(svc, nodes[1..]);
      PlacesShift(svc, nodes);
      var all, rest := SchedulableNodes(nodes), SchedulableNodes(nodes[1..]);
      if Schedulable(nodes[0]) {
        assert all == [nodes[0]] + rest;
        assert all[0] == nodes[0] && all[1..] == rest;
      } else {
        assert all == rest;
      }
    }
  }

  ghost function Shifted(s: set<nat>): set<nat> { set i: nat | i in s :: i + 1 }

  lemma PlacesShift(svc: Service, nodes: seq<Node>)
    requires nodes != []
    ensures |Places(svc, nodes)| == |Places(svc, nodes[1..])| + if 0 in Places(svc, nodes) then 1 else 0
  {
    var places, rest := Places(svc, nodes), nodes[1..];
    var here: set<nat> := if 0 in places then {0} else {};
    forall i: nat | i > 0 ensures i in places <==> i in Shifted(Places(svc, rest)) {
      if i < |nodes| { assert nodes[i] == rest[i - 1]; }
      assert i in places <==> i - 1 in Places(svc, rest);
      assert i == (i - 1) + 1;
    }
    assert places == here + Shifted(Places(svc, rest));
    ShiftSize(Places(svc, rest));
    UnionSize(here, Shifted(Places(svc, rest)));
  }

  lemma {:induction false} ShiftSize(s: set<nat>)
    ensures |Shifted(s)| == |s|
  {
    if s == {} {
      assert Shifted(s) == {};
    } else {
      var x :| x in s;
      ShiftSize(s - {x});
      forall i: nat ensures i in Shifted(s) <==> i in Shifted(s - {x}) || i == x + 1 {
        if i in Shifted(s) && i != x + 1 { assert i - 1 in s - {x}; }
        if i in Shifted(s - {x}) { assert i - 1 in s; }
      }
      assert Shifted(s) == Shifted(s - {x}) + {x + 1};
    }
  }

  /* The arms of the counting loop, in terms of the task. */
  lemma JudgeMeans(svc: Service, nodes: seq<Node>, t: Task, resting: bool)
    requires resting ==> t.state == Complete && !OneShot(svc)
    ensures var v := Judge(svc, t, resting, NodeIds(SchedulableNodes(nodes)));
            && (v in {Fresh, Stale} <==> Runs(svc, nodes, t))
            && (v == Fresh <==> Runs(svc, nodes, t) && Current(svc, t))
            && (v == Coming <==> Starts(svc, nodes, t))
            && (v == Done <==> Completes(svc, nodes, t, resting))
            && (v == Dead <==> Died(svc, nodes, t))
  {
    hide OnSuchNode, NodeIds, SchedulableNodes;
    JobsAre(svc);
    ActiveAre(nodes, t.node);
  }

  /* Judging a slot says in which of these sets it is. */
  lemma VerdictMeans(svc: Service, tasks: seq<Task>, nodes: seq<Node>, key: string)
    requires key in Slots(svc.id, tasks)
    ensures var v := Verdicts(svc, tasks, NodeIds(SchedulableNodes(nodes)))[key];
            var (t, resting) := StandIn(svc, tasks, key);
            && (v in {Fresh, Stale} <==> Runs(svc, nodes, t))
            && (v == Fresh <==> Runs(svc, nodes, t) && Current(svc, t))
            && (v == Coming <==> Starts(svc, nodes, t))
            && (v == Done <==> Completes(svc, nodes, t, resting))
            && (v == Dead <==> Died(svc, nodes, t))
            && Ages(svc, tasks)[key] == t.created && Errors(svc, tasks)[key] == t.err
  {
    hide Judge, Runs, Starts, Completes, Died, Current, OneShot, Scheduled, Rests, NodeIds, SchedulableNodes;
    hide NewestTask, PreviousTask;
    FullSlot(svc.id, key, tasks);
    JobsAre(svc);
    var n := NewestTask(svc.id, key, tasks).value;
    var (t, resting) := StandIn(svc, tasks, key);
    StandInMeans(svc, tasks, key);
    JudgeMeans(svc, nodes, t, resting);
  }

  lemma StandInMeans(svc: Service, tasks: seq<Task>, key: string)
    requires key in Slots(svc.id, tasks)
    ensures NewestTask(svc.id, key, tasks).Some?
    ensures Standing(svc, tasks, NewestTask(svc.id, key, tasks).value) == StandIn(svc, tasks, key)
    ensures StandIn(svc, tasks, key).1 ==> StandIn(svc, tasks, key).0.state == Complete && !OneShot(svc)
  {
    hide OneShot, NewestTask, PreviousTask;
    FullSlot(svc.id, key, tasks);
    JobsAre(svc);
  }

  lemma CountsMean(c: Tally, svc: Service, tasks: seq<Task>, nodes: seq<Node>)
    requires TallyOfService(c, svc, tasks, nodes)
    ensures c.running == |RunningSlots(svc, tasks, nodes)| && c.upToDate == |CurrentSlots(svc, tasks, nodes)|
    ensures c.starting == |StartingSlots(svc, tasks, nodes)| && c.completed == |CompletedSlots(svc, tasks, nodes)|
    ensures (c.dead > 0) == (DeadSlots(svc, tasks, nodes) != {})
  {
    hide Runs, Starts, Completes, Died, Current, StandIn, Verdicts, Ages, SchedulableNodes, IsNewestOf;
    var verdicts := Verdicts(svc, tasks, NodeIds(SchedulableNodes(nodes)));
    VerdictKeys(svc, tasks, nodes);
    forall key | key in Slots(svc.id, tasks)
      ensures key in RunningSlots(svc, tasks, nodes) <==> verdicts[key] in {Fresh, Stale}
      ensures key in CurrentSlots(svc, tasks, nodes) <==> verdicts[key] == Fresh
      ensures key in StartingSlots(svc, tasks, nodes) <==> verdicts[key] == Coming
      ensures key in CompletedSlots(svc, tasks, nodes) <==> verdicts[key] == Done
      ensures key in DeadSlots(svc, tasks, nodes) <==> verdicts[key] == Dead
    {
      VerdictMeans(svc, tasks, nodes, key);
    }
    var s, f := Having(verdicts, verdicts.Keys, Stale), Having(verdicts, verdicts.Keys, Fresh);
    UnionSize(s, f);
    assert RunningSlots(svc, tasks, nodes) == s + f && CurrentSlots(svc, tasks, nodes) == f;
    assert StartingSlots(svc, tasks, nodes) == Having(verdicts, verdicts.Keys, Coming);
    assert CompletedSlots(svc, tasks, nodes) == Having(verdicts, verdicts.Keys, Done);
    assert DeadSlots(svc, tasks, nodes) == Having(verdicts, verdicts.Keys, Dead);
  }

  lemma VerdictKeys(svc: Service, tasks: seq<Task>, nodes: seq<Node>)
    ensures Verdicts(svc, tasks, NodeIds(SchedulableNodes(nodes))).Keys == Ages(svc, tasks).Keys == Slots(svc.id, tasks)
    ensures Errors(svc, tasks).Keys == Slots(svc.id, tasks)
  {
  }

  lemma YoungestMeans(c: Tally, svc: Service, tasks: seq<Task>, nodes: seq<Node>, now: Time)
    requires TallyOfService(c, svc, tasks, nodes)
    ensures IsYoungest(AgeSince(c.newest, now), svc, tasks, WindowSlots(svc, tasks, nodes), now)
  {
    hide Runs, Starts, Completes, Died, Current, StandIn, Verdicts, Ages, SchedulableNodes, Having, WindowSlots;
    hide InWindow;
    var verdicts := Verdicts(svc, tasks, NodeIds(SchedulableNodes(nodes)));
    var window := WindowSlots(svc, tasks, nodes);
    VerdictKeys(svc, tasks, nodes);
    forall key | key in Slots(svc.id, tasks)
      ensures key in window <==> InWindow(verdicts[key])
      ensures Ages(svc, tasks)[key] == StandIn(svc, tasks, key).0.created
    {
      WindowMeans(svc, tasks, nodes, key);
    }
    if c.newest > 0 {
      var key :| key in verdicts && InWindow(verdicts[key]) && Ages(svc, tasks)[key] == c.newest;
      assert key in window && StandIn(svc, tasks, key).0.created == c.newest;
    }
  }

  lemma WindowMeans(svc: Service, tasks: seq<Task>, nodes: seq<Node>, key: string)
    requires key in Slots(svc.id, tasks)
    ensures key in WindowSlots(svc, tasks, nodes) <==>
      InWindow(Verdicts(svc, tasks, NodeIds(SchedulableNodes(nodes)))[key])
    ensures Ages(svc, tasks)[key] == StandIn(svc, tasks, key).0.created
  {
    hide Runs, Starts, Completes, Died, Current, StandIn, Verdicts, Ages, SchedulableNodes;
    VerdictKeys(svc, tasks, nodes);
    VerdictMeans(svc, tasks, nodes, key);
  }

  /* So the facts a tally gives are those of the tasks. */
  lemma TalliesMean(f: Facts, svc: Service, tasks: seq<Task>, nodes: seq<Node>, now: Time)
    requires Tallies(f, svc, tasks, nodes, now)
    ensures Counted(f, svc, tasks, nodes, now)
  {
    hide RunningSlots, CurrentSlots, StartingSlots, CompletedSlots, DeadSlots, IsYoungest, TallyOfService, Describes;
    hide ReasonOfService, Explains;
    var c: Tally :| Carries(f, c, now) && TallyOfService(c, svc, tasks, nodes);
    CountsMean(c, svc, tasks, nodes);
    YoungestMeans(c, svc, tasks, nodes, now);
    ReasonMeans(f.deadTaskReason, svc, tasks, nodes);
  }

  lemma ReasonMeans(reason: string, svc: Service, tasks: seq<Task>, nodes: seq<Node>)
    requires ReasonOfService(reason, svc, tasks, nodes)
    ensures Explains(reason, svc, tasks, nodes)
  {
    hide Runs, Starts, Completes, Died, Current, StandIn, Verdicts, Ages, Errors, SchedulableNodes;
    var verdicts := Verdicts(svc, tasks, NodeIds(SchedulableNodes(nodes)));
    VerdictKeys(svc, tasks, nodes);
    forall key | key in Slots(svc.id, tasks)
      ensures key in DeadSlots(svc, tasks, nodes) <==> key in Having(verdicts, verdicts.Keys, Dead)
      ensures Errors(svc, tasks)[key] == StandIn(svc, tasks, key).0.err
    {
      VerdictMeans(svc, tasks, nodes, key);
    }
  }

  // ---------- What the counts do not depend on ----------

  /* Two task lists that agree on the newest task of every slot, and on the one before it. */
  ghost predicate SameTopTwo(service: string, tasks: seq<Task>, tasks': seq<Task>) {
    && Slots(service, tasks) == Slots(service, tasks')
    && forall key :: key in Slots(service, tasks) ==>
         && NewestTask(service, key, tasks) == NewestTask(service, key, tasks')
         && forall t :: NewestTask(service, key, tasks) == Some(t) ==> PreviousTask(t, tasks) == PreviousTask(t, tasks')
  }

  lemma SameTopTwoSameVerdicts(svc: Service, tasks: seq<Task>, tasks': seq<Task>, active: set<string>)
    requires SameTopTwo(svc.id, tasks, tasks')
    ensures Verdicts(svc, tasks, active) == Verdicts(svc, tasks', active)
    ensures Ages(svc, tasks) == Ages(svc, tasks') && Errors(svc, tasks) == Errors(svc, tasks')
  {
    forall key | key in Slots(svc.id, tasks)
      ensures Verdicts(svc, tasks, active)[key] == Verdicts(svc, tasks', active)[key]
      ensures Ages(svc, tasks)[key] == Ages(svc, tasks')[key]
      ensures Errors(svc, tasks)[key] == Errors(svc, tasks')[key]
    {
      FullSlot(svc.id, key, tasks);
      var t := NewestTask(svc.id, key, tasks).value;
      SameStanding(svc, tasks, tasks', t);
      assert Verdicts(svc, tasks, active)[key] == JudgeNewest(svc, tasks, active, t);
      assert Verdicts(svc, tasks', active)[key] == JudgeNewest(svc, tasks', active, t);
    }
  }

  lemma SameStanding(svc: Service, tasks: seq<Task>, tasks': seq<Task>, newest: Task)
    requires PreviousTask(newest, tasks) == PreviousTask(newest, tasks')
    ensures Standing(svc, tasks, newest) == Standing(svc, tasks', newest)
  {
  }

  /* Reordering, repeating or merging lists of the same tasks changes no fact. */
  lemma OrderDoesNotMatter(f: Facts, svc: Service, tasks: seq<Task>, tasks': seq<Task>, nodes: seq<Node>, now: Time)
    requires DistinctTimes(tasks)
    requires forall t :: t in tasks <==> t in tasks'
    ensures Tallies(f, svc, tasks, nodes, now) <==> Tallies(f, svc, tasks', nodes, now)
  {
    assert SameTopTwo(svc.id, tasks, tasks') by {
      forall key | key in Slots(svc.id, tasks)
        ensures NewestTask(svc.id, key, tasks) == NewestTask(svc.id, key, tasks')
        ensures forall t :: NewestTask(svc.id, key, tasks) == Some(t) ==>
          PreviousTask(t, tasks) == PreviousTask(t, tasks')
      {
        LatestOfSameTasks(tasks, tasks', svc.id, key, None);
        forall t | NewestTask(svc.id, key, tasks) == Some(t) ensures PreviousTask(t, tasks) == PreviousTask(t, tasks') {
          LatestOfSameTasks(tasks, tasks', t.service, SlotKey(t), Some(t.created));
        }
      }
    }
    SameTopTwoSameVerdicts(svc, tasks, tasks', NodeIds(SchedulableNodes(nodes)));
  }

  lemma PermutationDoesNotMatter(
    f: Facts, svc: Service, tasks: seq<Task>, tasks': seq<Task>, nodes: seq<Node>, now: Time)
    requires DistinctTimes(tasks) && multiset(tasks) == multiset(tasks')
    ensures Tallies(f, svc, tasks, nodes, now) <==> Tallies(f, svc, tasks', nodes, now)
  {
    assert forall t :: (t in tasks <==> t in multiset(tasks)) && (t in tasks' <==> t in multiset(tasks'));
    OrderDoesNotMatter(f, svc, tasks, tasks', nodes, now);
  }

  /* t is one of the two newest tasks of its slot. */
  ghost predicate TopTwo(t: Task, tasks: seq<Task>) {
    || NewestTask(t.service, SlotKey(t), tasks) == Some(t)
    || exists n :: NewestTask(t.service, SlotKey(t), tasks) == Some(n) && PreviousTask(n, tasks) == Some(t)
  }

  /* History does not matter: dropping a task below the two newest of its slot changes no fact. */
  lemma HistoryDoesNotMatter(f: Facts, svc: Service, a: seq<Task>, t: Task, b: seq<Task>, nodes: seq<Node>, now: Time)
    requires !TopTwo(t, a + [t] + b)
    ensures Tallies(f, svc, a + [t] + b, nodes, now) <==> Tallies(f, svc, a + b, nodes, now)
  {
    var full, less := a + [t] + b, a + b;
    forall key ensures NewestTask(svc.id, key, full) == NewestTask(svc.id, key, less) {
      NewestWithout(a, t, b, svc.id, key);
    }
    forall n | exists key :: NewestTask(svc.id, key, full) == Some(n)
      ensures PreviousTask(n, full) == PreviousTask(n, less)
    {
      var key :| NewestTask(svc.id, key, full) == Some(n);
      PreviousWithout(a, t, b, svc.id, key, n);
    }
    SlotsFromNewest(svc.id, full, less);
    SameTopTwoSameVerdicts(svc, full, less, NodeIds(SchedulableNodes(nodes)));
  }

  lemma NewestWithout(a: seq<Task>, t: Task, b: seq<Task>, service: string, key: string)
    requires !TopTwo(t, a + [t] + b)
    ensures NewestTask(service, key, a + [t] + b) == NewestTask(service, key, a + b)
  {
    LatestIsLatest(None, a + [t] + b, service, key, None);
    LatestWithout(a, t, b, service, key, None);
  }

  lemma PreviousWithout(a: seq<Task>, t: Task, b: seq<Task>, service: string, key: string, n: Task)
    requires !TopTwo(t, a + [t] + b) && NewestTask(service, key, a + [t] + b) == Some(n)
    ensures PreviousTask(n, a + [t] + b) == PreviousTask(n, a + b)
  {
    var full := a + [t] + b;
    LatestIsLatest(None, full, service, key, None);
    LatestIsLatest(None, full, n.service, SlotKey(n), Some(n.created));
    LatestWithout(a, t, b, n.service, SlotKey(n), Some(n.created));
  }

  lemma SlotsFromNewest(service: string, tasks: seq<Task>, tasks': seq<Task>)
    requires forall key :: NewestTask(service, key, tasks) == NewestTask(service, key, tasks')
    ensures Slots(service, tasks) == Slots(service, tasks')
  {
    forall key ensures key in Slots(service, tasks) <==> key in Slots(service, tasks') {
      if key in Slots(service, tasks) {
        FullSlot(service, key, tasks);
        LatestIsLatest(None, tasks', service, key, None);
      }
      if key in Slots(service, tasks') {
        FullSlot(service, key, tasks');
        LatestIsLatest(None, tasks, service, key, None);
      }
    }
  }

  // ---------- Bounds ----------

  lemma SubsetSize<T>(x: set<T>, y: set<T>)
    requires x <= y
    ensures |x| <= |y|
  {
    assert y == x + (y - x);
  }

  lemma UnionSize<T>(x: set<T>, y: set<T>)
    requires x !! y
    ensures |x + y| == |x| + |y|
  {
  }

  /* When every slot that is not skipped lies within some set, that set bounds the counts. */
  lemma CountedWithin(c: Tally, verdicts: map<string, Verdict>, ages: map<string, Time>, bound: set<string>)
    requires verdicts.Keys == ages.Keys && TallyOf(c, verdicts, ages, verdicts.Keys)
    requires forall key :: key in verdicts && verdicts[key] != Skipped ==> key in bound
    ensures c.upToDate <= c.running
    ensures c.running + c.starting + c.completed + c.dead <= |bound|
  {
    var all := verdicts.Keys;
    var s, f, u := Having(verdicts, all, Stale), Having(verdicts, all, Fresh), Having(verdicts, all, Coming);
    var o, d := Having(verdicts, all, Done), Having(verdicts, all, Dead);
    UnionSize(s, f);
    UnionSize(s + f, u);
    UnionSize(s + f + u, o);
    UnionSize(s + f + u + o, d);
    SubsetSize(s + f + u + o + d, bound);
  }

  /* Each slot is counted at most once, however many generations it runs. */
  lemma CountedOncePerSlot(c: Tally, svc: Service, tasks: seq<Task>, nodes: seq<Node>)
    requires TallyOfService(c, svc, tasks, nodes)
    ensures c.upToDate <= c.running
    ensures c.running + c.starting + c.completed + c.dead <= |Slots(svc.id, tasks)|
  {
    var verdicts := Verdicts(svc, tasks, NodeIds(SchedulableNodes(nodes)));
    assert verdicts.Keys == Slots(svc.id, tasks);
    CountedWithin(c, verdicts, Ages(svc, tasks), verdicts.Keys);
  }

  lemma {:induction false} SchedulableAreNodes(nodes: seq<Node>)
    ensures forall n :: n in SchedulableNodes(nodes) ==> n in nodes && Schedulable(n)
  {
    if nodes != [] {
      SchedulableAreNodes(nodes[1..]);
    }
  }

  lemma {:induction false} IdsAtMost(nodes: seq<Node>)
    ensures |NodeIds(nodes)| <= |nodes|
  {
    if nodes == [] {
      assert NodeIds(nodes) == {};
    } else {
      IdsAtMost(nodes[1..]);
      assert NodeIds(nodes) == {nodes[0].id} + NodeIds(nodes[1..]);
    }
  }

  /* A slot of a global service that is counted is a node that can run tasks. */
  lemma CountedOnActiveNode(svc: Service, tasks: seq<Task>, active: set<string>, key: string)
    requires PerNode(svc) && forall t :: t in tasks && t.service == svc.id ==> t.slot <= 0
    requires key in Slots(svc.id, tasks) && Verdicts(svc, tasks, active)[key] != Skipped
    ensures key in active
  {
    FullSlot(svc.id, key, tasks);
    var newest := NewestTask(svc.id, key, tasks).value;
    LatestIsLatest(None, tasks, newest.service, key, Some(newest.created));
  }

  /* So a global service never counts more than the nodes that can run it. */
  lemma GlobalCountedPerNode(c: Tally, svc: Service, tasks: seq<Task>, nodes: seq<Node>)
    requires TallyOfService(c, svc, tasks, nodes)
    requires PerNode(svc) && forall t :: t in tasks && t.service == svc.id ==> t.slot <= 0
    ensures c.running + c.starting + c.completed + c.dead <= |SchedulableNodes(nodes)|
  {
    var active := NodeIds(SchedulableNodes(nodes));
    var verdicts := Verdicts(svc, tasks, active);
    forall key | key in verdicts && verdicts[key] != Skipped ensures key in active {
      CountedOnActiveNode(svc, tasks, active, key);
    }
    CountedWithin(c, verdicts, Ages(svc, tasks), active);
    IdsAtMost(SchedulableNodes(nodes));
  }

  // ---------- The services view ----------

  /* The services view's count: running, newest in its slot, and of the current generation. */
  ghost function UpToDateSlots(svc: Service, tasks: seq<Task>): set<string> {
    set key | key in Slots(svc.id, tasks) && UpToDateSlot(svc, tasks, key)
  }

  ghost predicate UpToDateSlot(svc: Service, tasks: seq<Task>, key: string) {
    match NewestTask(svc.id, key, tasks)
    case None => false
    case Some(t) => t.state == Running && t.created > RolloutStart(svc)
  }

  method CountUpToDateTasks(svc: Service, tasks: seq<Task>) returns (count: nat)
    ensures count == |UpToDateSlots(svc, tasks)|
  {
    var newest := NewestTaskPerSlot(svc.id, tasks);
    count := CountCurrent(newest, RolloutStart(svc));
    assert CurrentIn(newest, RolloutStart(svc), newest.Keys) == UpToDateSlots(svc, tasks);
  }

  ghost function CurrentIn(newest: map<string, Task>, since: Time, slots: set<string>): set<string> {
    set key | key in slots && key in newest && newest[key].state == Running && newest[key].created > since
  }

  lemma CurrentAdd(newest: map<string, Task>, since: Time, slots: set<string>, key: string)
    requires key in newest && key !in slots
    ensures var add := if newest[key].state == Running && newest[key].created > since then 1 else 0;
            |CurrentIn(newest, since, slots + {key})| == |CurrentIn(newest, since, slots)| + add
  {
    var add := if newest[key].state == Running && newest[key].created > since then {key} else {};
    assert CurrentIn(newest, since, slots + {key}) == CurrentIn(newest, since, slots) + add;
  }

  method CountCurrent(newest: map<string, Task>, since: Time) returns (count: nat)
    ensures count == |CurrentIn(newest, since, newest.Keys)|
  {
    count := 0;
    ghost var seen: set<string> := {};
    var left := newest.Keys;
    while left != {}
      invariant forall key :: key in newest <==> key in left || key in seen
      invariant forall key :: key in left ==> key !in seen
      invariant count == |CurrentIn(newest, since, seen)|
      decreases |left|
    {
      var key :| key in left;
      var t := newest[key];
      CurrentAdd(newest, since, seen, key);
      if t.state == Running && t.created > since {
        count := count + 1;
      }
      left := left - {key};
      seen := seen + {key};
    }
    assert seen == newest.Keys;
  }

  /* Both answer from the same newest tasks, so the wait never believes more than the view shows. */
  lemma WaitWithinView(c: Tally, svc: Service, tasks: seq<Task>, nodes: seq<Node>)
    requires TallyOfService(c, svc, tasks, nodes)
    ensures c.upToDate <= |UpToDateSlots(svc, tasks)|
  {
    var active := NodeIds(SchedulableNodes(nodes));
    var verdicts := Verdicts(svc, tasks, active);
    forall key | key in Having(verdicts, verdicts.Keys, Fresh) ensures key in UpToDateSlots(svc, tasks) {
      FreshIsUpToDate(svc, tasks, active, key);
    }
    SubsetSize(Having(verdicts, verdicts.Keys, Fresh), UpToDateSlots(svc, tasks));
  }

  lemma FreshIsUpToDate(svc: Service, tasks: seq<Task>, active: set<string>, key: string)
    requires key in Slots(svc.id, tasks) && Verdicts(svc, tasks, active)[key] == Fresh
    ensures UpToDateSlot(svc, tasks, key)
  {
    FullSlot(svc.id, key, tasks);
  }
}
