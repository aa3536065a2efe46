/** Swarm services, nodes and tasks as the daemon lists them, and which task stands for a slot
    (docker/service.go, docker/convergence.go). Times are natural numbers; 0 is the zero time. */
module Tasks {
  import opened Text

  type Time = nat

  datatype TaskState =
    | New | Pending | Assigned | Accepted | Preparing | Ready | Starting | Running
    | Complete | Shutdown | Failed | Rejected | Remove | Orphaned

  datatype Task = Task(
    service: string, slot: int, node: string, created: Time,
    desired: TaskState, state: TaskState, err: string, iteration: Option<nat>)

  datatype Node = Node(id: string, drained: bool, down: bool)

  datatype Mode = Replicated(replicas: Option<nat>) | Global | ReplicatedJob(total: Option<nat>) | GlobalJob

  datatype Condition = Never | OnFailure | Any

  datatype RestartPolicy = RestartPolicy(condition: Condition, delay: Option<int>)

  datatype UpdateState =
    | NoUpdate | Updating | Paused | Completed | RollbackStarted | RollbackPaused | RollbackCompleted

  datatype UpdateStatus = UpdateStatus(state: UpdateState, startedAt: Option<Time>)

  /* admitted is the set of nodes the placement constraints admit, absent when there are none;
     taskSpec and previousTaskSpec stand for the task templates. */
  datatype Service = Service(
    id: string, name: string, stack: string, mode: Mode, restart: Option<RestartPolicy>,
    monitor: Option<int>, update: Option<UpdateStatus>, jobIteration: Option<nat>,
    taskSpec: int, previousTaskSpec: Option<int>, admitted: Option<set<string>>)

  datatype Snapshot = Snapshot(services: seq<Service>, tasks: seq<Task>, nodes: seq<Node>)

  /* The replica a task belongs to: its slot, or its node when it has none. */
  function SlotKey(t: Task): string {
    if t.slot > 0 then Decimal(t.slot) else t.node
  }

  /* Numbered slots are told apart by their numbers; a task without one belongs to its node. */
  lemma SlotKeyTells(t: Task, u: Task)
    ensures t.slot > 0 && u.slot > 0 ==> (SlotKey(t) == SlotKey(u) <==> t.slot == u.slot)
    ensures t.slot <= 0 ==> SlotKey(t) == t.node
    ensures t.slot > 0 ==> SlotKey(t) != ""
  {
    if t.slot > 0 && u.slot > 0 && SlotKey(t) == SlotKey(u) { DecimalInjective(t.slot, u.slot); }
  }

  // ---------- The newest task of a slot ----------

  /* Which tasks compete: those of one service and slot, below a creation time when there is a
     limit. */
  predicate Candidate(t: Task, service: string, key: string, limit: Option<Time>) {
    && t.service == service && SlotKey(t) == key
    && (limit.Some? ==> 0 < t.created < limit.value)
  }

  function Newer(best: Option<Task>, t: Task, service: string, key: string, limit: Option<Time>): Option<Task> {
    if Candidate(t, service, key, limit) && (best.None? || t.created > best.value.created) then Some(t) else best
  }

  /* The first of the latest created candidates, reading the list from the front. */
  function Latest(best: Option<Task>, tasks: seq<Task>, service: string, key: string, limit: Option<Time>): Option<Task>
    decreases |tasks|
  {
    if tasks == [] then best
    else Latest(Newer(best, tasks[0], service, key, limit), tasks[1..], service, key, limit)
  }

  function NewestTask(service: string, key: string, tasks: seq<Task>): Option<Task> {
    Latest(None, tasks, service, key, None)
  }

  /* The one before it in the same slot. */
  function PreviousTask(newest: Task, tasks: seq<Task>): Option<Task> {
    Latest(None, tasks, newest.service, SlotKey(newest), Some(newest.created))
  }

  /* The slots a service's tasks occupy. A task with neither slot nor node has none. */
  function Slots(service: string, tasks: seq<Task>): set<string> {
    set t | t in tasks && t.service == service && SlotKey(t) != "" :: SlotKey(t)
  }

  lemma {:induction false} LatestSnoc(
    best: Option<Task>, tasks: seq<Task>, t: Task, service: string, key: string, limit: Option<Time>)
    ensures Latest(best, tasks + [t], service, key, limit)
         == Newer(Latest(best, tasks, service, key, limit), t, service, key, limit)
    decreases |tasks|
  {
    if tasks == [] {
      assert tasks + [t] == [t];
    } else {
      LatestSnoc(Newer(best, tasks[0], service, key, limit), tasks[1..], t, service, key, limit);
      assert (tasks + [t])[1..] == tasks[1..] + [t];
    }
  }

  /* It is a candidate of the list, and none is later. */
  lemma {:induction false} LatestIsLatest(
    best: Option<Task>, tasks: seq<Task>, service: string, key: string, limit: Option<Time>)
    ensures var r := Latest(best, tasks, service, key, limit);
            && (r.Some? ==> r == best || (r.value in tasks && Candidate(r.value, service, key, limit)))
            && (forall t :: t in tasks && Candidate(t, service, key, limit) ==> r.Some? && t.created <= r.value.created)
            && (best.Some? ==> r.Some? && best.value.created <= r.value.created)
    decreases |tasks|
  {
    if tasks != [] {
      LatestIsLatest(Newer(best, tasks[0], service, key, limit), tasks[1..], service, key, limit);
    }
  }

  /* Within one slot of one service, creation times tell tasks apart. */
  ghost predicate DistinctTimes(tasks: seq<Task>) {
    forall t, u ::
      (t in tasks && u in tasks && t.service == u.service && SlotKey(t) == SlotKey(u) && t.created == u.created)
      ==> t == u
  }

  /* Then only which tasks are listed matters, not their order or number. */
  lemma LatestOfSameTasks(tasks: seq<Task>, tasks': seq<Task>, service: string, key: string, limit: Option<Time>)
    requires DistinctTimes(tasks)
    requires forall t :: t in tasks <==> t in tasks'
    ensures Latest(None, tasks, service, key, limit) == Latest(None, tasks', service, key, limit)
  {
    LatestIsLatest(None, tasks, service, key, limit);
    LatestIsLatest(None, tasks', service, key, limit);
  }

  lemma {:induction false} LatestSplit(
    best: Option<Task>, a: seq<Task>, b: seq<Task>, service: string, key: string, limit: Option<Time>)
    ensures Latest(best, a + b, service, key, limit)
         == Latest(Latest(best, a, service, key, limit), b, service, key, limit)
    decreases |a|
  {
    if a == [] {
      assert a + b == b;
    } else {
      LatestSplit(Newer(best, a[0], service, key, limit), a[1..], b, service, key, limit);
      assert (a + b)[1..] == a[1..] + b;
    }
  }

  /* A task that is overtaken leaves no trace. */
  lemma {:induction false} Overtaken(
    best: Option<Task>, t: Task, rest: seq<Task>, service: string, key: string, limit: Option<Time>)
    requires best.None? || best.value.created <= t.created
    requires Latest(Some(t), rest, service, key, limit) != Some(t)
    ensures Latest(best, rest, service, key, limit) == Latest(Some(t), rest, service, key, limit)
    decreases |rest|
  {
    if rest != [] {
      var u := rest[0];
      if Candidate(u, service, key, limit) && u.created > t.created {
      } else {
        Overtaken(Newer(best, u, service, key, limit), t, rest[1..], service, key, limit);
      }
    }
  }

  /* Dropping a task that is not the latest changes nothing, ties and all. */
  lemma LatestWithout(a: seq<Task>, t: Task, b: seq<Task>, service: string, key: string, limit: Option<Time>)
    requires Latest(None, a + [t] + b, service, key, limit) != Some(t)
    ensures Latest(None, a + b, service, key, limit) == Latest(None, a + [t] + b, service, key, limit)
  {
    var before := Latest(None, a, service, key, limit);
    LatestSplit(None, a, b, service, key, limit);
    LatestSplit(None, a + [t], b, service, key, limit);
    LatestSnoc(None, a, t, service, key, limit);
    if Newer(before, t, service, key, limit) == Some(t) {
      Overtaken(before, t, b, service, key, limit);
    }
  }

  /* One pass over the tasks, keeping the newest seen in each slot. */
  method NewestTaskPerSlot(service: string, tasks: seq<Task>) returns (newest: map<string, Task>)
    ensures newest.Keys == Slots(service, tasks)
    ensures forall key :: key in newest ==> NewestTask(service, key, tasks) == Some(newest[key])
  {
    newest := map[];
    for i := 0 to |tasks|
      invariant newest.Keys == Slots(service, tasks[..i])
      invariant forall key :: key in newest ==> NewestTask(service, key, tasks[..i]) == Some(newest[key])
    {
      var t := tasks[i];
      assert tasks[..i + 1] == tasks[..i] + [t];
      SlotsSnoc(service, tasks[..i], t);
      forall key ensures NewestTask(service, key, tasks[..i + 1])
                      == Newer(NewestTask(service, key, tasks[..i]), t, service, key, None) {
        LatestSnoc(None, tasks[..i], t, service, key, None);
      }
      if t.service != service {
        continue;
      }
      var key := SlotKey(t);
      if key == "" {
        continue;
      }
      if key !in newest {
        EmptySlot(service, key, tasks[..i]);
        newest := newest[key := t];
      } else if t.created > newest[key].created {
        newest := newest[key := t];
      }
    }
    assert tasks[..|tasks|] == tasks;
  }

  lemma SlotsSnoc(service: string, tasks: seq<Task>, t: Task)
    ensures Slots(service, tasks + [t])
         == Slots(service, tasks) + if t.service == service && SlotKey(t) != "" then {SlotKey(t)} else {}
  {
  }

  lemma EmptySlot(service: string, key: string, tasks: seq<Task>)
    requires key != "" && key !in Slots(service, tasks)
    ensures NewestTask(service, key, tasks) == None
  {
    LatestIsLatest(None, tasks, service, key, None);
  }

  lemma FullSlot(service: string, key: string, tasks: seq<Task>)
    requires key in Slots(service, tasks)
    ensures NewestTask(service, key, tasks).Some?
    ensures var t := NewestTask(service, key, tasks).value;
            t in tasks && t.service == service && SlotKey(t) == key
  {
    LatestIsLatest(None, tasks, service, key, None);
  }

  /* Swarm holds a slot's next task at "ready" between runs; the task to judge is then the run
     that ended, when it completed. */
  function RestingTask(newest: Task, tasks: seq<Task>): (r: (Task, bool)) {
    if newest.desired != Ready then (newest, false)
    else
      match PreviousTask(newest, tasks)
      case Some(prev) => if prev.state == Complete then (prev, true) else (newest, false)
      case None => (newest, false)
  }

  method RestingRun(newest: Task, tasks: seq<Task>) returns (t: Task, resting: bool)
    ensures (t, resting) == RestingTask(newest, tasks)
  {
    if newest.desired != Ready {
      return newest, false;
    }
    var slot := SlotKey(newest);
    var prev: Option<Task> := None;
    for i := 0 to |tasks|
      invariant prev == PreviousTask(newest, tasks[..i])
    {
      var u := tasks[i];
      assert tasks[..i + 1] == tasks[..i] + [u];
      LatestSnoc(None, tasks[..i], u, newest.service, slot, Some(newest.created));
      var prevCreated := if prev.Some? then prev.value.created else 0;
      if u.service == newest.service && SlotKey(u) == slot && u.created < newest.created && u.created > prevCreated {
        prev := Some(u);
      }
    }
    assert tasks[..|tasks|] == tasks;
    if prev.None? || prev.value.state != Complete {
      return newest, false;
    }
    return prev.value, true;
  }
}
