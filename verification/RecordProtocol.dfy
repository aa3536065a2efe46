/** Recording by several engines at once (charts/release.go): every interleaving of reads, creations and
    retries, with configs that are no records appearing under any free name, and no deletions. */
module RecordProtocol {
  import opened Text
  import opened Releases
  import opened History

  /* One engine: idle; with a revision to store, chosen after what it read; or told its number is taken. */
  datatype Recorder =
    | Idle
    | Ready(rel: Release, read: seq<Release>, attempt: nat)
    | Collided(rel: Release, read: seq<Release>, attempt: nat)

  /* A revision some engine recorded, with what it had read when it chose the number. */
  datatype Claim = Claim(engine: nat, rel: Release, read: seq<Release>)

  datatype State = State(configs: Configs, recorders: map<nat, Recorder>, claims: seq<Claim>)

  datatype Step =
    | Read(engine: nat, rel: Release, revs: seq<Release>)
    | Create(engine: nat)
    | Fail(engine: nat)
    | RetryRead(engine: nat, revs: seq<Release>)
    | Squat(name: string, config: Config)

  function At(s: State, engine: nat): Recorder { if engine in s.recorders then s.recorders[engine] else Idle }

  function Becoming(s: State, engine: nat, r: Recorder): State { s.(recorders := s.recorders[engine := r]) }

  /* When a step can be taken. A read lists a store in which every record decodes; anybody may put a config
     under a free name, be it a record of that name or none. */
  ghost predicate Enabled(s: State, step: Step, codec: Codec) {
    match step
    case Read(e, rel, revs) =>
      && At(s, e) == Idle && Readable(s.configs) && IsHistory(revs, s.configs, codec, rel.name)
      && rel.revision == NextRevision(revs)
    case Create(e) => At(s, e).Ready?
    case Fail(e) => At(s, e) != Idle
    case RetryRead(e, revs) =>
      At(s, e).Collided? && Readable(s.configs) && IsHistory(revs, s.configs, codec, At(s, e).rel.name)
    case Squat(name, c) => name !in s.configs && Agrees(name, c)
  }

  /* What a step does. Creating is atomic on the name. After a collision the history is read again, and a
     number past the one that collided tried, but only so many times. */
  function After(s: State, step: Step): State {
    match step
    case Read(e, rel, revs) => Becoming(s, e, Ready(rel, revs, 0))
    case Create(e) =>
      if !At(s, e).Ready? then s
      else
        var Ready(rel, read, attempt) := At(s, e);
        if ConfigName(rel.name, rel.revision) in s.configs then Becoming(s, e, Collided(rel, read, attempt))
        else State(WithRecord(s.configs, rel), s.recorders[e := Idle], s.claims + [Claim(e, rel, read)])
    case Fail(e) => Becoming(s, e, Idle)
    case RetryRead(e, revs) =>
      if !At(s, e).Collided? then s
      else
        var Collided(rel, read, attempt) := At(s, e);
        var next := rel.(revision := Max(NextRevision(revs), rel.revision + 1));
        Becoming(s, e, if attempt < MAX_RECORD_RETRIES then Ready(next, revs, attempt + 1) else Idle)
    case Squat(name, c) => s.(configs := s.configs[name := c])
  }

  ghost predicate Next(s: State, step: Step, t: State, codec: Codec) { Enabled(s, step, codec) && t == After(s, step) }

  ghost predicate Init(s: State) { ValidStore(s.configs) && s.recorders == map[] && s.claims == [] }

  /* A run: any steps, of any engines, in any order. */
  ghost predicate Run(states: seq<State>, steps: seq<Step>, codec: Codec) {
    && |states| == |steps| + 1 && Init(states[0])
    && forall i :: 0 <= i < |steps| ==> Next(states[i], steps[i], states[i + 1], codec)
  }

  // ---------- The invariant ----------

  ghost predicate Exceeds(rel: Release, read: seq<Release>) {
    forall i :: 0 <= i < |read| ==> read[i].revision < rel.revision
  }

  /* The record of a claim is in the store, as it was written. */
  ghost predicate Kept(configs: Configs, c: Claim) {
    var name := ConfigName(c.rel.name, c.rel.revision);
    name in configs && configs[name] == RecordOf(c.rel)
  }

  ghost predicate ClaimsHold(s: State) {
    && (forall i :: 0 <= i < |s.claims| ==> Kept(s.configs, s.claims[i]) && Exceeds(s.claims[i].rel, s.claims[i].read))
    && (forall i, j :: 0 <= i < j < |s.claims| ==>
          ConfigName(s.claims[i].rel.name, s.claims[i].rel.revision)
            != ConfigName(s.claims[j].rel.name, s.claims[j].rel.revision))
  }

  ghost predicate RecorderHolds(r: Recorder) {
    match r
    case Idle => true
    case Ready(rel, read, attempt) => Exceeds(rel, read) && attempt <= 5
    case Collided(rel, read, attempt) => Exceeds(rel, read) && attempt <= 5
  }

  ghost predicate Inv(s: State) {
    ValidStore(s.configs) && ClaimsHold(s) && forall e {:trigger At(s, e)} :: RecorderHolds(At(s, e))
  }

  ghost predicate Grows(before: Configs, after: Configs) {
    forall name :: name in before ==> name in after && after[name] == before[name]
  }

  lemma ReadBelowNext(revs: seq<Release>, configs: Configs, codec: Codec, release: string)
    requires IsHistory(revs, configs, codec, release)
    ensures forall i :: 0 <= i < |revs| ==> revs[i].revision < NextRevision(revs)
  {
    var log: seq<Release> :| IsLog(log, configs, codec, release) && revs == Derived(log);
    forall i | 0 <= i < |revs| ensures revs[i].revision == log[i].revision {
    }
  }

  lemma RecorderStep(s: State, e: nat, r: Recorder)
    requires Inv(s) && RecorderHolds(r)
    ensures Inv(Becoming(s, e, r))
  {
    var t := Becoming(s, e, r);
    forall x ensures RecorderHolds(At(t, x)) {
      assert RecorderHolds(At(s, x));
    }
  }

  lemma AddedConfig(configs: Configs, name: string, c: Config)
    requires ValidStore(configs) && name !in configs && Agrees(name, c)
    ensures ValidStore(configs[name := c]) && Grows(configs, configs[name := c])
  {
  }

  lemma ClaimStep(s: State, e: nat, rel: Release, read: seq<Release>, t: State)
    requires Inv(s) && Exceeds(rel, read) && ConfigName(rel.name, rel.revision) !in s.configs
    requires t == State(WithRecord(s.configs, rel), s.recorders[e := Idle], s.claims + [Claim(e, rel, read)])
    ensures Inv(t) && Grows(s.configs, t.configs)
  {
    RecordOfAgrees(rel);
    AddedConfig(s.configs, ConfigName(rel.name, rel.revision), RecordOf(rel));
    forall i | 0 <= i < |s.claims| ensures Kept(t.configs, s.claims[i]) {
      assert Kept(s.configs, s.claims[i]);
    }
    forall x ensures RecorderHolds(At(t, x)) {
      assert RecorderHolds(At(s, x));
    }
  }

  /* Every step keeps the invariant, and changes or removes no config. */
  lemma StepKeeps(s: State, step: Step, t: State, codec: Codec)
    requires Inv(s) && Next(s, step, t, codec)
    ensures Inv(t) && Grows(s.configs, t.configs)
  {
    hide ConfigName, RecordOf, ValidStore, ClaimsHold, IsHistory, Readable, Agrees, NextRevision;
    match step
    case Read(e, rel, revs) =>
      ReadBelowNext(revs, s.configs, codec, rel.name);
      RecorderStep(s, e, Ready(rel, revs, 0));
    case Create(e) =>
      var Ready(rel, read, attempt) := At(s, e);
      if ConfigName(rel.name, rel.revision) in s.configs {
        RecorderStep(s, e, Collided(rel, read, attempt));
      } else {
        ClaimStep(s, e, rel, read, t);
      }
    case Fail(e) => RecorderStep(s, e, Idle);
    case RetryRead(e, revs) =>
      var Collided(rel, read, attempt) := At(s, e);
      ReadBelowNext(revs, s.configs, codec, rel.name);
      var next := Ready(rel.(revision := Max(NextRevision(revs), rel.revision + 1)), revs, attempt + 1);
      RecorderStep(s, e, if attempt < MAX_RECORD_RETRIES then next else Idle);
    case Squat(name, c) => SquatStep(s, name, c, t);
  }

  lemma SquatStep(s: State, name: string, c: Config, t: State)
    requires Inv(s) && name !in s.configs && Agrees(name, c) && t == s.(configs := s.configs[name := c])
    ensures Inv(t) && Grows(s.configs, t.configs)
  {
    AddedConfig(s.configs, name, c);
    forall i | 0 <= i < |s.claims| ensures Kept(t.configs, s.claims[i]) {
      assert Kept(s.configs, s.claims[i]);
    }
    forall x ensures RecorderHolds(At(t, x)) {
      assert RecorderHolds(At(s, x));
    }
  }

  lemma {:induction false} RunKeeps(states: seq<State>, steps: seq<Step>, codec: Codec, n: nat)
    requires Run(states, steps, codec) && n < |states|
    ensures Inv(states[n])
  {
    if n > 0 {
      RunKeeps(states, steps, codec, n - 1);
      StepKeeps(states[n - 1], steps[n - 1], states[n], codec);
    }
  }

  // ---------- Over all runs ----------

  /* No stored config ever changes or goes. */
  lemma {:induction false} StoreOnlyGrows(states: seq<State>, steps: seq<Step>, codec: Codec, m: nat, n: nat)
    requires Run(states, steps, codec) && m <= n < |states|
    ensures Grows(states[m].configs, states[n].configs)
    decreases n - m
  {
    if m < n {
      RunKeeps(states, steps, codec, m);
      StepKeeps(states[m], steps[m], states[m + 1], codec);
      StoreOnlyGrows(states, steps, codec, m + 1, n);
    }
  }

  /* Whatever a config that reads as a record says, it is stored under that release and number, with
     labels that say the same. */
  lemma RecordsAgree(states: seq<State>, steps: seq<Step>, codec: Codec, n: nat, name: string)
    requires Run(states, steps, codec) && n < |states| && name in states[n].configs
    ensures var c := states[n].configs[name];
            IsReleaseRecord(c.labels) && c.payload.Encoded? ==>
              && c.labels == RecordLabels(c.payload.rel)
              && name == ConfigName(c.payload.rel.name, c.payload.rel.revision)
  {
    RunKeeps(states, steps, codec, n);
  }

  /* No two records are of the same revision, whichever engines made them; each is still in the store as
     its engine wrote it, and its number is above every one that engine read when choosing it. */
  lemma ClaimsAreDistinct(states: seq<State>, steps: seq<Step>, codec: Codec, n: nat, i: nat, j: nat)
    requires Run(states, steps, codec) && n < |states|
    requires i < |states[n].claims| && j < |states[n].claims|
    ensures var a, b := states[n].claims[i], states[n].claims[j];
            && (a.rel.name == b.rel.name && a.rel.revision == b.rel.revision ==> i == j)
            && Stored(states[n].configs, codec, a.rel.name, a.rel.revision) == Some(Decoded(codec, a.rel))
            && Exceeds(a.rel, a.read)
  {
    RunKeeps(states, steps, codec, n);
    assert Kept(states[n].configs, states[n].claims[i]);
    RecordOfAgrees(states[n].claims[i].rel);
  }

  /* A record an engine made is above every record made before that engine read: nothing it could have
     seen is overtaken. */
  lemma {:induction false} ClaimsOrdered(
    states: seq<State>, steps: seq<Step>, codec: Codec, n: nat, e: nat, release: string, v: nat, revs: seq<Release>)
    requires Run(states, steps, codec) && n < |steps|
    requires (steps[n].Read? && steps[n].rel.name == release && steps[n].revs == revs && steps[n].engine == e)
          || (steps[n].RetryRead? && At(states[n], e).Collided? && At(states[n], e).rel.name == release
              && steps[n].revs == revs && steps[n].engine == e)
    requires Stored(states[n].configs, codec, release, v).Some?
    ensures steps[n].RetryRead? && At(states[n], e).attempt == MAX_RECORD_RETRIES ==> At(states[n + 1], e) == Idle
    ensures steps[n].Read? || At(states[n], e).attempt < MAX_RECORD_RETRIES ==>
      At(states[n + 1], e).Ready? && At(states[n + 1], e).rel.revision > v
  {
    assert Next(states[n], steps[n], states[n + 1], codec);
    HistoryTop(revs, states[n].configs, codec, release);
  }

  ghost predicate ClaimedAs(s: State, name: string)
    requires name in s.configs
  {
    exists i :: 0 <= i < |s.claims| && name == ConfigName(s.claims[i].rel.name, s.claims[i].rel.revision)
                && s.configs[name] == RecordOf(s.claims[i].rel)
  }

  ghost predicate SquattedBy(steps: seq<Step>, n: nat, name: string, c: Config)
    requires n <= |steps|
  {
    exists m :: 0 <= m < n && steps[m] == Squat(name, c)
  }

  /* Every config in the store was there at the start, was claimed by some engine, or was put there by
     somebody else, and is still as it was then. */
  lemma {:induction false} EveryRecordWasClaimed(
    states: seq<State>, steps: seq<Step>, codec: Codec, n: nat, name: string)
    requires Run(states, steps, codec) && n < |states| && name in states[n].configs
    ensures || (name in states[0].configs && states[0].configs[name] == states[n].configs[name])
            || ClaimedAs(states[n], name)
            || SquattedBy(steps, n, name, states[n].configs[name])
  {
    if n > 0 {
      assert Next(states[n - 1], steps[n - 1], states[n], codec);
      var s, t := states[n - 1], states[n];
      RunKeeps(states, steps, codec, n - 1);
      StepKeeps(s, steps[n - 1], t, codec);
      if name in s.configs {
        EveryRecordWasClaimed(states, steps, codec, n - 1, name);
        ClaimStays(s, steps[n - 1], t, codec, name);
      } else if steps[n - 1].Create? {
        assert name == ConfigName(t.claims[|s.claims|].rel.name, t.claims[|s.claims|].rel.revision);
      }
    }
  }

  lemma ClaimStays(s: State, step: Step, t: State, codec: Codec, name: string)
    requires Inv(s) && Next(s, step, t, codec) && name in s.configs
    ensures name in t.configs && (ClaimedAs(s, name) ==> ClaimedAs(t, name))
  {
    StepKeeps(s, step, t, codec);
    assert t.configs[name] == s.configs[name];
    if ClaimedAs(s, name) {
      var i :| 0 <= i < |s.claims| && name == ConfigName(s.claims[i].rel.name, s.claims[i].rel.revision)
               && s.configs[name] == RecordOf(s.claims[i].rel);
      assert t.claims[i] == s.claims[i];
    }
  }

  // ---------- One engine's recording ----------

  /* Where steps lead, one after the other. */
  function Through(s: State, steps: seq<Step>): State {
    if steps == [] then s else After(Through(s, steps[..|steps| - 1]), steps[|steps| - 1])
  }

  ghost predicate CanTake(s: State, steps: seq<Step>, codec: Codec) {
    steps == [] ||
      (var less := steps[..|steps| - 1];
       CanTake(s, less, codec) && Enabled(Through(s, less), steps[|steps| - 1], codec))
  }

  lemma TakeOneMore(s: State, steps: seq<Step>, step: Step, codec: Codec)
    requires CanTake(s, steps, codec) && Enabled(Through(s, steps), step, codec)
    ensures CanTake(s, steps + [step], codec) && Through(s, steps + [step]) == After(Through(s, steps), step)
  {
    assert (steps + [step])[..|steps|] == steps;
  }

  /* Steps that can be taken where a run got to make the run longer. */
  lemma {:induction false} RunGoesOn(states: seq<State>, steps: seq<Step>, more: seq<Step>, codec: Codec)
    returns (all: seq<State>)
    requires Run(states, steps, codec) && CanTake(states[|steps|], more, codec)
    ensures Run(all, steps + more, codec) && states <= all
    ensures all[|steps| + |more|] == Through(states[|steps|], more)
    decreases |more|
  {
    if more == [] {
      all := states;
      assert steps + more == steps;
    } else {
      var less, step := more[..|more| - 1], more[|more| - 1];
      var shorter := RunGoesOn(states, steps, less, codec);
      all := shorter + [After(shorter[|steps| + |less|], step)];
      assert steps + more == steps + less + [step];
      forall i | 0 <= i < |steps + more| ensures Next(all[i], (steps + more)[i], all[i + 1], codec) {
        if i < |steps + less| {
          assert Next(shorter[i], (steps + less)[i], shorter[i + 1], codec);
        }
      }
    }
  }

  /* The steps an engine takes for every collision it gets past: it tries to create, and reads again. */
  function Retries(e: nat, reread: seq<seq<Release>>): seq<Step> {
    if reread == [] then []
    else Retries(e, reread[..|reread| - 1]) + [Create(e), RetryRead(e, reread[|reread| - 1])]
  }

  /* And for recording a revision. */
  function Steps(e: nat, reread: seq<seq<Release>>, end: Ending): seq<Step> {
    Retries(e, reread) +
    match end
    case Put => [Create(e)]
    case Unstored => [Fail(e)]
    case Unread => [Create(e), Fail(e)]
    case Exhausted => []
  }

  /* What the engine read last, when it chose a number. */
  function LastRead(read: seq<Release>, reread: seq<seq<Release>>): seq<Release> {
    if reread == [] then read else reread[|reread| - 1]
  }

  function Retrying(rel: Release, read: seq<Release>, reread: seq<seq<Release>>): Recorder {
    if |reread| <= MAX_RECORD_RETRIES then Ready(Tried(rel, reread), LastRead(read, reread), |reread|) else Idle
  }

  lemma Becomes(s: State, e: nat, r: Recorder, next: Recorder)
    ensures At(Becoming(s, e, r), e) == r
    ensures Becoming(Becoming(s, e, r), e, next) == Becoming(s, e, next)
    ensures r == At(s, e) && e in s.recorders ==> Becoming(s, e, r) == s
  {
  }

  /* A collision and the read after it. */
  lemma OneRetry(
    s: State, steps: seq<Step>, e: nat, rel: Release, read: seq<Release>, attempt: nat, revs: seq<Release>,
    codec: Codec)
    requires CanTake(s, steps, codec)
    requires var mid := Through(s, steps);
             && At(mid, e) == Ready(rel, read, attempt) && ConfigName(rel.name, rel.revision) in mid.configs
             && Readable(mid.configs) && IsHistory(revs, mid.configs, codec, rel.name)
    ensures CanTake(s, steps + [Create(e), RetryRead(e, revs)], codec)
    ensures Through(s, steps + [Create(e), RetryRead(e, revs)]) == Becoming(Through(s, steps), e,
      if attempt < MAX_RECORD_RETRIES
      then Ready(rel.(revision := Max(NextRevision(revs), rel.revision + 1)), revs, attempt + 1) else Idle)
  {
    hide IsHistory, Readable, ConfigName, Max, CanTake, Through, RecordOf, NextRevision;
    var mid := Through(s, steps);
    TakeOneMore(s, steps, Create(e), codec);
    Becomes(mid, e, Collided(rel, read, attempt), Idle);
    TakeOneMore(s, steps + [Create(e)], RetryRead(e, revs), codec);
    Becomes(mid, e, Collided(rel, read, attempt),
      Ready(rel.(revision := Max(NextRevision(revs), rel.revision + 1)), revs, attempt + 1));
    assert steps + [Create(e)] + [RetryRead(e, revs)] == steps + [Create(e), RetryRead(e, revs)];
  }

  lemma {:induction false} RetriesCanBeTaken(
    s: State, e: nat, rel: Release, read: seq<Release>, reread: seq<seq<Release>>, codec: Codec)
    requires At(s, e) == Ready(rel, read, 0) && |reread| <= MAX_RECORD_RETRIES + 1
    requires Collisions(s.configs, codec, rel, reread)
    ensures CanTake(s, Retries(e, reread), codec)
    ensures Through(s, Retries(e, reread)) == Becoming(s, e, Retrying(rel, read, reread))
    decreases |reread|
  {
    hide IsHistory, Readable, ConfigName, CanTake, Through, After, Max;
    if reread == [] {
      NoSteps(s, codec);
      Becomes(s, e, Ready(rel, read, 0), Idle);
    } else {
      var n := |reread| - 1;
      var less, revs := reread[..n], reread[n];
      RetriesCanBeTaken(s, e, rel, read, less, codec);
      Becomes(s, e, Retrying(rel, read, less), Retrying(rel, read, reread));
      OneRetry(s, Retries(e, less), e, Tried(rel, less), LastRead(read, less), n, revs, codec);
    }
  }

  lemma NoSteps(s: State, codec: Codec)
    ensures CanTake(s, [], codec) && Through(s, []) == s
  {
  }

  /* Recording a revision is a run of these steps: whatever an engine's recording does to the store, the steps
     it stands for can be taken, and do that. */
  lemma RecordIsARun(
    s: State, e: nat, rel: Release, read: seq<Release>, out: Release, reread: seq<seq<Release>>, end: Ending,
    codec: Codec, after: Configs)
    requires At(s, e) == Ready(rel, read, 0)
    requires Attempted(s.configs, after, codec, rel, out, reread, end)
    ensures CanTake(s, Steps(e, reread, end), codec)
    ensures var t := Through(s, Steps(e, reread, end));
            && t.configs == after && At(t, e) == Idle
            && t.claims == s.claims + (if end == Put then [Claim(e, out, LastRead(read, reread))] else [])
            && forall x :: x != e ==> At(t, x) == At(s, x)
  {
    hide IsHistory, Readable, ConfigName, CanTake, Through, Max, Collisions, Retries, Tried;
    var steps := Retries(e, reread);
    RetriesCanBeTaken(s, e, rel, read, reread, codec);
    match end {
      case Put => TakeOneMore(s, steps, Create(e), codec);
      case Unstored => TakeOneMore(s, steps, Fail(e), codec);
      case Unread =>
        TakeOneMore(s, steps, Create(e), codec);
        TakeOneMore(s, steps + [Create(e)], Fail(e), codec);
        assert steps + [Create(e)] + [Fail(e)] == steps + [Create(e), Fail(e)];
      case Exhausted => assert steps + [] == steps;
    }
  }
}
