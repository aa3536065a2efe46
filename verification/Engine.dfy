/** Release operations (charts/release.go): deploying a revision and recording it, and the verbs built on
    that. */
module Engine {
  import opened Text
  import opened Values
  import Tasks
  import opened Manifests
  import opened Releases
  import opened History
  import opened Phase
  import opened Backends
  import opened Flights
  import opened Rollout
  import opened Waiting
  import opened Deploys
  import opened Preflight
  import Owner

  datatype Options = Options(
    dryRun: bool, wait: bool, install: bool, timeout: int, historyMax: int,
    requirements: Option<Requirements>, files: Files, owner: string)

  /* How far an operation got: turned down before any deploy, only planned, a first deploy refused, a
     deploy that could not be recorded, a rollout that stopped, a wait that failed, or all of it. */
  datatype Exit = TurnedDown | Planned | DeployRefused | NotRecorded | NotRolled(at: Outcome) | NotReady | Done

  /* Everything an operation can change, but the clock. */
  datatype World = World(
    configs: Configs, networks: map<string, Network>, stacks: map<string, Definitions>,
    trace: seq<Event>, written: seq<string>, stranded: seq<string>)

  ghost function WorldOf(b: Backend): World
    reads b
  {
    World(b.configs, b.networks, b.stacks, b.trace, b.written, b.stranded)
  }

  predicate IsPlainChar(c: char) {
    c == '-' || c == '_' || c == '.' || 'a' <= c <= 'z' || 'A' <= c <= 'Z' || '0' <= c <= '9'
  }

  predicate ValidReleaseName(name: string) {
    name != "" && forall i :: 0 <= i < |name| ==> IsPlainChar(name[i])
  }

  ghost predicate NameChar(c: char) {
    c in "abcdefghijklmnopqrstuvwxyz" || c in "ABCDEFGHIJKLMNOPQRSTUVWXYZ" || c in "0123456789" || c in "-_."
  }

  lemma PlainChars(c: char)
    ensures IsPlainChar(c) <==> NameChar(c)
  {
  }

  /* A release name is one or more letters, digits, dashes, underscores and dots. */
  lemma NamesAllowed(name: string)
    ensures ValidReleaseName(name) <==> |name| > 0 && forall c :: c in name ==> NameChar(c)
  {
    hide IsPlainChar, NameChar;
    forall c: char ensures IsPlainChar(c) <==> NameChar(c) { PlainChars(c); }
  }

  function StampFor(owner: string, release: string): string {
    if owner == "" then "" else Owner.Stamp(Owner.OwnerRef(owner, Owner.OWNER_KIND_RELEASE, release))
  }

  /* The stamp as it reads: nothing when nobody owns the release, or "<owner>:release/<name>". */
  ghost function StampText(owner: string, release: string): string {
    if |owner| == 0 then [] else owner + ":release/" + release
  }

  lemma StampIsText(owner: string, release: string)
    ensures StampFor(owner, release) == StampText(owner, release)
  {
    assert ":" + "release" + "/" == ":release/";
    assert owner + ":" + "release" + "/" + release == owner + (":" + "release" + "/") + release;
  }

  /* The revision as it is recorded: stamped with whoever writes it, under a number that may have had
     to move on, and with the networks created for it. */
  ghost predicate Becomes(rel: Release, out: Release, opts: Options, codec: Codec, before: Configs) {
    && out == rel.(
         revision := out.revision, owner := StampText(opts.owner, rel.name), managedNetworks := out.managedNetworks)
    && out.revision >= rel.revision
    && (Fresh(before, codec, rel.name, rel.revision) ==> Fresh(before, codec, rel.name, out.revision))
  }

  // ---------- What an operation leaves ----------

  /* No record, and no network but what a removal failed to take back. */
  ghost predicate NoTraceLeft(w: World, v: World) {
    && v.configs == w.configs && v.written == w.written && w.stranded <= v.stranded
    && NetworksKept(w.networks, v.networks, v.stranded[|w.stranded|..])
  }

  /* One record was written under a name that was free. With no limit on the history that is the only
     change to the store; with one, the release may have been trimmed to its newest revisions since. */
  ghost predicate OneRecorded(
    before: Configs, after: Configs, was: seq<string>, written: seq<string>, codec: Codec, out: Release, keep: int)
  {
    && written == was + [ConfigName(out.name, out.revision)]
    && ConfigName(out.name, out.revision) !in before
    && (|| after == WithRecord(before, out)
        || (keep > 0 && exists failed: nat :: Pruned(WithRecord(before, out), after, codec, out.name, keep, failed)))
  }

  /* Either way the record is the newest of its release when its number was fresh, and every config that is
     not a record of the release is as it was. */
  lemma OneRecordedKeeps(
    before: Configs, after: Configs, was: seq<string>, written: seq<string>, codec: Codec, out: Release, keep: int)
    requires ValidStore(before) && OneRecorded(before, after, was, written, codec, out, keep)
    ensures ValidStore(after) && (Readable(before) ==> Readable(after)) && OthersKept(before, after, [out.name])
    ensures Fresh(before, codec, out.name, out.revision) ==> IsTop(after, codec, out.name, Decoded(codec, out))
  {
    var mid := WithRecord(before, out);
    AppendedTop(before, mid, codec, out);
    if after != mid {
      var failed: nat :| Pruned(mid, after, codec, out.name, keep, failed);
      PrunedKeeps(mid, after, codec, out.name, keep, failed);
      KeptOnce(before, mid, after, [out.name]);
    }
  }

  lemma KeptOnce(a: Configs, b: Configs, c: Configs, names: seq<string>)
    requires OthersKept(a, b, names) && OthersKept(b, c, names)
    ensures OthersKept(a, c, names)
  {
  }

  /* The last thing asked was a poll that found the release converged. */
  ghost predicate ReadyAtEnd(trace: seq<Event>, release: string) {
    trace != [] && SeenConverged(trace[|trace| - 1], release)
  }

  lemma LastOfRound(trace: seq<Event>, release: string)
    requires RoundConverged(trace, [release])
    ensures ReadyAtEnd(trace, release)
  {
    assert SeenConverged(trace[|trace| - 1], [release][0]);
  }

  /* Past an accepted first deploy the networks created for it are known, and recorded with it. */
  ghost predicate Equipped(w: World, v: World, rel: Release, opts: Options, out: Release, codec: Codec) {
    && Becomes(rel, out, opts, codec, w.configs)
    && Provided(w.networks, v.networks, out.managedNetworks, rel.manifest, opts.requirements)
    && v.stranded == w.stranded
  }

  /* What a run of deployAndRecord did, by how far it got. held are the services it rolled one at a
     time; n is how many of them had been deployed when a rollout stopped. */
  ghost predicate Ran(
    w: World, v: World, codec: Codec, preserves: bool, rel: Release, opts: Options, out: Release, exit: Exit,
    held: seq<string>, n: nat)
  {
    && w.trace <= v.trace
    && OneAtATime(Since(v.trace, |w.trace|), rel.name, held)
    && HandsOnly(Since(v.trace, |w.trace|), rel)
    && NetworksMadeFor(w.networks, v.networks, rel.manifest, opts.requirements)
    && match exit
       case Planned => v == w && held == [] && opts.dryRun
       case TurnedDown =>
         NoTraceLeft(w, v) && v.stacks == w.stacks && HandedTo(Since(v.trace, |w.trace|), rel.name) == []
       case DeployRefused =>
         && NoTraceLeft(w, v)
         && HeldBy(Since(v.trace, |w.trace|), rel, preserves, held)
         && var first := Stage(rel.manifest, held, FirstCount(rel.manifest, held));
         && HandedTo(Since(v.trace, |w.trace|), rel.name) == [first]
         && DeployedTo(w.stacks, v.stacks, rel.name, first, false, preserves)
       case NotRecorded =>
         && v.configs == w.configs && v.written == w.written
         && Equipped(w, v, rel, opts, out, codec)
         && Launched(v.trace, v.stacks, rel, |w.trace|, w.stacks, preserves, held)
       case NotRolled(at) =>
         && at != Rolled
         && OneRecorded(w.configs, v.configs, w.written, v.written, codec, out, 0)
         && Equipped(w, v, rel, opts, out, codec)
         && HeldBy(Since(v.trace, |w.trace|), rel, preserves, held)
         && StoppedAt(
              v.trace, v.stacks, rel, |w.trace|, w.stacks, held, FirstCount(rel.manifest, held), n, at.NotSettled?)
       case NotReady =>
         && OneRecorded(w.configs, v.configs, w.written, v.written, codec, out, 0)
         && Equipped(w, v, rel, opts, out, codec)
         && Through(v.trace, v.stacks, rel, |w.trace|, w.stacks, held, preserves)
       case Done =>
         && OneRecorded(w.configs, v.configs, w.written, v.written, codec, out, opts.historyMax)
         && Equipped(w, v, rel, opts, out, codec)
         && Through(v.trace, v.stacks, rel, |w.trace|, w.stacks, held, preserves)
         && (opts.wait ==> ReadyAtEnd(v.trace, rel.name))
  }

  // ---------- Deploying and recording ----------

  function Stamped(rel: Release, opts: Options): Release { rel.(owner := StampFor(opts.owner, rel.name)) }

  /* Whether a revision can be deployed at all: its owner is valid, its record fits, what it needs is there
     or can be made, and its manifest can be staged. A dry run needs only the owner. */
  ghost predicate Deployable(
    w: World, secrets: set<string>, codec: Codec, preserves: bool, rel: Release, opts: Options)
  {
    && (opts.owner == "" || Owner.ValidOwnerID(opts.owner))
    && (opts.dryRun ||
        (&& codec.fits(Stamped(rel, opts))
         && Present(secrets, w.configs.Keys, rel.manifest, opts.requirements)
         && Providable(w.networks, rel.manifest, opts.requirements)
         && !(preserves && rel.manifest.Malformed?)))
  }

  /* With a limit on the history, a store that can be read is left with exactly the newest revisions. */
  ghost predicate FullyTrimmed(before: Configs, after: Configs, codec: Codec, out: Release, opts: Options) {
    opts.historyMax > 0 && Readable(before) ==>
      Pruned(WithRecord(before, out), after, codec, out.name, opts.historyMax, 0)
  }

  /* Deploys a revision's manifest and records it. */
  method DeployAndRecord(b: Backend, rel: Release, opts: Options)
    returns (out: Release, exit: Exit, ghost held: seq<string>, ghost n: nat)
    requires ValidStore(b.configs) && rel.owner == "" && rel.managedNetworks == []
    modifies b
    ensures b.mishaps >= old(b.mishaps)
    ensures ValidStore(b.configs)
    ensures Ran(old(WorldOf(b)), WorldOf(b), b.codec, b.preserves, rel, opts, out, exit, held, n)
    ensures exit == TurnedDown && b.mishaps == old(b.mishaps) ==>
      !Deployable(old(WorldOf(b)), old(b.secrets), b.codec, b.preserves, rel, opts)
    ensures exit != TurnedDown ==> Deployable(old(WorldOf(b)), old(b.secrets), b.codec, b.preserves, rel, opts)
    ensures exit == Done && b.mishaps == old(b.mishaps) ==> FullyTrimmed(old(b.configs), b.configs, b.codec, out, opts)
    ensures exit == Planned ==> out == Stamped(rel, opts)
    ensures opts.dryRun ==> exit in {Planned, TurnedDown} && WorldOf(b) == old(WorldOf(b))
    ensures exit == Done ==> opts.owner == "" || Owner.ValidOwnerID(opts.owner)
  {
    hide Ran, Provided, Providable, NetworksMadeFor, NetworksKept, Present, FullyTrimmed, ValidStore;
    held, n := [], 0;
    ghost var w := WorldOf(b);
    StayedPut(w, w, b.codec, b.preserves, rel, opts);
    if opts.owner != "" && !Owner.ValidOwnerID(opts.owner) {
      return rel.(status := Failed), TurnedDown, held, n;
    }
    out := Stamped(rel, opts);
    if opts.dryRun {
      return out, Planned, held, n;
    }
    if !b.codec.fits(out) {
      return out.(status := Failed), TurnedDown, held, n;
    }
    var present := EnsureExternalSecretsConfigs(b, out.manifest, opts.requirements);
    if !present {
      return out.(status := Failed), TurnedDown, held, n;
    }
    var created, provided := EnsureExternalNetworks(b, out.manifest, opts.requirements);
    if !provided {
      ghost var made := b.networks;
      RemoveCreated(b, created, w.networks);
      StillMadeFor(w.networks, made, b.networks, created, rel.manifest, opts.requirements);
      StayedPut(w, WorldOf(b), b.codec, b.preserves, rel, opts);
      return out.(status := Failed), TurnedDown, held, n;
    }
    out, exit, held, n := DeployPrepared(b, rel, opts, created, w);
  }

  /* Nothing happened but to networks that were missing. */
  lemma StayedPut(w: World, v: World, codec: Codec, preserves: bool, rel: Release, opts: Options)
    requires w.stranded <= v.stranded && NetworksMadeFor(w.networks, v.networks, rel.manifest, opts.requirements)
    requires NetworksKept(w.networks, v.networks, v.stranded[|w.stranded|..])
    requires v == w.(networks := v.networks, stranded := v.stranded)
    ensures forall out: Release :: Ran(w, v, codec, preserves, rel, opts, out, TurnedDown, [], 0)
    ensures opts.dryRun && v == w ==> forall out: Release :: Ran(w, v, codec, preserves, rel, opts, out, Planned, [], 0)
  {
    assert Since(w.trace, |w.trace|) == [];
  }

  /* The part of a deploy after its prerequisites were met: created are the networks made for it. */
  method DeployPrepared(b: Backend, rel: Release, opts: Options, created: seq<string>, ghost w: World)
    returns (out: Release, exit: Exit, ghost held: seq<string>, ghost n: nat)
    requires ValidStore(b.configs) && rel.owner == "" && rel.managedNetworks == [] && !opts.dryRun
    requires Provided(w.networks, b.networks, created, rel.manifest, opts.requirements)
    requires w == WorldOf(b).(networks := w.networks)
    modifies b
    ensures b.mishaps >= old(b.mishaps)
    ensures ValidStore(b.configs)
    ensures Ran(w, WorldOf(b), b.codec, b.preserves, rel, opts, out, exit, held, n)
    ensures exit != Planned && (exit == TurnedDown <==> b.preserves && rel.manifest.Malformed?)
    ensures exit == Done && b.mishaps == old(b.mishaps) ==> FullyTrimmed(w.configs, b.configs, b.codec, out, opts)
  {
    n := 0;
    var start, rest, leading, before, all := FirstDeploy(b, rel);
    held := all;
    if start != FirstAccepted {
      ghost var made := b.networks;
      RemoveCreated(b, created, w.networks);
      StillMadeFor(w.networks, made, b.networks, created, rel.manifest, opts.requirements);
      exit := if start == NotAttempted then TurnedDown else DeployRefused;
      return Stamped(rel, opts).(status := Failed), exit, held, n;
    }
    out, exit, n := RecordAndRoll(b, rel, opts, created, rest, leading, before, w, all);
  }

  /* The part of a deploy after its first deploy was accepted. */
  method RecordAndRoll(
    b: Backend, rel: Release, opts: Options, created: seq<string>, rest: seq<string>,
    leading: Option<string>, before: Tasks.Time, ghost w: World, ghost all: seq<string>)
    returns (out: Release, exit: Exit, ghost n: nat)
    requires ValidStore(b.configs) && rel.owner == "" && rel.managedNetworks == []
    requires w.configs == b.configs && w.written == b.written && w.trace <= b.trace && w.stranded == b.stranded
    requires Provided(w.networks, b.networks, created, rel.manifest, opts.requirements)
    requires Begun(FirstAccepted, b.trace, b.stacks, rel, |w.trace|, w.stacks, b.preserves, all, rest, leading, before)
    modifies b`clock, b`trace, b`stacks, b`configs, b`written, b`mishaps
    ensures b.mishaps >= old(b.mishaps)
    ensures ValidStore(b.configs)
    ensures out.managedNetworks == created
    ensures Ran(w, WorldOf(b), b.codec, b.preserves, rel, opts, out, exit, all, n)
    ensures exit in {NotRecorded, NotReady, Done} || exit.NotRolled?
    ensures exit == Done && b.mishaps == old(b.mishaps) ==> FullyTrimmed(w.configs, b.configs, b.codec, out, opts)
  {
    hide Ran, OneRecorded, StoppedAt, Through, HeldBy, OneAtATime, Becomes, HandsOnly, ValidStore, Begun, Provided;
    hide FullyTrimmed;
    n := 0;
    BegunIsLaunched(b.trace, b.stacks, rel, |w.trace|, w.stacks, b.preserves, all, rest, leading, before);
    var recorded;
    out, recorded := RecordOnce(b, rel, opts, created);
    if !recorded {
      exit := NotRecorded;
      NeverRecorded(w, WorldOf(b), b.codec, b.preserves, rel, opts, out, all);
      return;
    }
    var rolled;
    rolled, n := RollHeld(b, rel, opts.timeout, rest, leading, before, |w.trace|, w.stacks, all);
    if rolled != Rolled {
      exit := NotRolled(rolled);
      StoppedShort(w, WorldOf(b), b.codec, b.preserves, rel, opts, out, rolled, all, n);
      return;
    }
    n := 0;
    exit := Finish(b, opts, rel, out, w, all);
  }

  /* A run whose first deploy could not be recorded. */
  lemma NeverRecorded(
    w: World, v: World, codec: Codec, preserves: bool, rel: Release, opts: Options, out: Release, held: seq<string>)
    requires w.trace <= v.trace && v.configs == w.configs && v.written == w.written
    requires Equipped(w, v, rel, opts, out, codec)
    requires Launched(v.trace, v.stacks, rel, |w.trace|, w.stacks, preserves, held)
    requires OneAtATime(Since(v.trace, |w.trace|), rel.name, held) && HandsOnly(Since(v.trace, |w.trace|), rel)
    ensures Ran(w, v, codec, preserves, rel, opts, out, NotRecorded, held, 0)
  {
    hide Provided, NetworksMadeFor, Becomes, Launched, OneAtATime, HandsOnly;
    ProvidedIsMade(w.networks, v.networks, out.managedNetworks, rel.manifest, opts.requirements);
  }

  /* A run whose rollout stopped. */
  lemma StoppedShort(
    w: World, v: World, codec: Codec, preserves: bool, rel: Release, opts: Options, out: Release, at: Outcome,
    held: seq<string>, n: nat)
    requires w.trace <= v.trace && at != Rolled
    requires OneRecorded(w.configs, v.configs, w.written, v.written, codec, out, 0)
    requires Equipped(w, v, rel, opts, out, codec)
    requires HeldBy(Since(v.trace, |w.trace|), rel, preserves, held)
    requires OneAtATime(Since(v.trace, |w.trace|), rel.name, held)
    requires StoppedAt(
      v.trace, v.stacks, rel, |w.trace|, w.stacks, held, FirstCount(rel.manifest, held), n, at.NotSettled?)
    ensures Ran(w, v, codec, preserves, rel, opts, out, NotRolled(at), held, n)
  {
    hide Provided, NetworksMadeFor, Becomes, OneRecorded, HeldBy, OneAtATime;
    ProvidedIsMade(w.networks, v.networks, out.managedNetworks, rel.manifest, opts.requirements);
  }

  /* Records the revision, stamped and with the networks created for it. */
  method RecordOnce(b: Backend, rel: Release, opts: Options, created: seq<string>) returns (out: Release, ok: bool)
    requires ValidStore(b.configs) && rel.owner == "" && rel.managedNetworks == []
    modifies b`configs, b`written, b`mishaps
    ensures b.mishaps >= old(b.mishaps)
    ensures ValidStore(b.configs)
    ensures Becomes(rel, out, opts, b.codec, old(b.configs)) && out.managedNetworks == created
    ensures !ok ==> b.configs == old(b.configs) && b.written == old(b.written)
    ensures ok ==> OneRecorded(old(b.configs), b.configs, old(b.written), b.written, b.codec, out, 0)
  {
    ghost var reread, end;
    StampIsText(opts.owner, rel.name);
    out, ok, reread, end := Record(b, Stamped(rel, opts).(managedNetworks := created));
    if ok { AppendedTop(old(b.configs), b.configs, b.codec, out); }
  }

  /* The optional wait and the trimming at the end of a deploy. */
  method Finish(b: Backend, opts: Options, rel: Release, out: Release, ghost w: World, ghost held: seq<string>)
    returns (exit: Exit)
    requires ValidStore(b.configs) && ValidStore(w.configs) && w.trace <= b.trace
    requires OneRecorded(w.configs, b.configs, w.written, b.written, b.codec, out, 0)
    requires Equipped(w, WorldOf(b), rel, opts, out, b.codec)
    requires Through(b.trace, b.stacks, rel, |w.trace|, w.stacks, held, b.preserves)
    modifies b`clock, b`trace, b`configs, b`mishaps
    ensures b.mishaps >= old(b.mishaps)
    ensures ValidStore(b.configs) && exit in {NotReady, Done}
    ensures Ran(w, WorldOf(b), b.codec, b.preserves, rel, opts, out, exit, held, 0)
    ensures exit == Done && b.mishaps == old(b.mishaps) ==> FullyTrimmed(w.configs, b.configs, b.codec, out, opts)
  {
    hide Provided, NetworksMadeFor, Becomes, OneRecorded, Through, FullyTrimmed, ValidStore, ReadyAtEnd, Readable;
    hide Pruned;
    exit := Done;
    if opts.wait {
      var ready := AwaitReady(b, rel, opts.timeout, w, held);
      if !ready {
        exit := NotReady;
      }
    }
    if exit == Done {
      if opts.historyMax > 0 {
        Trim(b, opts, out, w);
      } else {
        Untrimmed(w.configs, b.configs, w.written, b.written, b.codec, out, opts);
      }
    }
    GotThrough(w, WorldOf(b), b.codec, b.preserves, rel, opts, out, exit, held);
  }

  /* A run that deployed everything, as far as it got after that. */
  lemma GotThrough(
    w: World, v: World, codec: Codec, preserves: bool, rel: Release, opts: Options, out: Release, exit: Exit,
    held: seq<string>)
    requires w.trace <= v.trace && exit in {NotReady, Done}
    requires OneRecorded(
      w.configs, v.configs, w.written, v.written, codec, out, if exit == Done then opts.historyMax else 0)
    requires Equipped(w, v, rel, opts, out, codec)
    requires Through(v.trace, v.stacks, rel, |w.trace|, w.stacks, held, preserves)
    requires exit == Done && opts.wait ==> ReadyAtEnd(v.trace, rel.name)
    ensures Ran(w, v, codec, preserves, rel, opts, out, exit, held, 0)
  {
    hide Provided, NetworksMadeFor, Becomes, OneRecorded, Through, ReadyAtEnd, OneAtATime, HandsOnly;
    ThroughHands(v.trace, v.stacks, rel, |w.trace|, w.stacks, held, preserves);
    ProvidedIsMade(w.networks, v.networks, out.managedNetworks, rel.manifest, opts.requirements);
  }

  lemma ProvidedIsMade(
    before: map<string, Network>, after: map<string, Network>, created: seq<string>, m: Manifest,
    req: Option<Requirements>)
    requires Provided(before, after, created, m, req)
    ensures NetworksMadeFor(before, after, m, req)
  {
  }

  lemma ThroughHands(
    trace: seq<Event>, stacks: map<string, Definitions>, rel: Release, from: nat, start: map<string, Definitions>,
    all: seq<string>, preserves: bool)
    requires from <= |trace| && Through(trace, stacks, rel, from, start, all, preserves)
    ensures OneAtATime(Since(trace, from), rel.name, all) && HandsOnly(Since(trace, from), rel)
  {
  }

  /* Trims the release just recorded to its newest revisions. */
  method Trim(b: Backend, opts: Options, out: Release, ghost w: World)
    requires ValidStore(b.configs) && ValidStore(w.configs) && opts.historyMax > 0
    requires OneRecorded(w.configs, b.configs, w.written, b.written, b.codec, out, 0)
    modifies b`configs, b`mishaps
    ensures b.mishaps >= old(b.mishaps) && ValidStore(b.configs)
    ensures OneRecorded(w.configs, b.configs, w.written, b.written, b.codec, out, opts.historyMax)
    ensures b.mishaps == old(b.mishaps) ==> FullyTrimmed(w.configs, b.configs, b.codec, out, opts)
  {
    hide Pruned;
    AppendedTop(w.configs, b.configs, b.codec, out);
    PruneHistory(b, out.name, opts.historyMax);
    OneRecordedKeeps(w.configs, b.configs, w.written, b.written, b.codec, out, opts.historyMax);
  }

  lemma Untrimmed(
    before: Configs, after: Configs, was: seq<string>, written: seq<string>, codec: Codec, out: Release, opts: Options)
    requires OneRecorded(before, after, was, written, codec, out, 0) && opts.historyMax <= 0
    ensures OneRecorded(before, after, was, written, codec, out, opts.historyMax)
    ensures FullyTrimmed(before, after, codec, out, opts)
  {
  }

  method AwaitReady(b: Backend, rel: Release, timeout: int, ghost w: World, ghost held: seq<string>)
    returns (ready: bool)
    requires w.trace <= b.trace
    requires Through(b.trace, b.stacks, rel, |w.trace|, w.stacks, held, b.preserves)
    modifies b`clock, b`trace, b`mishaps
    ensures b.mishaps >= old(b.mishaps)
    ensures w.trace <= b.trace
    ensures Through(b.trace, b.stacks, rel, |w.trace|, w.stacks, held, b.preserves)
    ensures ready ==> ReadyAtEnd(b.trace, rel.name)
  {
    ghost var was := b.trace;
    var waited := WaitWave(b, [rel.name], timeout);
    ready := waited == Settled;
    PollsAfterLanding(was, b.trace, b.stacks, rel, |w.trace|, w.stacks, held, b.preserves);
    if ready { LastOfRound(b.trace, rel.name); }
  }
}
