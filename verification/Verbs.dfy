/** The release verbs (charts/release.go): install, upgrade and rollback, each a deploy of a new revision. */
module Verbs {
  import opened Text
  import opened Values
  import opened Manifests
  import opened Releases
  import opened History
  import opened Pruning
  import opened Backends
  import opened Preflight
  import opened Flights
  import opened Rollout
  import opened Deploys
  import opened Engine
  import Owner

  function NewRevision(
    release: string, revision: nat, chart: Chart, values: Value, manifest: Manifest, files: Files, created: nat)
    : Release
  {
    Release(release, revision, Deployed, chart, values, manifest, files, created, [], "")
  }

  /* What a verb did: turned down with nothing touched, or a run that deploys rel, whose number was
     above every one stored. */
  ghost predicate Operated(
    w: World, v: World, codec: Codec, preserves: bool, release: string, rel: Release, opts: Options,
    out: Option<Release>, exit: Exit, held: seq<string>, n: nat)
  {
    match out
    case None => exit == TurnedDown && v == w
    case Some(r) =>
      && rel.name == release && rel.owner == "" && rel.managedNetworks == [] && rel.status == Deployed
      && Fresh(w.configs, codec, release, rel.revision)
      && Ran(w, v, codec, preserves, rel, opts, r, exit, held, n)
      && (opts.dryRun ==> v == w && exit in {Planned, TurnedDown})
      && (exit == Done ==> opts.owner == "" || Owner.ValidOwnerID(opts.owner))
  }

  /* The revision a verb is to deploy, as the caller gave it. */
  ghost predicate Describes(rel: Release, chart: Chart, values: Value, manifest: Manifest, files: Files) {
    rel.chart == chart && rel.values == values && rel.manifest == manifest && rel.files == files
  }

  method Deploy(
    b: Backend, release: string, revs: seq<Release>, chart: Chart, values: Value, manifest: Manifest, files: Files,
    opts: Options)
    returns (out: Release, exit: Exit, ghost rel: Release, ghost held: seq<string>, ghost n: nat)
    requires ValidStore(b.configs) && IsHistory(revs, b.configs, b.codec, release)
    modifies b
    ensures b.mishaps >= old(b.mishaps)
    ensures ValidStore(b.configs)
    ensures Operated(old(WorldOf(b)), WorldOf(b), b.codec, b.preserves, release, rel, opts, Some(out), exit, held, n)
    ensures exit == TurnedDown && b.mishaps == old(b.mishaps) ==>
      !Deployable(old(WorldOf(b)), old(b.secrets), b.codec, b.preserves, rel, opts)
    ensures exit == Done && b.mishaps == old(b.mishaps) ==>
      FullyTrimmed(old(b.configs), b.configs, b.codec, out, opts)
    ensures Describes(rel, chart, values, manifest, files)
  {
    HistoryTop(revs, b.configs, b.codec, release);
    var wanted := NewRevision(release, NextRevision(revs), chart, values, manifest, files, b.clock);
    rel := wanted;
    out, exit, held, n := DeployAndRecord(b, wanted, opts);
  }

  /* The newest revision of a release is there, and not one that says it was uninstalled. */
  ghost predicate Exists(configs: Configs, codec: Codec, release: string) {
    exists top: Release :: IsTop(configs, codec, release, top) && top.status != Uninstalled
  }

  predicate LiveTop(revs: seq<Release>) { revs != [] && revs[|revs| - 1].status != Uninstalled }

  lemma LiveTopExists(revs: seq<Release>, configs: Configs, codec: Codec, release: string)
    requires IsHistory(revs, configs, codec, release)
    ensures LiveTop(revs) <==> Exists(configs, codec, release)
  {
    HistoryTop(revs, configs, codec, release);
    if top: Release :| IsTop(configs, codec, release, top) && top.status != Uninstalled {
      assert Stored(configs, codec, release, top.revision).Some?;
      TopUnique(configs, codec, release, top, revs[|revs| - 1]);
    }
  }

  /* Refuses a release that exists. */
  method Install(b: Backend, release: string, chart: Chart, values: Value, manifest: Manifest, opts: Options)
    returns (out: Option<Release>, exit: Exit, ghost rel: Release, ghost held: seq<string>, ghost n: nat)
    requires ValidStore(b.configs)
    modifies b
    ensures b.mishaps >= old(b.mishaps)
    ensures ValidStore(b.configs)
    ensures Operated(old(WorldOf(b)), WorldOf(b), b.codec, b.preserves, release, rel, opts, out, exit, held, n)
    ensures out.Some? && exit == TurnedDown && b.mishaps == old(b.mishaps) ==>
      !Deployable(old(WorldOf(b)), old(b.secrets), b.codec, b.preserves, rel, opts)
    ensures out.Some? && exit == Done && b.mishaps == old(b.mishaps) ==>
      FullyTrimmed(old(b.configs), b.configs, b.codec, out.value, opts)
    ensures out.Some? ==> Describes(rel, chart, values, manifest, opts.files)
    ensures out.Some? ==> ValidReleaseName(release) && !Exists(old(b.configs), b.codec, release)
    ensures out.None? && b.mishaps == old(b.mishaps) ==>
      !ValidReleaseName(release) || !Readable(b.configs) || Exists(b.configs, b.codec, release)
  {
    out, exit, held, n := None, TurnedDown, [], 0;
    rel := *;
    if !ValidReleaseName(release) {
      return;
    }
    var revs := Revisions(b, release);
    if revs.None? {
      return;
    }
    LiveTopExists(revs.value, b.configs, b.codec, release);
    if LiveTop(revs.value) {
      return;
    }
    var r;
    r, exit, rel, held, n := Deploy(b, release, revs.value, chart, values, manifest, opts.files, opts);
    out := Some(r);
  }

  /* Refuses a release that does not exist, unless asked to install it. */
  method Upgrade(b: Backend, release: string, chart: Chart, values: Value, manifest: Manifest, opts: Options)
    returns (out: Option<Release>, exit: Exit, ghost rel: Release, ghost held: seq<string>, ghost n: nat)
    requires ValidStore(b.configs)
    modifies b
    ensures b.mishaps >= old(b.mishaps)
    ensures ValidStore(b.configs)
    ensures Operated(old(WorldOf(b)), WorldOf(b), b.codec, b.preserves, release, rel, opts, out, exit, held, n)
    ensures out.Some? && exit == TurnedDown && b.mishaps == old(b.mishaps) ==>
      !Deployable(old(WorldOf(b)), old(b.secrets), b.codec, b.preserves, rel, opts)
    ensures out.Some? && exit == Done && b.mishaps == old(b.mishaps) ==>
      FullyTrimmed(old(b.configs), b.configs, b.codec, out.value, opts)
    ensures out.Some? ==> Describes(rel, chart, values, manifest, opts.files)
    ensures out.Some? ==> ValidReleaseName(release) && (opts.install || Exists(old(b.configs), b.codec, release))
    ensures out.None? && b.mishaps == old(b.mishaps) ==>
      !ValidReleaseName(release) || !Readable(b.configs) || (!opts.install && !Exists(b.configs, b.codec, release))
  {
    out, exit, held, n := None, TurnedDown, [], 0;
    rel := *;
    if !ValidReleaseName(release) {
      return;
    }
    var revs := Revisions(b, release);
    if revs.None? {
      return;
    }
    LiveTopExists(revs.value, b.configs, b.codec, release);
    if !LiveTop(revs.value) && !opts.install {
      return;
    }
    var r;
    r, exit, rel, held, n := Deploy(b, release, revs.value, chart, values, manifest, opts.files, opts);
    out := Some(r);
  }

  /* Deploys again what an earlier revision recorded: its files are replayed, not resolved anew. */
  method Rollback(b: Backend, release: string, target: nat, opts: Options)
    returns (out: Option<Release>, exit: Exit, ghost rel: Release, ghost held: seq<string>, ghost n: nat)
    requires ValidStore(b.configs)
    modifies b
    ensures b.mishaps >= old(b.mishaps)
    ensures ValidStore(b.configs)
    ensures Operated(old(WorldOf(b)), WorldOf(b), b.codec, b.preserves, release, rel, opts, out, exit, held, n)
    ensures out.Some? && exit == TurnedDown && b.mishaps == old(b.mishaps) ==>
      !Deployable(old(WorldOf(b)), old(b.secrets), b.codec, b.preserves, rel, opts)
    ensures out.Some? && exit == Done && b.mishaps == old(b.mishaps) ==>
      FullyTrimmed(old(b.configs), b.configs, b.codec, out.value, opts)
    ensures out.Some? ==> Stored(old(b.configs), b.codec, release, target).Some?
    ensures out.Some? ==> var t := Stored(old(b.configs), b.codec, release, target).value;
                          t.status != Failed && Describes(rel, t.chart, t.values, t.manifest, t.files)
    ensures out.None? && b.mishaps == old(b.mishaps) && Readable(b.configs) ==>
      var t := Stored(b.configs, b.codec, release, target); t.None? || t.value.status == Failed
  {
    hide Ran, Deployable, ValidStore, IsHistory;
    out, exit, held, n := None, TurnedDown, [], 0;
    rel := *;
    var revs := Revisions(b, release);
    if revs.None? {
      return;
    }
    HistoryTop(revs.value, b.configs, b.codec, release);
    if revs.value == [] {
      return;
    }
    var found := FindRevision(revs.value, target);
    if found.None? {
      NotFoundIsNotStored(revs.value, b.configs, b.codec, release, target);
      return;
    }
    FoundIsStored(revs.value, b.configs, b.codec, release, found.value);
    var t := found.value;
    if t.status == Failed {
      return;
    }
    var r;
    r, exit, rel, held, n := Deploy(b, release, revs.value, t.chart, t.values, t.manifest, t.files, opts);
    out := Some(r);
  }

  method FindRevision(revs: seq<Release>, target: nat) returns (found: Option<Release>)
    ensures found.Some? ==> found.value in revs && found.value.revision == target
    ensures found.None? ==> forall r :: r in revs ==> r.revision != target
  {
    found := None;
    for i := 0 to |revs|
      invariant found.Some? ==> found.value in revs && found.value.revision == target
      invariant found.None? ==> forall k :: 0 <= k < i ==> revs[k].revision != target
    {
      if revs[i].revision == target {
        found := Some(revs[i]);
      }
    }
  }

  lemma NotFoundIsNotStored(revs: seq<Release>, configs: Configs, codec: Codec, release: string, target: nat)
    requires IsHistory(revs, configs, codec, release) && forall r :: r in revs ==> r.revision != target
    ensures Stored(configs, codec, release, target).None?
  {
    var log: seq<Release> :| IsLog(log, configs, codec, release) && revs == Derived(log);
    forall i | 0 <= i < |log| ensures log[i].revision != target {
      DerivedAt(log, i);
      assert revs[i] in revs;
    }
  }

  lemma DerivedAt(log: seq<Release>, i: nat)
    requires i < |log|
    ensures Derived(log)[i] == log[i] || Derived(log)[i] == Supersede(log[i])
  {
  }

  /* A derived status differs from the stored one only where a deployed revision was superseded. */
  lemma FoundIsStored(revs: seq<Release>, configs: Configs, codec: Codec, release: string, r: Release)
    requires IsHistory(revs, configs, codec, release) && r in revs
    ensures Stored(configs, codec, release, r.revision).Some?
    ensures r == Stored(configs, codec, release, r.revision).value
         || r == Supersede(Stored(configs, codec, release, r.revision).value)
  {
    var log: seq<Release> :| IsLog(log, configs, codec, release) && revs == Derived(log);
    var i :| 0 <= i < |revs| && revs[i] == r;
    DerivedAt(log, i);
    assert Stored(configs, codec, release, log[i].revision) == Some(log[i]);
  }

  // ---------- What a verb leaves in the store ----------

  ghost predicate Recorded(exit: Exit) { exit in {NotReady, Done} || exit.NotRolled? }

  /* Whatever a verb did, every config but the records of its release is as it was. A record it wrote is the
     newest of its release. */
  lemma VerbKeepsOthers(
    w: World, v: World, codec: Codec, preserves: bool, release: string, rel: Release, opts: Options,
    out: Option<Release>, exit: Exit, held: seq<string>, n: nat)
    requires ValidStore(w.configs)
    requires Operated(w, v, codec, preserves, release, rel, opts, out, exit, held, n)
    ensures OthersKept(w.configs, v.configs, [release])
    ensures out.Some? && Recorded(exit) ==> IsTop(v.configs, codec, release, Decoded(codec, out.value))
    ensures out.None? || !Recorded(exit) ==> v.configs == w.configs && v.written == w.written
  {
    hide StoppedAt, Through, Launched, HeldBy, OneAtATime, HandsOnly, NetworksMadeFor, Provided, Fresh, IsTop;
    hide OneRecorded, OthersKept;
    if out.Some? && Recorded(exit) {
      var keep := if exit == Done then opts.historyMax else 0;
      OneRecordedKeeps(w.configs, v.configs, w.written, v.written, codec, out.value, keep);
    } else {
      NothingChanged(w.configs, release);
    }
  }

  lemma NothingChanged(configs: Configs, release: string)
    ensures OthersKept(configs, configs, [release])
  {
  }

  /* The log of a release grows by the revision a verb records: with no limit on the history, or with
     services that did not get ready, by that alone. With a limit the newest revisions are still there
     however many deletions fail, and nothing is there that the longer log does not have. */
  lemma LogAppended(
    w: World, v: World, codec: Codec, preserves: bool, release: string, rel: Release, opts: Options,
    out: Release, exit: Exit, held: seq<string>, n: nat, log: seq<Release>)
    requires ValidStore(w.configs) && IsLog(log, w.configs, codec, release)
    requires Operated(w, v, codec, preserves, release, rel, opts, Some(out), exit, held, n) && Recorded(exit)
    ensures var grown := log + [Decoded(codec, out)];
            && Increasing(grown)
            && (exit != Done || opts.historyMax <= 0 ==> IsLog(grown, v.configs, codec, release))
            && KeepsNewest(v.configs, codec, release, grown, if exit == Done then opts.historyMax else 0)
  {
    hide StoppedAt, Through, Launched, HeldBy, OneAtATime, HandsOnly, NetworksMadeFor, Provided;
    var mid, grown := WithRecord(w.configs, out), log + [Decoded(codec, out)];
    AppendedLog(w.configs, codec, out, log);
    if v.configs == mid {
      UntrimmedKeeps(mid, codec, release, grown, if exit == Done then opts.historyMax else 0);
    } else {
      var failed: nat :| Pruned(mid, v.configs, codec, release, opts.historyMax, failed);
      TrimmedKeeps(mid, v.configs, codec, release, grown, opts.historyMax, failed);
    }
  }

  /* What a store holds of a release is part of a log, and the newest keep of that log are all there. */
  ghost predicate KeepsNewest(configs: Configs, codec: Codec, release: string, log: seq<Release>, keep: int) {
    && (forall i {:trigger log[i]} :: 0 <= i < |log| && (keep <= 0 || |log| - keep <= i) ==>
          Stored(configs, codec, release, log[i].revision) == Some(log[i]))
    && (forall u: nat {:trigger Stored(configs, codec, release, u)} :: Stored(configs, codec, release, u).Some? ==>
          Stored(configs, codec, release, u).value in log)
  }

  lemma AppendedLog(before: Configs, codec: Codec, out: Release, log: seq<Release>)
    requires ValidStore(before) && IsLog(log, before, codec, out.name)
    requires ConfigName(out.name, out.revision) !in before && Fresh(before, codec, out.name, out.revision)
    ensures IsLog(log + [Decoded(codec, out)], WithRecord(before, out), codec, out.name)
  {
    var after, grown := WithRecord(before, out), log + [Decoded(codec, out)];
    RecordOfAgrees(out);
    forall u: nat | u != out.revision
      ensures Stored(after, codec, out.name, u) == Stored(before, codec, out.name, u)
    {
      if ConfigName(out.name, u) == ConfigName(out.name, out.revision) {
        ConfigNameInjective(out.name, u, out.name, out.revision);
      }
    }
    forall i | 0 <= i < |log| ensures log[i].revision < out.revision {
      assert Stored(before, codec, out.name, log[i].revision).Some?;
    }
    forall u: nat | Stored(after, codec, out.name, u).Some?
      ensures exists i :: 0 <= i < |grown| && grown[i].revision == u
    {
      if u == out.revision {
        assert grown[|log|].revision == u;
      } else {
        var i :| 0 <= i < |log| && log[i].revision == u;
        assert grown[i].revision == u;
      }
    }
  }

  lemma UntrimmedKeeps(configs: Configs, codec: Codec, release: string, log: seq<Release>, keep: int)
    requires IsLog(log, configs, codec, release)
    ensures KeepsNewest(configs, codec, release, log, keep)
  {
  }

  lemma TrimmedKeeps(
    before: Configs, after: Configs, codec: Codec, release: string, log: seq<Release>, keep: int, failed: nat)
    requires IsLog(log, before, codec, release) && Pruned(before, after, codec, release, keep, failed)
    ensures KeepsNewest(after, codec, release, log, keep)
  {
    var same: seq<Release> :|
      IsLog(same, before, codec, release) && Gone(before, after, Doomed(release, Plan(same, keep)), failed);
    LogUnique(log, same, before, codec, release);
    TrimmedLog(before, after, codec, release, log, keep);
  }

  lemma TrimmedLog(before: Configs, after: Configs, codec: Codec, release: string, log: seq<Release>, keep: int)
    requires IsLog(log, before, codec, release) && Trimmed(before, after, Doomed(release, Plan(log, keep)))
    ensures KeepsNewest(after, codec, release, log, keep)
  {
    hide IsLog, Stored, Doomed, Plan;
    forall i | 0 <= i < |log| && (keep <= 0 || |log| - keep <= i)
      ensures Stored(after, codec, release, log[i].revision) == Some(log[i])
    {
      Survives(before, after, codec, release, log, keep, i);
    }
    forall u: nat | Stored(after, codec, release, u).Some? ensures Stored(after, codec, release, u).value in log {
      WasLogged(before, after, codec, release, log, u);
    }
  }

  lemma Survives(
    before: Configs, after: Configs, codec: Codec, release: string, log: seq<Release>, keep: int, i: nat)
    requires IsLog(log, before, codec, release) && i < |log| && (keep <= 0 || |log| - keep <= i)
    requires Trimmed(before, after, Doomed(release, Plan(log, keep)))
    ensures Stored(after, codec, release, log[i].revision) == Some(log[i])
  {
    hide ConfigName, Doomed, Plan;
    assert Stored(before, codec, release, log[i].revision) == Some(log[i]);
    DoomedExactly(release, log, keep, log[i].revision);
  }

  lemma WasLogged(before: Configs, after: Configs, codec: Codec, release: string, log: seq<Release>, u: nat)
    requires IsLog(log, before, codec, release) && Stored(after, codec, release, u).Some?
    requires forall name :: name in after ==> name in before && after[name] == before[name]
    ensures Stored(after, codec, release, u).value in log
  {
    assert Stored(after, codec, release, u) == Stored(before, codec, release, u);
    var i :| 0 <= i < |log| && log[i].revision == u;
    assert Stored(before, codec, release, log[i].revision) == Some(log[i]);
  }

  /* When a rollback records a revision, that is the new top of its release, with the target's chart,
     manifest and files, and values that encode to the same text as the target's. */
  lemma RollbackTop(
    w: World, v: World, codec: Codec, preserves: bool, release: string, rel: Release, opts: Options,
    out: Release, exit: Exit, held: seq<string>, n: nat, target: Release)
    requires Stable(codec) && ValidStore(w.configs)
    requires Operated(w, v, codec, preserves, release, rel, opts, Some(out), exit, held, n)
    requires Recorded(exit)
    requires Describes(rel, target.chart, target.values, target.manifest, target.files)
    ensures exists top: Release ::
      && IsTop(v.configs, codec, release, top) && top.status == Deployed
      && top.chart == target.chart && top.manifest == target.manifest && top.files == target.files
      && Canonical(codec, top.values) == Canonical(codec, target.values)
      && forall u: nat :: Stored(w.configs, codec, release, u).Some? ==> u < top.revision
  {
    hide StoppedAt, Through, Launched, HeldBy, OneAtATime, HandsOnly, NetworksMadeFor, Provided, OneRecorded;
    var top := Decoded(codec, out);
    VerbKeepsOthers(w, v, codec, preserves, release, rel, opts, Some(out), exit, held, n);
    assert IsTop(v.configs, codec, release, top);
    assert Canonical(codec, Reread(codec, target.values)) == Canonical(codec, target.values);
  }
}
