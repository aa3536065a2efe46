/** Applying a plan (charts/apply.go): wave by wave, and what is left for the next plan to do. */
module Apply {
  import opened Text
  import opened Values
  import opened Manifests
  import opened Releases
  import opened History
  import opened Backends
  import opened Flights
  import opened Rollout
  import opened Waiting
  import opened Preflight
  import opened Pruning
  import opened Deploys
  import opened Engine
  import opened Verbs
  import opened Planning
  import Owner

  datatype Result = Result(name: string, action: Action, revision: nat)

  // ---------- Waves ----------

  function Flat(groups: seq<seq<Entry>>): seq<Entry> {
    if groups == [] then [] else Flat(groups[..|groups| - 1]) + groups[|groups| - 1]
  }

  ghost predicate OneWave(group: seq<Entry>) {
    group != [] && forall i :: 0 <= i < |group| ==> group[i].wanted.wave == group[0].wanted.wave
  }

  /* Non-empty runs of one wave each that make up the plan, none of which could have been longer. */
  ghost predicate MaximalRuns(groups: seq<seq<Entry>>, releases: seq<Entry>) {
    && Flat(groups) == releases
    && (forall g :: 0 <= g < |groups| ==> OneWave(groups[g]))
    && (forall g :: 0 <= g < |groups| - 1 ==> groups[g][0].wanted.wave != groups[g + 1][0].wanted.wave)
  }

  /* The runs of the first releases, the last of which cannot go on. */
  ghost predicate RunsUpTo(groups: seq<seq<Entry>>, releases: seq<Entry>, start: nat) {
    && start <= |releases| && MaximalRuns(groups, releases[..start])
    && (groups != [] && start < |releases| ==>
          groups[|groups| - 1][0].wanted.wave != releases[start].wanted.wave)
  }

  lemma AddRun(groups: seq<seq<Entry>>, releases: seq<Entry>, start: nat, end: nat)
    requires RunsUpTo(groups, releases, start) && start < end <= |releases|
    requires forall k :: start <= k < end ==> releases[k].wanted.wave == releases[start].wanted.wave
    requires end < |releases| ==> releases[end].wanted.wave != releases[start].wanted.wave
    ensures RunsUpTo(groups + [releases[start..end]], releases, end)
  {
    var more := groups + [releases[start..end]];
    assert more[..|groups|] == groups;
    assert releases[..start] + releases[start..end] == releases[..end];
  }

  method WaveGroups(releases: seq<Entry>) returns (groups: seq<seq<Entry>>)
    ensures MaximalRuns(groups, releases)
  {
    groups := [];
    var start := 0;
    for i := 0 to |releases|
      invariant start <= i && RunsUpTo(groups, releases, start)
      invariant i == |releases| ==> start == i
      invariant forall k :: start <= k <= i < |releases| ==> releases[k].wanted.wave == releases[start].wanted.wave
    {
      if i + 1 < |releases| && releases[i + 1].wanted.wave == releases[start].wanted.wave {
        continue;
      }
      AddRun(groups, releases, start, i + 1);
      groups := groups + [releases[start..i + 1]];
      start := i + 1;
    }
    assert releases[..|releases|] == releases;
  }

  /* In a plan sorted by wave, later groups are of strictly later waves. */
  lemma {:induction false} GroupsAscend(groups: seq<seq<Entry>>, releases: seq<Entry>, g: nat, h: nat)
    requires MaximalRuns(groups, releases) && ByWave(releases) && g < h < |groups|
    ensures groups[g][0].wanted.wave < groups[h][0].wanted.wave
    decreases h
  {
    var i, j := |Flat(groups[..h - 1])|, |Flat(groups[..h])|;
    FlatAt(groups, h - 1, 0);
    FlatAt(groups, h, 0);
    assert groups[..h][..h - 1] == groups[..h - 1];
    if g < h - 1 { GroupsAscend(groups, releases, g, h - 1); }
  }

  lemma {:induction false} FlatPrefix(groups: seq<seq<Entry>>, g: nat)
    requires g <= |groups|
    ensures Flat(groups[..g]) <= Flat(groups)
    decreases |groups|
  {
    if g == |groups| {
      assert groups[..g] == groups;
    } else {
      var less := groups[..|groups| - 1];
      FlatPrefix(less, g);
      assert less[..g] == groups[..g];
    }
  }

  /* Where the k-th entry of group g stands in the plan. */
  lemma FlatAt(groups: seq<seq<Entry>>, g: nat, k: nat)
    requires g < |groups| && k < |groups[g]|
    ensures |Flat(groups[..g])| + k < |Flat(groups)|
    ensures Flat(groups)[|Flat(groups[..g])| + k] == groups[g][k]
    ensures Flat(groups[..g + 1]) == Flat(groups[..g]) + groups[g]
  {
    FlatPrefix(groups, g + 1);
    assert groups[..g + 1][..g] == groups[..g];
    var more := Flat(groups[..g + 1]);
    assert more[|Flat(groups[..g])| + k] == groups[g][k];
  }

  // ---------- One release ----------

  predicate Writes(e: Entry) { e.action != Unchanged }

  /* The release an entry deploys, if it does. */
  function Adds(e: Entry): seq<string> { if Writes(e) then [e.wanted.name] else [] }

  /* The releases a run of entries deploys, in order. */
  function Wrote(entries: seq<Entry>): seq<string> {
    if entries == [] then []
    else
      var last := entries[|entries| - 1];
      Wrote(entries[..|entries| - 1]) + Adds(last)
  }

  lemma WroteNext(entries: seq<Entry>, e: Entry)
    ensures Wrote(entries + [e]) == Wrote(entries) + Adds(e)
  {
    assert (entries + [e])[..|entries|] == entries;
  }

  lemma {:induction false} WroteElements(entries: seq<Entry>)
    ensures forall n :: n in Wrote(entries) <==>
      exists i :: 0 <= i < |entries| && Writes(entries[i]) && entries[i].wanted.name == n
    decreases |entries|
  {
    if entries != [] {
      var less, e := entries[..|entries| - 1], entries[|entries| - 1];
      WroteElements(less);
      WroteNext(less, e);
      assert entries == less + [e];
    }
  }

  lemma WroteGrows(entries: seq<Entry>, more: seq<Entry>, n: string)
    requires entries <= more && n in Wrote(entries)
    ensures n in Wrote(more)
  {
    WroteElements(entries);
    WroteElements(more);
  }

  /* A result says what was done for its entry. */
  predicate Reports(r: Result, e: Entry) {
    r.name == e.wanted.name && r.action == e.action && (e.action == Unchanged ==> r.revision == 0)
  }

  ghost predicate ReportsAll(results: seq<Result>, entries: seq<Entry>) {
    |results| <= |entries| && forall i {:trigger results[i]} :: 0 <= i < |results| ==> Reports(results[i], entries[i])
  }

  /* The configs the results say were written. */
  function WrittenBy(results: seq<Result>): seq<string> {
    if results == [] then []
    else
      var last := results[|results| - 1];
      WrittenBy(results[..|results| - 1]) +
      if last.action == Unchanged then [] else [ConfigName(last.name, last.revision)]
  }

  lemma WrittenNext(results: seq<Result>, r: Result)
    ensures WrittenBy(results + [r])
         == WrittenBy(results) + if r.action == Unchanged then [] else [ConfigName(r.name, r.revision)]
  {
    assert (results + [r])[..|results|] == results;
  }

  /* Everything handed over since was for one of these releases. */
  ghost predicate HandsFor(before: seq<Event>, after: seq<Event>, names: seq<string>) {
    before <= after
    && forall i {:trigger after[i]} :: |before| <= i < |after| && after[i].Handed? ==> after[i].release in names
  }

  /* What an apply writes to besides the stacks: the store, the names written to it, and the networks. */
  datatype Ledger = Ledger(configs: Configs, written: seq<string>, networks: map<string, Network>)

  function LedgerIn(w: World): Ledger { Ledger(w.configs, w.written, w.networks) }

  ghost function LedgerOf(b: Backend): Ledger
    reads b
  {
    LedgerIn(WorldOf(b))
  }

  /* A revision recorded for an entry makes the entry hold: it has what was wanted, and a stamp that the
     plan's owner reads as its own. */
  lemma RecordedHolds(
    w: World, v: World, codec: Codec, preserves: bool, e: Wanted, rel: Release, opts: Options, out: Release,
    held: seq<string>, n: nat)
    requires Stable(codec) && ValidReleaseName(e.name) && ValidStore(w.configs)
    requires Operated(w, v, codec, preserves, e.name, rel, opts, Some(out), Done, held, n)
    requires Describes(rel, e.chart, e.values, e.manifest, e.files)
    ensures Holds(v.configs, codec, opts.owner, e)
  {
    var top := Decoded(codec, out);
    VerbKeepsOthers(w, v, codec, preserves, e.name, rel, opts, Some(out), Done, held, n);
    assert Canonical(codec, Reread(codec, e.values)) == Canonical(codec, e.values);
    StampIsText(opts.owner, e.name);
    if opts.owner != "" {
      Owner.StampReadsBackIff(Owner.OwnerRef(opts.owner, Owner.OWNER_KIND_RELEASE, e.name));
      assert OwnedBy(top, opts.owner);
    }
    SameSaysAll(codec, top, e, opts.owner);
    assert Same(codec, top, e, opts.owner);
  }

  // ---------- What is kept ----------

  ghost predicate DistinctNames(entries: seq<Entry>) {
    forall i, j :: 0 <= i < j < |entries| ==> entries[i].wanted.name != entries[j].wanted.name
  }

  /* The log of a release grew by one revision at most. With a limit its newest revisions are still there;
     with none, all of it. */
  ghost predicate Keeps(before: Configs, after: Configs, codec: Codec, release: string, keep: int) {
    forall log: seq<Release> {:trigger IsLog(log, before, codec, release)} :: IsLog(log, before, codec, release) ==>
      exists grown: seq<Release> :: GrownBy(log, grown) && KeepsNewest(after, codec, release, grown, keep)
  }

  predicate GrownBy(log: seq<Release>, grown: seq<Release>) { log <= grown && |grown| <= |log| + 1 }

  ghost predicate LogsKept(before: Configs, after: Configs, codec: Codec, keep: int) {
    forall release: string {:trigger Keeps(before, after, codec, release, keep)} ::
      Keeps(before, after, codec, release, keep)
  }

  ghost predicate MadeForOne(networks: map<string, Network>, name: string, entries: seq<Entry>) {
    exists i :: 0 <= i < |entries| && Writes(entries[i])
                && MadeBy(networks, name, entries[i].wanted.manifest, entries[i].wanted.requirements)
  }

  /* Every network that was there is as it was, and every other was made for an entry that writes. */
  ghost predicate NetworksFor(before: map<string, Network>, after: map<string, Network>, entries: seq<Entry>) {
    && (forall n :: n in before ==> n in after && after[n] == before[n])
    && (forall n :: n in after && n !in before ==> MadeForOne(after, n, entries))
  }

  /* What applying a run of entries keeps, to the end or not: every config but the records of the releases
     they write, the newest of those, and every network. */
  ghost predicate AllKept(l: Ledger, m: Ledger, codec: Codec, entries: seq<Entry>, keep: int) {
    && OthersKept(l.configs, m.configs, Wrote(entries))
    && NetworksFor(l.networks, m.networks, entries)
    && (DistinctNames(entries) ==> LogsKept(l.configs, m.configs, codec, keep))
  }

  lemma KeptNothing(l: Ledger, codec: Codec, keep: int)
    ensures AllKept(l, l, codec, [], keep)
  {
    forall release: string ensures Keeps(l.configs, l.configs, codec, release, keep) {
      SameLogKeeps(l.configs, l.configs, codec, release, keep);
    }
  }

  /* A release whose records read as before keeps its log. */
  lemma SameLogKeeps(before: Configs, after: Configs, codec: Codec, release: string, keep: int)
    requires forall u: nat :: Stored(after, codec, release, u) == Stored(before, codec, release, u)
    ensures Keeps(before, after, codec, release, keep)
  {
    forall log: seq<Release> | IsLog(log, before, codec, release)
      ensures exists grown: seq<Release> :: GrownBy(log, grown) && KeepsNewest(after, codec, release, grown, keep)
    {
      assert IsLog(log, after, codec, release);
      UntrimmedKeeps(after, codec, release, log, keep);
      assert GrownBy(log, log);
    }
  }

  lemma WroteOne(e: Entry)
    ensures Wrote([e]) == Adds(e)
  {
    assert [e] == [] + [e];
    WroteNext([], e);
  }

  /* What is kept for some entries is kept for more. */
  lemma KeptMore(l: Ledger, m: Ledger, codec: Codec, entries: seq<Entry>, more: seq<Entry>, keep: int)
    requires AllKept(l, m, codec, entries, keep) && entries <= more
    ensures AllKept(l, m, codec, more, keep)
  {
    hide LogsKept, MadeBy;
    forall n | n in Wrote(entries) ensures n in Wrote(more) { WroteGrows(entries, more, n); }
    forall n | n in m.networks && n !in l.networks ensures MadeForOne(m.networks, n, more) {
      var i :| 0 <= i < |entries| && Writes(entries[i])
               && MadeBy(m.networks, n, entries[i].wanted.manifest, entries[i].wanted.requirements);
      assert more[i] == entries[i];
    }
    PrefixDistinct(entries, more);
  }

  lemma PrefixDistinct(entries: seq<Entry>, more: seq<Entry>)
    requires entries <= more
    ensures DistinctNames(more) ==> DistinctNames(entries)
  {
    assert forall i :: 0 <= i < |entries| ==> entries[i] == more[i];
  }

  lemma NetworksTwice(
    a: map<string, Network>, b: map<string, Network>, c: map<string, Network>, entries: seq<Entry>, e: Entry)
    requires NetworksFor(a, b, entries) && NetworksFor(b, c, [e])
    ensures NetworksFor(a, c, entries + [e])
  {
    var more := entries + [e];
    forall n | n in c && n !in a ensures MadeForOne(c, n, more) {
      if n in b {
        var i :| 0 <= i < |entries| && Writes(entries[i])
                 && MadeBy(b, n, entries[i].wanted.manifest, entries[i].wanted.requirements);
        assert more[i] == entries[i];
      } else {
        assert more[|entries|] == [e][0];
      }
    }
  }

  /* Keeping for some entries and then for one more is keeping for all of them. */
  lemma KeptTwice(l: Ledger, m: Ledger, o: Ledger, codec: Codec, entries: seq<Entry>, e: Entry, keep: int)
    requires AllKept(l, m, codec, entries, keep) && AllKept(m, o, codec, [e], keep)
    ensures AllKept(l, o, codec, entries + [e], keep)
  {
    hide Keeps, NetworksFor;
    var more := entries + [e];
    WroteNext(entries, e);
    WroteOne(e);
    OthersTwice(l.configs, m.configs, o.configs, Wrote(entries), Adds(e));
    NetworksTwice(l.networks, m.networks, o.networks, entries, e);
    if DistinctNames(more) {
      PrefixDistinct(entries, more);
      NotWrittenBefore(entries, e);
      LogsKeptTwice(l.configs, m.configs, o.configs, codec, Wrote(entries), Adds(e), keep);
    }
  }

  lemma NotWrittenBefore(entries: seq<Entry>, e: Entry)
    requires DistinctNames(entries + [e])
    ensures e.wanted.name !in Wrote(entries)
  {
    WroteElements(entries);
    var more := entries + [e];
    forall i | 0 <= i < |entries| ensures entries[i].wanted.name != e.wanted.name {
      assert more[i].wanted.name != more[|entries|].wanted.name;
    }
  }

  lemma OthersTwice(a: Configs, b: Configs, c: Configs, names: seq<string>, more: seq<string>)
    requires OthersKept(a, b, names) && OthersKept(b, c, more)
    ensures OthersKept(a, c, names + more)
  {
  }

  lemma LogsKeptTwice(
    a: Configs, b: Configs, c: Configs, codec: Codec, names: seq<string>, more: seq<string>, keep: int)
    requires OthersKept(a, b, names) && OthersKept(b, c, more)
    requires forall n :: n in more ==> n !in names
    requires LogsKept(a, b, codec, keep) && LogsKept(b, c, codec, keep)
    ensures LogsKept(a, c, codec, keep)
  {
    hide OthersKept, Keeps, Stored;
    forall release: string ensures Keeps(a, c, codec, release, keep) {
      if release in more {
        assert Keeps(b, c, codec, release, keep);
        forall u: nat ensures Stored(b, codec, release, u) == Stored(a, codec, release, u) {
          OthersStored(a, b, codec, names, release, u);
        }
        KeepsFromSame(a, b, c, codec, release, keep);
      } else {
        assert Keeps(a, b, codec, release, keep);
        forall u: nat ensures Stored(c, codec, release, u) == Stored(b, codec, release, u) {
          OthersStored(b, c, codec, more, release, u);
        }
        KeepsToSame(a, b, c, codec, release, keep);
      }
    }
  }

  lemma KeepsFromSame(a: Configs, b: Configs, c: Configs, codec: Codec, release: string, keep: int)
    requires forall u: nat :: Stored(b, codec, release, u) == Stored(a, codec, release, u)
    requires Keeps(b, c, codec, release, keep)
    ensures Keeps(a, c, codec, release, keep)
  {
    hide Stored, KeepsNewest;
    assert forall log: seq<Release> :: IsLog(log, a, codec, release) ==> IsLog(log, b, codec, release);
  }

  lemma KeepsToSame(a: Configs, b: Configs, c: Configs, codec: Codec, release: string, keep: int)
    requires forall u: nat :: Stored(c, codec, release, u) == Stored(b, codec, release, u)
    requires Keeps(a, b, codec, release, keep)
    ensures Keeps(a, c, codec, release, keep)
  {
    hide Stored, IsLog;
    forall log: seq<Release> | IsLog(log, a, codec, release)
      ensures exists grown: seq<Release> :: GrownBy(log, grown) && KeepsNewest(c, codec, release, grown, keep)
    {
      var grown: seq<Release> :| GrownBy(log, grown) && KeepsNewest(b, codec, release, grown, keep);
      assert KeepsNewest(c, codec, release, grown, keep);
    }
  }

  // ---------- One release ----------

  /* That number is the newest of a release. */
  ghost predicate TopAt(configs: Configs, codec: Codec, release: string, revision: nat) {
    && Stored(configs, codec, release, revision).Some?
    && forall u: nat :: Stored(configs, codec, release, u).Some? ==> u <= revision
  }

  /* The revision a result names is the newest of its release, and what was wanted. */
  ghost predicate Stands(configs: Configs, codec: Codec, owner: string, e: Entry, r: Result) {
    && TopAt(configs, codec, e.wanted.name, r.revision)
    && (Stable(codec) ==> Holds(configs, codec, owner, e.wanted))
  }

  /* What deploying one entry leaves. */
  ghost predicate EntryApplied(l: Ledger, m: Ledger, codec: Codec, e: Entry, opts: Options, r: Result) {
    && Reports(r, e) && AllKept(l, m, codec, [e], opts.historyMax)
    && if opts.dryRun then m == l
       else
         && m.written == l.written + [ConfigName(e.wanted.name, r.revision)]
         && Stands(m.configs, codec, opts.owner, e, r)
  }

  /* What an entry is deployed with: its own requirements and files, and installing it when it is not there. */
  function OptionsFor(e: Entry, opts: Options): Options {
    opts.(requirements := e.wanted.requirements, files := e.wanted.files, install := true)
  }

  /* Why an entry was not applied: its name is not allowed or the store cannot be read; it cannot be deployed;
     or a deploy, the record, the rollout or the wait failed. */
  ghost predicate EntryBlocked(
    w: World, v: World, secrets: set<string>, codec: Codec, preserves: bool, e: Entry, opts: Options)
  {
    exists rel: Release, out: Option<Release>, exit: Exit, held: seq<string>, n: nat ::
      && Operated(w, v, codec, preserves, e.wanted.name, rel, OptionsFor(e, opts), out, exit, held, n)
      && exit !in {Done, Engine.Planned}
      && (out.None? ==> !ValidReleaseName(e.wanted.name) || !Readable(w.configs))
      && (out.Some? && exit == TurnedDown ==> !Deployable(w, secrets, codec, preserves, rel, OptionsFor(e, opts)))
      && (out.Some? ==> Describes(rel, e.wanted.chart, e.wanted.values, e.wanted.manifest, e.wanted.files))
  }

  /* One of the entries of a wave was not applied. */
  ghost predicate WaveBlocked(v: World, codec: Codec, preserves: bool, wave: seq<Entry>, k: int, opts: Options) {
    && 0 <= k < |wave| && Writes(wave[k])
    && exists w: World, secrets: set<string> :: EntryBlocked(w, v, secrets, codec, preserves, wave[k], opts)
  }

  method ApplyEntry(b: Backend, e: Entry, opts: Options) returns (ok: bool, r: Result)
    requires ValidStore(b.configs) && Writes(e)
    modifies b
    ensures b.mishaps >= old(b.mishaps)
    ensures ValidStore(b.configs) && AllKept(old(LedgerOf(b)), LedgerOf(b), b.codec, [e], opts.historyMax)
    ensures HandsFor(old(b.trace), b.trace, [e.wanted.name])
    ensures old(b.written) <= b.written && |b.written| <= |old(b.written)| + 1
    ensures opts.dryRun ==> LedgerOf(b) == old(LedgerOf(b))
    ensures ok ==> EntryApplied(old(LedgerOf(b)), LedgerOf(b), b.codec, e, opts, r)
    ensures !ok && b.mishaps == old(b.mishaps) ==>
      EntryBlocked(old(WorldOf(b)), WorldOf(b), old(b.secrets), b.codec, b.preserves, e, opts)
  {
    hide AllKept, Operated, OthersKept, IsTop, ValidStore, Deployable, Describes, Readable;
    ghost var w := WorldOf(b);
    var o := opts.(requirements := e.wanted.requirements, files := e.wanted.files, install := true);
    var wanted := e.wanted;
    var out, exit, rel, held, n := Upgrade(b, wanted.name, wanted.chart, wanted.values, wanted.manifest, o);
    ghost var v := WorldOf(b);
    ok, r := exit in {Done, Engine.Planned}, Result(wanted.name, e.action, 0);
    UpgradeKeeps(w, v, b.codec, b.preserves, e, rel, o, out, exit, held, n);
    if ok {
      r := Result(wanted.name, e.action, out.value.revision);
      if exit == Done {
        UpgradeStands(w, v, b.codec, b.preserves, e, rel, o, out.value, held, n, r);
      }
    } else if b.mishaps == old(b.mishaps) {
      assert o == OptionsFor(e, opts);
      assert Operated(w, v, b.codec, b.preserves, wanted.name, rel, OptionsFor(e, opts), out, exit, held, n);
      assert out.None? ==> !ValidReleaseName(wanted.name) || !Readable(w.configs);
      assert out.Some? && exit == TurnedDown ==> !Deployable(w, old(b.secrets), b.codec, b.preserves, rel, o);
      assert out.Some? ==> Describes(rel, wanted.chart, wanted.values, wanted.manifest, wanted.files);
    }
  }

  /* Whatever an upgrade did, it wrote for its release only. */
  lemma UpgradeKeeps(
    w: World, v: World, codec: Codec, preserves: bool, e: Entry, rel: Release, opts: Options,
    out: Option<Release>, exit: Exit, held: seq<string>, n: nat)
    requires ValidStore(w.configs) && Writes(e) && opts.requirements == e.wanted.requirements
    requires Operated(w, v, codec, preserves, e.wanted.name, rel, opts, out, exit, held, n)
    requires out.Some? ==> rel.manifest == e.wanted.manifest
    ensures AllKept(LedgerIn(w), LedgerIn(v), codec, [e], opts.historyMax)
    ensures HandsFor(w.trace, v.trace, [e.wanted.name])
    ensures w.written <= v.written && |v.written| <= |w.written| + 1
    ensures opts.dryRun || out.None? ==> v == w
    ensures exit == Engine.Planned ==> out.Some? && opts.dryRun
    ensures exit == Done ==> out.Some? && !opts.dryRun
  {
    hide Keeps, Through, StoppedAt, Launched, HeldBy, OneAtATime, OthersKept, IsTop, Provided, MadeBy, ValidStore;
    hide Fresh;
    VerbKeepsOthers(w, v, codec, preserves, e.wanted.name, rel, opts, out, exit, held, n);
    WroteOne(e);
    UpgradeKeepsLogs(w, v, codec, preserves, e.wanted.name, rel, opts, out, exit, held, n);
    if out.Some? {
      MadeForEntry(w.networks, v.networks, e);
      HandedFor(w.trace, v.trace, rel);
    } else {
      MadeForEntry(w.networks, v.networks, e);
    }
  }

  lemma MadeForEntry(before: map<string, Network>, after: map<string, Network>, e: Entry)
    requires Writes(e) && NetworksMadeFor(before, after, e.wanted.manifest, e.wanted.requirements)
    ensures NetworksFor(before, after, [e])
  {
    hide MadeBy;
    forall n | n in after && n !in before ensures MadeForOne(after, n, [e]) {
      assert [e][0] == e;
    }
  }

  lemma HandedFor(before: seq<Event>, after: seq<Event>, rel: Release)
    requires before <= after && HandsOnly(Since(after, |before|), rel)
    ensures HandsFor(before, after, [rel.name])
  {
    var events := Since(after, |before|);
    forall i | |before| <= i < |after| && after[i].Handed? ensures after[i].release == rel.name {
      assert HandsAs(events[i - |before|], rel);
    }
  }

  lemma UpgradeKeepsLogs(
    w: World, v: World, codec: Codec, preserves: bool, release: string, rel: Release, opts: Options,
    out: Option<Release>, exit: Exit, held: seq<string>, n: nat)
    requires ValidStore(w.configs)
    requires Operated(w, v, codec, preserves, release, rel, opts, out, exit, held, n)
    ensures LogsKept(w.configs, v.configs, codec, opts.historyMax)
  {
    hide Operated, Stored, OthersKept, ValidStore, IsTop;
    VerbKeepsOthers(w, v, codec, preserves, release, rel, opts, out, exit, held, n);
    forall other: string ensures Keeps(w.configs, v.configs, codec, other, opts.historyMax) {
      if other == release && v.configs != w.configs {
        UpgradeKeepsLog(w, v, codec, preserves, release, rel, opts, out, exit, held, n);
      } else if other == release {
        SameLogKeeps(w.configs, v.configs, codec, other, opts.historyMax);
      } else {
        forall u: nat ensures Stored(v.configs, codec, other, u) == Stored(w.configs, codec, other, u) {
          OthersStored(w.configs, v.configs, codec, [release], other, u);
        }
        SameLogKeeps(w.configs, v.configs, codec, other, opts.historyMax);
      }
    }
  }

  lemma UpgradeKeepsLog(
    w: World, v: World, codec: Codec, preserves: bool, release: string, rel: Release, opts: Options,
    out: Option<Release>, exit: Exit, held: seq<string>, n: nat)
    requires ValidStore(w.configs) && out.Some? && Recorded(exit)
    requires Operated(w, v, codec, preserves, release, rel, opts, out, exit, held, n)
    ensures Keeps(w.configs, v.configs, codec, release, opts.historyMax)
  {
    hide Operated, Stored, IsLog;
    var top := Decoded(codec, out.value);
    forall log: seq<Release> | IsLog(log, w.configs, codec, release)
      ensures exists grown: seq<Release> :: GrownBy(log, grown)
                && KeepsNewest(v.configs, codec, release, grown, opts.historyMax)
    {
      LogAppended(w, v, codec, preserves, release, rel, opts, out.value, exit, held, n, log);
      assert GrownBy(log, log + [top]);
      assert KeepsNewest(v.configs, codec, release, log + [top], opts.historyMax);
    }
  }

  /* And one that finished recorded what was wanted. */
  lemma UpgradeStands(
    w: World, v: World, codec: Codec, preserves: bool, e: Entry, rel: Release, opts: Options, out: Release,
    held: seq<string>, n: nat, r: Result)
    requires ValidStore(w.configs) && ValidReleaseName(e.wanted.name) && r.revision == out.revision
    requires Operated(w, v, codec, preserves, e.wanted.name, rel, opts, Some(out), Done, held, n)
    requires Describes(rel, e.wanted.chart, e.wanted.values, e.wanted.manifest, e.wanted.files)
    ensures v.written == w.written + [ConfigName(e.wanted.name, r.revision)]
    ensures Stands(v.configs, codec, opts.owner, e, r)
  {
    hide Through, StoppedAt, Launched, HeldBy, OneAtATime, OthersKept, Provided, MadeBy, ValidStore, Fresh;
    hide Describes, NetworksMadeFor, HandsOnly, Holds, ValidReleaseName;
    VerbKeepsOthers(w, v, codec, preserves, e.wanted.name, rel, opts, Some(out), Done, held, n);
    if Stable(codec) {
      RecordedHolds(w, v, codec, preserves, e.wanted, rel, opts, out, held, n);
    }
  }

  // ---------- Many releases ----------

  /* What the results say was written stands. */
  ghost predicate AllStand(configs: Configs, codec: Codec, owner: string, entries: seq<Entry>, results: seq<Result>)
    requires |results| <= |entries|
  {
    forall i {:trigger results[i]} :: 0 <= i < |results| && Writes(entries[i]) ==>
      Stands(configs, codec, owner, entries[i], results[i])
  }

  /* What applying a run of entries leaves: one record for each that writes, each of which then stands, and
     all else kept. */
  ghost predicate Applied(
    l: Ledger, m: Ledger, codec: Codec, entries: seq<Entry>, opts: Options, results: seq<Result>)
  {
    && |results| == |entries| && ReportsAll(results, entries)
    && m.written == l.written + (if opts.dryRun then [] else WrittenBy(results))
    && AllKept(l, m, codec, entries, opts.historyMax)
    && (opts.dryRun ==> m == l)
    && (!opts.dryRun && DistinctNames(entries) ==> AllStand(m.configs, codec, opts.owner, entries, results))
  }

  /* Writing other releases' records does not change what holds of this one. */
  lemma HoldsStays(before: Configs, after: Configs, codec: Codec, names: seq<string>, owner: string, e: Wanted)
    requires OthersKept(before, after, names) && e.name !in names
    ensures Holds(before, codec, owner, e) <==> Holds(after, codec, owner, e)
  {
    hide OthersKept;
    forall u: nat ensures Stored(after, codec, e.name, u) == Stored(before, codec, e.name, u) {
      OthersStored(before, after, codec, names, e.name, u);
    }
    assert forall cur: Release :: IsTop(before, codec, e.name, cur) <==> IsTop(after, codec, e.name, cur);
  }

  lemma StandsStays(
    before: Configs, after: Configs, codec: Codec, names: seq<string>, owner: string, e: Entry, r: Result)
    requires OthersKept(before, after, names) && e.wanted.name !in names && Stands(before, codec, owner, e, r)
    ensures Stands(after, codec, owner, e, r)
  {
    hide OthersKept, Holds, Stored;
    forall u: nat ensures Stored(after, codec, e.wanted.name, u) == Stored(before, codec, e.wanted.name, u) {
      OthersStored(before, after, codec, names, e.wanted.name, u);
    }
    HoldsStays(before, after, codec, names, owner, e.wanted);
  }

  lemma ReportsEach(l: Ledger, m: Ledger, codec: Codec, entries: seq<Entry>, opts: Options, results: seq<Result>)
    requires Applied(l, m, codec, entries, opts, results)
    ensures |results| == |entries|
  {
  }

  lemma AppliedNothing(l: Ledger, codec: Codec, opts: Options)
    ensures Applied(l, l, codec, [], opts, [])
  {
    KeptNothing(l, codec, opts.historyMax);
    assert l.written + [] == l.written;
  }

  lemma AppliedUnchanged(
    l: Ledger, m: Ledger, codec: Codec, entries: seq<Entry>, opts: Options, results: seq<Result>, e: Entry, r: Result)
    requires Applied(l, m, codec, entries, opts, results) && !Writes(e) && Reports(r, e)
    ensures Applied(l, m, codec, entries + [e], opts, results + [r])
  {
    hide AllKept, Stands;
    WrittenNext(results, r);
    KeptMore(l, m, codec, entries, entries + [e], opts.historyMax);
    PrefixDistinct(entries, entries + [e]);
    assert WrittenBy(results) + [] == WrittenBy(results);
  }

  lemma AppliedNext(
    l: Ledger, m: Ledger, o: Ledger, codec: Codec, entries: seq<Entry>, opts: Options, results: seq<Result>,
    e: Entry, r: Result)
    requires Applied(l, m, codec, entries, opts, results) && Writes(e)
    requires EntryApplied(m, o, codec, e, opts, r)
    ensures Applied(l, o, codec, entries + [e], opts, results + [r])
  {
    hide AllKept, Stands, AllStand;
    WrittenNext(results, r);
    KeptTwice(l, m, o, codec, entries, e, opts.historyMax);
    if !opts.dryRun && DistinctNames(entries + [e]) {
      PrefixDistinct(entries, entries + [e]);
      KeptOthers(m, o, codec, e, opts.historyMax);
      AllStandNext(m.configs, o.configs, codec, opts.owner, entries, results, e, r);
    }
  }

  lemma KeptOthers(l: Ledger, m: Ledger, codec: Codec, e: Entry, keep: int)
    requires AllKept(l, m, codec, [e], keep) && Writes(e)
    ensures OthersKept(l.configs, m.configs, [e.wanted.name])
  {
    WroteOne(e);
  }

  lemma AllStandNext(
    before: Configs, after: Configs, codec: Codec, owner: string, entries: seq<Entry>, results: seq<Result>,
    e: Entry, r: Result)
    requires |results| == |entries| && AllStand(before, codec, owner, entries, results)
    requires DistinctNames(entries + [e]) && OthersKept(before, after, [e.wanted.name])
    requires Stands(after, codec, owner, e, r)
    ensures AllStand(after, codec, owner, entries + [e], results + [r])
  {
    hide Stands, OthersKept;
    var more, all := entries + [e], results + [r];
    forall i | 0 <= i < |all| && Writes(more[i]) ensures Stands(after, codec, owner, more[i], all[i]) {
      if i < |entries| {
        assert results[i] == all[i] && more[i].wanted.name != more[|entries|].wanted.name;
        StandsStays(before, after, codec, [e.wanted.name], owner, entries[i], results[i]);
      }
    }
  }

  /* What a run that stopped leaves: its results are a prefix of the entries, what they say was written
     stands, and at most one record more was written, of a release among them. */
  ghost predicate PartlyApplied(
    l: Ledger, m: Ledger, codec: Codec, entries: seq<Entry>, opts: Options, results: seq<Result>)
  {
    && ReportsAll(results, entries)
    && AllKept(l, m, codec, entries, opts.historyMax)
    && (opts.dryRun ==> m == l)
    && (!opts.dryRun && DistinctNames(entries) ==> AllStand(m.configs, codec, opts.owner, entries, results))
    && var reported := if opts.dryRun then [] else WrittenBy(results);
    && l.written + reported <= m.written && |m.written| <= |l.written| + |reported| + 1
  }

  /* A run that stopped between two entries. */
  lemma AppliedPartly(
    l: Ledger, m: Ledger, codec: Codec, entries: seq<Entry>, more: seq<Entry>, opts: Options, results: seq<Result>)
    requires Applied(l, m, codec, entries, opts, results) && entries <= more
    ensures PartlyApplied(l, m, codec, more, opts, results)
  {
    hide AllKept, Stands;
    KeptMore(l, m, codec, entries, more, opts.historyMax);
    PrefixDistinct(entries, more);
    forall i | 0 <= i < |results| && Writes(more[i]) && AllStand(m.configs, codec, opts.owner, entries, results)
      ensures Stands(m.configs, codec, opts.owner, more[i], results[i])
    {
      assert more[i] == entries[i];
    }
  }

  /* A run that stopped at an entry. */
  lemma StoppedAtEntry(
    l: Ledger, m: Ledger, o: Ledger, codec: Codec, entries: seq<Entry>, e: Entry, opts: Options, results: seq<Result>)
    requires Applied(l, m, codec, entries, opts, results) && Writes(e)
    requires AllKept(m, o, codec, [e], opts.historyMax) && (opts.dryRun ==> o == m)
    requires m.written <= o.written && |o.written| <= |m.written| + 1
    ensures PartlyApplied(l, o, codec, entries + [e], opts, results)
  {
    hide AllKept, Stands;
    var more := entries + [e];
    KeptTwice(l, m, o, codec, entries, e, opts.historyMax);
    KeptOthers(m, o, codec, e, opts.historyMax);
    PrefixDistinct(entries, more);
    if DistinctNames(more) && !opts.dryRun {
      forall i | 0 <= i < |results| && Writes(more[i])
        ensures Stands(o.configs, codec, opts.owner, more[i], results[i])
      {
        assert more[i] == entries[i] && more[i].wanted.name != more[|entries|].wanted.name;
        StandsStays(m.configs, o.configs, codec, [e.wanted.name], opts.owner, entries[i], results[i]);
      }
    }
  }

  lemma PartlyMore(
    l: Ledger, m: Ledger, codec: Codec, entries: seq<Entry>, more: seq<Entry>, opts: Options, results: seq<Result>)
    requires PartlyApplied(l, m, codec, entries, opts, results) && entries <= more
    ensures PartlyApplied(l, m, codec, more, opts, results)
  {
    hide AllKept, Stands;
    KeptMore(l, m, codec, entries, more, opts.historyMax);
    PrefixDistinct(entries, more);
    forall i | 0 <= i < |results| && Writes(more[i]) && AllStand(m.configs, codec, opts.owner, entries, results)
      ensures Stands(m.configs, codec, opts.owner, more[i], results[i])
    {
      assert more[i] == entries[i];
    }
  }

  lemma HandsForTwice(a: seq<Event>, b: seq<Event>, c: seq<Event>, names: seq<string>, more: seq<string>)
    requires HandsFor(a, b, names) && HandsFor(b, c, more)
    ensures HandsFor(a, c, names + more)
  {
    forall i | |a| <= i < |c| && c[i].Handed? ensures c[i].release in names + more {
      if i < |b| { assert c[i] == b[i]; }
    }
  }

  lemma WrotePart(wave: seq<Entry>, k: nat, a: seq<Event>, b: seq<Event>)
    requires k <= |wave| && HandsFor(a, b, Wrote(wave[..k]))
    ensures HandsFor(a, b, Wrote(wave))
    ensures Wrote(wave) == [] ==> Wrote(wave[..k]) == []
  {
    var wrote := Wrote(wave[..k]);
    forall n | n in wrote ensures n in Wrote(wave) { WroteGrows(wave[..k], wave, n); }
    if wrote != [] { assert wrote[0] in wrote; }
  }

  /* One entry of a wave, unless the apply was cancelled before it. */
  method ApplyNext(
    b: Backend, e: Entry, opts: Options, earlier: seq<Result>, ghost l: Ledger, ghost applied: seq<Entry>,
    ghost more: seq<Entry>)
    returns (ok: bool, results: seq<Result>)
    requires ValidStore(b.configs) && Applied(l, LedgerOf(b), b.codec, applied, opts, earlier)
    requires applied + [e] <= more
    modifies b
    ensures b.mishaps >= old(b.mishaps)
    ensures ValidStore(b.configs) && earlier <= results
    ensures ok ==> Applied(l, LedgerOf(b), b.codec, applied + [e], opts, results) && |results| == |earlier| + 1
    ensures !ok ==> PartlyApplied(l, LedgerOf(b), b.codec, more, opts, results)
    ensures HandsFor(old(b.trace), b.trace, Adds(e))
    ensures !Writes(e) ==> unchanged(b`configs, b`networks, b`stacks, b`trace, b`written, b`stranded)
    ensures !Writes(e) ==> (ok <==> b.mishaps == old(b.mishaps))
    ensures !ok ==> results == earlier
    ensures !ok && b.mishaps == old(b.mishaps) ==> WaveBlocked(WorldOf(b), b.codec, b.preserves, [e], 0, opts)
  {
    hide Applied, PartlyApplied, AllKept, EntryApplied, ValidStore, EntryBlocked;
    ghost var m := LedgerOf(b);
    assert applied <= more;
    var cancelled := b.Interrupted();
    assert LedgerOf(b) == m;
    if cancelled {
      AppliedPartly(l, m, b.codec, applied, more, opts, earlier);
      return false, earlier;
    }
    if e.action == Unchanged {
      var same := Result(e.wanted.name, Unchanged, 0);
      AppliedUnchanged(l, m, b.codec, applied, opts, earlier, e, same);
      return true, earlier + [same];
    }
    var deployed, r := ApplyEntry(b, e, opts);
    if deployed {
      AppliedNext(l, m, LedgerOf(b), b.codec, applied, opts, earlier, e, r);
      return true, earlier + [r];
    }
    StoppedAtEntry(l, m, LedgerOf(b), b.codec, applied, e, opts, earlier);
    PartlyMore(l, LedgerOf(b), b.codec, applied + [e], more, opts, earlier);
    return false, earlier;
  }

  /* The entries of one wave, in order. It stops at the first that fails, or when cancelled. */
  method ApplyWave(
    b: Backend, wave: seq<Entry>, opts: Options, earlier: seq<Result>, ghost l: Ledger, ghost done: seq<Entry>)
    returns (ok: bool, results: seq<Result>, wrote: seq<string>)
    requires ValidStore(b.configs) && Applied(l, LedgerOf(b), b.codec, done, opts, earlier)
    modifies b
    ensures b.mishaps >= old(b.mishaps)
    ensures ValidStore(b.configs) && earlier <= results
    ensures HandsFor(old(b.trace), b.trace, Wrote(wave))
    ensures PartlyApplied(l, LedgerOf(b), b.codec, done + wave, opts, results)
    ensures ok ==> wrote == Wrote(wave) && Applied(l, LedgerOf(b), b.codec, done + wave, opts, results)
    ensures Wrote(wave) == [] ==> unchanged(b`configs, b`networks, b`stacks, b`trace, b`written, b`stranded)
    ensures !ok && b.mishaps == old(b.mishaps) ==>
      WaveBlocked(WorldOf(b), b.codec, b.preserves, wave, |results| - |earlier|, opts)
  {
    hide Applied, PartlyApplied, ValidStore, EntryBlocked;
    results, wrote := earlier, [];
    assert done + wave[..0] == done;
    for k := 0 to |wave|
      invariant b.mishaps >= old(b.mishaps)
      invariant ValidStore(b.configs) && earlier <= results && |results| == |earlier| + k
      invariant wrote == Wrote(wave[..k])
      invariant Applied(l, LedgerOf(b), b.codec, done + wave[..k], opts, results)
      invariant HandsFor(old(b.trace), b.trace, wrote)
      invariant wrote == [] ==> unchanged(b`configs, b`networks, b`stacks, b`trace, b`written, b`stranded)
    {
      ghost var applied, trace := done + wave[..k], b.trace;
      WaveStep(done, wave, k);
      ok, results := ApplyNext(b, wave[k], opts, results, l, applied, done + wave);
      HandsForTwice(old(b.trace), trace, b.trace, wrote, Adds(wave[k]));
      if !ok {
        WrotePart(wave, k + 1, old(b.trace), b.trace);
        return;
      }
      if Writes(wave[k]) {
        wrote := wrote + [wave[k].wanted.name];
      }
    }
    assert wave[..|wave|] == wave;
    AppliedPartly(l, LedgerOf(b), b.codec, done + wave, done + wave, opts, results);
    ok := true;
  }

  lemma WaveStep(done: seq<Entry>, wave: seq<Entry>, k: nat)
    requires k < |wave|
    ensures done + wave[..k + 1] == done + wave[..k] + [wave[k]]
    ensures done + wave[..k] <= done + wave && done + wave[..k + 1] <= done + wave
    ensures wave[..k] <= wave && wave[..k + 1] <= wave
    ensures Wrote(wave[..k + 1]) == Wrote(wave[..k]) + Adds(wave[k])
  {
    assert wave[..k + 1] == wave[..k] + [wave[k]];
    WroteNext(wave[..k], wave[k]);
    assert done + wave[..k + 1] == done + wave[..k] + [wave[k]];
  }
}
