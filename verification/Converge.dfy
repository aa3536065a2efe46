/** Converging a whole plan (charts/apply.go): the barrier between waves, and the fixpoint of planning and
    applying. */
module Converge {
  import opened Text
  import opened Values
  import opened Manifests
  import opened Releases
  import opened History
  import opened Backends
  import opened Flights
  import opened Rollout
  import opened Waiting
  import opened Engine
  import opened Verbs
  import opened Planning
  import opened Apply

  // ---------- The barrier ----------

  /* Where the part of the trace that belongs to started wave g ends. */
  ghost function EndOf(marks: seq<nat>, end: nat, g: nat): nat
    requires g < |marks|
  {
    if g + 1 < |marks| then marks[g + 1] else end
  }

  /* In its part of the trace, a wave hands over only its own releases that are not unchanged; one that
     writes nothing has no part at all. */
  ghost predicate OwnPart(trace: seq<Event>, from: nat, to: nat, wave: seq<Entry>) {
    && from <= to <= |trace| && (Wrote(wave) == [] ==> from == to)
    && forall i {:trigger trace[i]} :: from <= i < to && trace[i].Handed? ==> trace[i].release in Wrote(wave)
  }

  /* A wave that wrote anything ended with a polling round that found each release it wrote converged. */
  ghost predicate EndsConverged(trace: seq<Event>, from: nat, to: nat, wave: seq<Entry>) {
    Wrote(wave) != [] ==> from + |Wrote(wave)| <= to <= |trace| && RoundConverged(trace[..to], Wrote(wave))
  }

  /* marks says where each started wave begins in the trace. */
  ghost predicate Barriers(trace: seq<Event>, marks: seq<nat>, groups: seq<seq<Entry>>) {
    && |marks| <= |groups|
    && (forall g {:trigger groups[g]} :: 0 <= g < |marks| ==>
          OwnPart(trace, marks[g], EndOf(marks, |trace|, g), groups[g]))
    && (forall g {:trigger groups[g]} :: 0 <= g < |marks| - 1 ==>
          EndsConverged(trace, marks[g], marks[g + 1], groups[g]))
  }

  lemma BarriersStart(trace: seq<Event>, marks: seq<nat>, groups: seq<seq<Entry>>)
    requires Barriers(trace, marks, groups) && |marks| < |groups|
    requires marks != [] ==> EndsConverged(trace, marks[|marks| - 1], |trace|, groups[|marks| - 1])
    ensures Barriers(trace, marks + [|trace|], groups)
  {
    var more := marks + [|trace|];
    forall g | 0 <= g < |more| ensures OwnPart(trace, more[g], EndOf(more, |trace|, g), groups[g]) {
      if g < |marks| { assert OwnPart(trace, marks[g], EndOf(marks, |trace|, g), groups[g]); }
    }
    forall g | 0 <= g < |more| - 1 ensures EndsConverged(trace, more[g], more[g + 1], groups[g]) {
      if g < |marks| - 1 { assert EndsConverged(trace, marks[g], marks[g + 1], groups[g]); }
    }
  }

  lemma BarriersGrow(trace: seq<Event>, more: seq<Event>, marks: seq<nat>, groups: seq<seq<Entry>>)
    requires Barriers(trace, marks, groups) && marks != []
    requires HandsFor(trace, more, Wrote(groups[|marks| - 1]))
    requires Wrote(groups[|marks| - 1]) == [] ==> more == trace
    ensures Barriers(more, marks, groups)
  {
    var last := |marks| - 1;
    forall g | 0 <= g < |marks| ensures OwnPart(more, marks[g], EndOf(marks, |more|, g), groups[g]) {
      assert OwnPart(trace, marks[g], EndOf(marks, |trace|, g), groups[g]);
      OwnPartGrows(trace, more, marks[g], EndOf(marks, |trace|, g), EndOf(marks, |more|, g), groups[g]);
    }
    forall g | 0 <= g < |marks| - 1 ensures EndsConverged(more, marks[g], marks[g + 1], groups[g]) {
      assert EndsConverged(trace, marks[g], marks[g + 1], groups[g]);
      if Wrote(groups[g]) != [] { assert more[..marks[g + 1]] == trace[..marks[g + 1]]; }
    }
  }

  lemma OwnPartGrows(trace: seq<Event>, more: seq<Event>, from: nat, to: nat, end: nat, wave: seq<Entry>)
    requires OwnPart(trace, from, to, wave) && trace <= more
    requires end == to || (to == |trace| && end == |more| && HandsFor(trace, more, Wrote(wave)))
    requires Wrote(wave) == [] ==> end == to
    ensures OwnPart(more, from, end, wave)
  {
    forall i | from <= i < end && more[i].Handed? ensures more[i].release in Wrote(wave) {
      if i < to { assert more[i] == trace[i]; }
    }
  }

  /* Before anything of a later wave is handed over, every release an earlier wave wrote was seen
     converged, by a poll after which that wave made no more deploys. */
  lemma LaterWavesWait(
    trace: seq<Event>, marks: seq<nat>, groups: seq<seq<Entry>>, g: nat, h: nat, i: nat, k: nat)
    requires Barriers(trace, marks, groups)
    requires g < h < |marks| && marks[h] <= i < |trace| && trace[i].Handed?
    requires k < |groups[g]| && Writes(groups[g][k])
    ensures exists p :: marks[g] <= p < marks[g + 1] <= i && SeenConverged(trace[p], groups[g][k].wanted.name)
                        && forall q :: p <= q < marks[g + 1] ==> trace[q].Polled?
  {
    var wrote, to := Wrote(groups[g]), marks[g + 1];
    WroteElements(groups[g]);
    assert groups[g][k].wanted.name in wrote;
    assert EndsConverged(trace, marks[g], to, groups[g]);
    var x :| 0 <= x < |wrote| && wrote[x] == groups[g][k].wanted.name;
    var round := trace[..to];
    assert forall y :: 0 <= y < |wrote| ==> SeenConverged(round[to - |wrote| + y], wrote[y]);
    var p := to - |wrote| + x;
    assert round[p] == trace[p];
    forall q | p <= q < to ensures trace[q].Polled? {
      assert SeenConverged(round[to - |wrote| + (q - to + |wrote|)], wrote[q - to + |wrote|]);
      assert round[q] == trace[q];
    }
    MarksAscend(trace, marks, groups, g + 1, h);
  }

  lemma {:induction false} MarksAscend(trace: seq<Event>, marks: seq<nat>, groups: seq<seq<Entry>>, g: nat, h: nat)
    requires Barriers(trace, marks, groups) && g <= h < |marks|
    ensures marks[g] <= marks[h]
    decreases h - g
  {
    if g < h {
      assert OwnPart(trace, marks[g], EndOf(marks, |trace|, g), groups[g]);
      MarksAscend(trace, marks, groups, g + 1, h);
    }
  }

  // ---------- Applying a plan ----------

  /* The wait after a wave, unless it is the last or wrote nothing. */
  method AwaitWave(b: Backend, wrote: seq<string>, last: bool, timeout: int, ghost wave: seq<Entry>, ghost from: nat)
    returns (ok: bool)
    requires wrote == Wrote(wave) && from <= |b.trace|
    modifies b`clock, b`trace, b`mishaps
    ensures b.mishaps >= old(b.mishaps)
    ensures HandsFor(old(b.trace), b.trace, wrote)
    ensures ok && !last ==> EndsConverged(b.trace, from, |b.trace|, wave)
    ensures wrote == [] || last ==> ok && b.trace == old(b.trace)
    ensures !ok && b.mishaps == old(b.mishaps) ==> !RoundConverged(b.trace, wrote)
  {
    if last || wrote == [] {
      return true;
    }
    var waited := WaitWave(b, wrote, timeout);
    assert b.trace[..|b.trace|] == b.trace;
    return waited == Settled;
  }

  /* Where an apply stands before wave g: the waves before it are applied and, where they wrote anything,
     have converged. */
  ghost predicate Underway(
    start: seq<Event>, trace: seq<Event>, l: Ledger, m: Ledger, codec: Codec,
    waves: seq<seq<Entry>>, g: nat, opts: Options, results: seq<Result>, marks: seq<nat>)
  {
    && g == |marks| <= |waves|
    && Started(start, trace, marks, waves)
    && (0 < g < |waves| ==> EndsConverged(trace, marks[g - 1], |trace|, waves[g - 1]))
    && Applied(l, m, codec, Flat(waves[..g]), opts, results)
  }

  /* The trace of an apply, from where it began. */
  ghost predicate Started(start: seq<Event>, trace: seq<Event>, marks: seq<nat>, waves: seq<seq<Entry>>) {
    && start <= trace && Barriers(trace, marks, waves)
    && (if marks == [] then trace == start else marks[0] == |start|)
  }

  lemma UnderwayStart(
    trace: seq<Event>, l: Ledger, codec: Codec, waves: seq<seq<Entry>>, opts: Options)
    ensures Underway(trace, trace, l, l, codec, waves, 0, opts, [], [])
  {
    AppliedNothing(l, codec, opts);
  }

  lemma StartedNext(start: seq<Event>, trace: seq<Event>, marks: seq<nat>, waves: seq<seq<Entry>>)
    requires Started(start, trace, marks, waves) && |marks| < |waves|
    requires marks != [] ==> EndsConverged(trace, marks[|marks| - 1], |trace|, waves[|marks| - 1])
    ensures Started(start, trace, marks + [|trace|], waves)
  {
    BarriersStart(trace, marks, waves);
  }

  lemma StartedGrows(start: seq<Event>, trace: seq<Event>, more: seq<Event>, marks: seq<nat>, waves: seq<seq<Entry>>)
    requires Started(start, trace, marks, waves) && marks != []
    requires HandsFor(trace, more, Wrote(waves[|marks| - 1])) && (Wrote(waves[|marks| - 1]) == [] ==> more == trace)
    ensures Started(start, more, marks, waves)
  {
    BarriersGrow(trace, more, marks, waves);
  }

  /* Why an apply stopped: an entry of some wave was not applied, or the last round of polls after a wave did not
     find every release it wrote converged. */
  ghost predicate PlanBlocked(
    v: World, codec: Codec, preserves: bool, groups: seq<seq<Entry>>, g: nat, opts: Options, results: seq<Result>)
  {
    && g < |groups|
    && (|| WaveBlocked(v, codec, preserves, groups[g], |results| - |Flat(groups[..g])|, opts)
        || (&& g + 1 < |groups| && Wrote(groups[g]) != [] && |results| == |Flat(groups[..g + 1])|
            && !RoundConverged(v.trace, Wrote(groups[g]))))
  }

  /* Converges the swarm to a plan, one wave at a time, and stops at the first failure. */
  method ApplyPlan(b: Backend, plan: Plan, opts: Options)
    returns (ok: bool, results: seq<Result>, ghost groups: seq<seq<Entry>>, ghost marks: seq<nat>)
    requires ValidStore(b.configs)
    modifies b
    ensures b.mishaps >= old(b.mishaps)
    ensures ValidStore(b.configs) && MaximalRuns(groups, plan.releases)
    ensures Started(old(b.trace), b.trace, marks, groups)
    ensures PartlyApplied(old(LedgerOf(b)), LedgerOf(b), b.codec, plan.releases, opts, results)
    ensures ok ==> Applied(old(LedgerOf(b)), LedgerOf(b), b.codec, plan.releases, opts, results)
    ensures Wrote(plan.releases) == [] ==> WorldOf(b) == old(WorldOf(b))
    ensures !ok && b.mishaps == old(b.mishaps) ==>
      exists g: nat :: PlanBlocked(WorldOf(b), b.codec, b.preserves, groups, g, opts, results)
  {
    hide Applied, PartlyApplied, Started, Wrote, PlanBlocked;
    var waves := WaveGroups(plan.releases);
    groups, marks, results := waves, [], [];
    ghost var start, l := b.trace, LedgerOf(b);
    UnderwayStart(start, l, b.codec, waves, opts);
    for g := 0 to |waves|
      invariant b.mishaps >= old(b.mishaps)
      invariant ValidStore(b.configs)
      invariant Underway(start, b.trace, l, LedgerOf(b), b.codec, waves, g, opts, results, marks)
      invariant Wrote(plan.releases) == [] ==>
        unchanged(b`configs, b`networks, b`stacks, b`trace, b`written, b`stranded)
    {
      NextWave(waves, plan.releases, g);
      ok, results, marks := ApplyOneWave(b, waves, g, opts, results, plan.releases, start, l, marks);
      if !ok {
        return;
      }
    }
    assert waves[..|waves|] == waves;
    AppliedPartly(l, LedgerOf(b), b.codec, plan.releases, plan.releases, opts, results);
    ok := true;
  }

  lemma NextWave(waves: seq<seq<Entry>>, releases: seq<Entry>, g: nat)
    requires MaximalRuns(waves, releases) && g < |waves|
    ensures Flat(waves[..g + 1]) == Flat(waves[..g]) + waves[g]
    ensures Flat(waves[..g + 1]) <= releases
    ensures Wrote(waves[g]) != [] ==> Wrote(releases) != []
  {
    FlatAt(waves, g, 0);
    FlatPrefix(waves, g + 1);
    if Wrote(waves[g]) != [] {
      WroteElements(waves[g]);
      assert Wrote(waves[g])[0] in Wrote(waves[g]);
      var k :| 0 <= k < |waves[g]| && Writes(waves[g][k]);
      FlatAt(waves, g, k);
      WroteElements(releases);
      assert releases[|Flat(waves[..g])| + k].wanted.name in Wrote(releases);
    }
  }

  lemma UnderwayNext(
    start: seq<Event>, trace: seq<Event>, l: Ledger, m: Ledger, codec: Codec,
    waves: seq<seq<Entry>>, g: nat, opts: Options, results: seq<Result>, marks: seq<nat>)
    requires g + 1 == |marks| <= |waves| && Started(start, trace, marks, waves)
    requires g + 1 < |waves| ==> EndsConverged(trace, marks[g], |trace|, waves[g])
    requires Flat(waves[..g + 1]) == Flat(waves[..g]) + waves[g]
    requires Applied(l, m, codec, Flat(waves[..g]) + waves[g], opts, results)
    ensures Underway(start, trace, l, m, codec, waves, g + 1, opts, results, marks)
  {
  }

  /* One wave of a plan: its entries, then its barrier. */
  method ApplyOneWave(
    b: Backend, waves: seq<seq<Entry>>, g: nat, opts: Options, earlier: seq<Result>, ghost releases: seq<Entry>,
    ghost start: seq<Event>, ghost l: Ledger, ghost marked: seq<nat>)
    returns (ok: bool, results: seq<Result>, ghost marks: seq<nat>)
    requires ValidStore(b.configs) && g < |waves|
    requires Underway(start, b.trace, l, LedgerOf(b), b.codec, waves, g, opts, earlier, marked)
    requires Flat(waves[..g + 1]) == Flat(waves[..g]) + waves[g] && Flat(waves[..g]) + waves[g] <= releases
    modifies b
    ensures b.mishaps >= old(b.mishaps)
    ensures ValidStore(b.configs) && Started(start, b.trace, marks, waves)
    ensures ok ==> Underway(start, b.trace, l, LedgerOf(b), b.codec, waves, g + 1, opts, results, marks)
    ensures !ok ==> PartlyApplied(l, LedgerOf(b), b.codec, releases, opts, results)
    ensures !ok && b.mishaps == old(b.mishaps) ==>
      PlanBlocked(WorldOf(b), b.codec, b.preserves, waves, g, opts, results)
    ensures Wrote(waves[g]) == [] ==> unchanged(b`configs, b`networks, b`stacks, b`trace, b`written, b`stranded)
  {
    hide Applied, PartlyApplied, Barriers, Flat, Wrote, WaveBlocked, RoundConverged;
    ghost var done := Flat(waves[..g]);
    ReportsEach(l, LedgerOf(b), b.codec, done, opts, earlier);
    StartedNext(start, b.trace, marked, waves);
    marks := marked + [|b.trace|];
    var wrote;
    ok, results, wrote := RunWave(b, waves[g], opts, earlier, start, l, done, releases, marks, waves);
    if !ok {
      return;
    }
    ReportsEach(l, LedgerOf(b), b.codec, done + waves[g], opts, results);
    ok := PassBarrier(b, waves, g, wrote, opts, results, start, l, marks);
  }

  /* The barrier after a wave that was applied. */
  method PassBarrier(
    b: Backend, waves: seq<seq<Entry>>, g: nat, wrote: seq<string>, opts: Options, results: seq<Result>,
    ghost start: seq<Event>, ghost l: Ledger, ghost marks: seq<nat>)
    returns (ok: bool)
    requires g + 1 == |marks| <= |waves| && marks[g] <= |b.trace| && wrote == Wrote(waves[g])
    requires Started(start, b.trace, marks, waves)
    requires Flat(waves[..g + 1]) == Flat(waves[..g]) + waves[g]
    requires Applied(l, LedgerOf(b), b.codec, Flat(waves[..g]) + waves[g], opts, results)
    modifies b`clock, b`trace, b`mishaps
    ensures b.mishaps >= old(b.mishaps)
    ensures Started(start, b.trace, marks, waves) && old(b.trace) <= b.trace
    ensures ok ==> Underway(start, b.trace, l, LedgerOf(b), b.codec, waves, g + 1, opts, results, marks)
    ensures wrote == [] || g + 1 == |waves| ==> ok && b.trace == old(b.trace)
    ensures !ok && b.mishaps == old(b.mishaps) ==> g + 1 < |waves| && wrote != [] && !RoundConverged(b.trace, wrote)
  {
    ok := AwaitWave(b, wrote, g == |waves| - 1, opts.timeout, waves[g], marks[g]);
    StartedGrows(start, old(b.trace), b.trace, marks, waves);
    if ok {
      UnderwayNext(start, b.trace, l, LedgerOf(b), b.codec, waves, g, opts, results, marks);
    }
  }

  method RunWave(
    b: Backend, wave: seq<Entry>, opts: Options, earlier: seq<Result>, ghost start: seq<Event>,
    ghost l: Ledger, ghost done: seq<Entry>, ghost releases: seq<Entry>,
    ghost marks: seq<nat>, ghost waves: seq<seq<Entry>>)
    returns (ok: bool, results: seq<Result>, wrote: seq<string>)
    requires ValidStore(b.configs) && Applied(l, LedgerOf(b), b.codec, done, opts, earlier)
    requires done + wave <= releases
    requires Started(start, b.trace, marks, waves) && 0 < |marks| <= |waves| && wave == waves[|marks| - 1]
    modifies b
    ensures b.mishaps >= old(b.mishaps)
    ensures ValidStore(b.configs) && Started(start, b.trace, marks, waves) && old(b.trace) <= b.trace
    ensures PartlyApplied(l, LedgerOf(b), b.codec, releases, opts, results)
    ensures ok ==> wrote == Wrote(wave) && Applied(l, LedgerOf(b), b.codec, done + wave, opts, results)
    ensures !ok && b.mishaps == old(b.mishaps) ==>
      WaveBlocked(WorldOf(b), b.codec, b.preserves, wave, |results| - |earlier|, opts)
    ensures Wrote(wave) == [] ==> unchanged(b`configs, b`networks, b`stacks, b`trace, b`written, b`stranded)
  {
    ok, results, wrote := ApplyWave(b, wave, opts, earlier, l, done);
    StartedGrows(start, old(b.trace), b.trace, marks, waves);
    PartlyMore(l, LedgerOf(b), b.codec, done + wave, releases, opts, results);
  }

  // ---------- The fixpoint ----------

  /* A successful apply wrote exactly one record per entry that was not unchanged. */
  lemma {:induction false} OneRecordEach(results: seq<Result>, entries: seq<Entry>)
    requires |results| == |entries| && ReportsAll(results, entries)
    ensures |WrittenBy(results)| == |Wrote(entries)|
    decreases |entries|
  {
    if entries != [] {
      var n := |entries| - 1;
      OneRecordEach(results[..n], entries[..n]);
      assert Reports(results[n], entries[n]);
    }
  }

  ghost predicate DistinctWanted(wanted: seq<Wanted>) {
    forall i, j :: 0 <= i < j < |wanted| ==> wanted[i].name != wanted[j].name
  }

  lemma SameElements(a: seq<Entry>, c: seq<Entry>, e: Entry)
    requires multiset(a) == multiset(c)
    ensures e in a <==> e in c
  {
    assert e in a <==> e in multiset(a);
    assert e in c <==> e in multiset(c);
  }

  /* The names of a file stay distinct when its entries are put in wave order. */
  lemma {:induction false} DistinctBySort(entries: seq<Entry>)
    requires DistinctNames(entries)
    ensures DistinctNames(SortByWave(entries))
  {
    if entries != [] {
      var rest := SortByWave(entries[1..]);
      assert forall i :: 0 <= i < |entries[1..]| ==> entries[1..][i] == entries[i + 1];
      DistinctBySort(entries[1..]);
      SortedByWave(entries[1..]);
      forall x | x in rest ensures x.wanted.name != entries[0].wanted.name {
        SameElements(rest, entries[1..], x);
      }
      DistinctByInsert(rest, entries[0]);
    }
  }

  lemma {:induction false} DistinctByInsert(entries: seq<Entry>, e: Entry)
    requires DistinctNames(entries) && forall x :: x in entries ==> x.wanted.name != e.wanted.name
    ensures DistinctNames(InsertByWave(entries, e))
  {
    if entries == [] || e.wanted.wave <= entries[0].wanted.wave {
    } else {
      assert forall i :: 0 <= i < |entries[1..]| ==> entries[1..][i] == entries[i + 1];
      DistinctByInsert(entries[1..], e);
      var rest := InsertByWave(entries[1..], e);
      forall j | 0 <= j < |rest| ensures rest[j].wanted.name != entries[0].wanted.name {
        InsertByWaveMembers(entries[1..], e, rest[j]);
      }
    }
  }

  /* Two plans with the same releases in the same places. */
  predicate SameWanted(a: seq<Entry>, c: seq<Entry>) {
    |a| == |c| && forall i :: 0 <= i < |a| ==> a[i].wanted == c[i].wanted
  }

  lemma {:induction false} InsertInStep(a: seq<Entry>, c: seq<Entry>, e: Entry, f: Entry)
    requires SameWanted(a, c) && e.wanted == f.wanted
    ensures SameWanted(InsertByWave(a, e), InsertByWave(c, f))
  {
    if a == [] || e.wanted.wave <= a[0].wanted.wave {
    } else {
      InsertInStep(a[1..], c[1..], e, f);
    }
  }

  /* The order of a plan depends on the file only, not on what is to be done. */
  lemma {:induction false} SortInStep(a: seq<Entry>, c: seq<Entry>)
    requires SameWanted(a, c)
    ensures SameWanted(SortByWave(a), SortByWave(c))
  {
    if a != [] {
      SortInStep(a[1..], c[1..]);
      InsertInStep(SortByWave(a[1..]), SortByWave(c[1..]), a[0], c[0]);
    }
  }

  lemma PlansInStep(plan: Plan, next: Plan, file: ReleaseFile, before: Configs, after: Configs, codec: Codec)
    requires PlanOf(plan, file, before, codec) && PlanOf(next, file, after, codec)
    ensures SameWanted(plan.releases, next.releases)
  {
    var entries :|
      PlannedFrom(entries, file.releases, before, codec, plan.owner) && plan.releases == SortByWave(entries);
    var again :| PlannedFrom(again, file.releases, after, codec, next.owner) && next.releases == SortByWave(again);
    SortInStep(entries, again);
  }

  /* Each entry of a plan has its right action, and the names of a file stay distinct. */
  lemma PlannedRight(plan: Plan, file: ReleaseFile, configs: Configs, codec: Codec)
    requires PlanOf(plan, file, configs, codec)
    ensures forall i {:trigger plan.releases[i]} :: 0 <= i < |plan.releases| ==>
      RightAction(configs, codec, plan.owner, plan.releases[i].wanted, plan.releases[i].action)
    ensures DistinctWanted(file.releases) ==> DistinctNames(plan.releases)
  {
    hide RightAction;
    var entries :|
      PlannedFrom(entries, file.releases, configs, codec, plan.owner) && plan.releases == SortByWave(entries);
    SortedByWave(entries);
    forall i {:trigger plan.releases[i]} | 0 <= i < |plan.releases|
      ensures RightAction(configs, codec, plan.owner, plan.releases[i].wanted, plan.releases[i].action)
    {
      SameElements(plan.releases, entries, plan.releases[i]);
      var k :| 0 <= k < |entries| && entries[k] == plan.releases[i];
    }
    if DistinctWanted(file.releases) { DistinctBySort(entries); }
  }

  /* What a plan asks for holds once the results report it, whether or not the apply got to its end: what it
     called unchanged was left alone, and what it wrote is as wanted. */
  lemma ReportedHolds(
    l: Ledger, m: Ledger, codec: Codec, entries: seq<Entry>, opts: Options, results: seq<Result>, i: nat)
    requires PartlyApplied(l, m, codec, entries, opts, results)
    requires Stable(codec) && !opts.dryRun && DistinctNames(entries)
    requires i < |results| && RightAction(l.configs, codec, opts.owner, entries[i].wanted, entries[i].action)
    ensures Holds(m.configs, codec, opts.owner, entries[i].wanted)
  {
    hide Holds, OthersKept, LogsKept, NetworksFor;
    if Writes(entries[i]) {
      assert Stands(m.configs, codec, opts.owner, entries[i], results[i]);
    } else {
      UnchangedNotWritten(entries, i);
      HoldsStays(l.configs, m.configs, codec, Wrote(entries), opts.owner, entries[i].wanted);
    }
  }

  lemma UnchangedNotWritten(entries: seq<Entry>, i: nat)
    requires DistinctNames(entries) && i < |entries| && !Writes(entries[i])
    ensures entries[i].wanted.name !in Wrote(entries)
  {
    WroteElements(entries);
  }

  lemma {:induction false} NothingToWrite(entries: seq<Entry>)
    requires forall e :: e in entries ==> e.action == Unchanged
    ensures Wrote(entries) == []
    decreases |entries|
  {
    if entries != [] {
      assert entries[|entries| - 1] in entries;
      NothingToWrite(entries[..|entries| - 1]);
    }
  }

  /* An apply that is run again resumes: planning the same file after one that stamped the plan's own owner,
     with nobody else writing, puts the releases in the same order and finds unchanged all the first run
     reported. */
  lemma Resumed(
    l: Ledger, m: Ledger, codec: Codec, file: ReleaseFile, plan: Plan, opts: Options, results: seq<Result>, next: Plan)
    requires Stable(codec) && DistinctWanted(file.releases)
    requires PlanOf(plan, file, l.configs, codec) && PlanOf(next, file, m.configs, codec)
    requires !opts.dryRun && opts.owner == plan.owner == next.owner
    requires PartlyApplied(l, m, codec, plan.releases, opts, results)
    ensures SameWanted(plan.releases, next.releases) && |results| <= |next.releases|
    ensures forall i {:trigger next.releases[i]} :: 0 <= i < |results| ==> next.releases[i].action == Unchanged
  {
    hide PartlyApplied, PlanOf, Holds, Stable;
    Reported(l, m, codec, plan.releases, opts, results);
    PlansInStep(plan, next, file, l.configs, m.configs, codec);
    PlannedRight(plan, file, l.configs, codec);
    PlannedRight(next, file, m.configs, codec);
    forall i {:trigger next.releases[i]} | 0 <= i < |results| ensures next.releases[i].action == Unchanged {
      var e, f := plan.releases[i], next.releases[i];
      ReportedHolds(l, m, codec, plan.releases, opts, results, i);
      OneRightAction(m.configs, codec, opts.owner, e.wanted, f.action, Unchanged);
    }
  }

  lemma Reported(l: Ledger, m: Ledger, codec: Codec, entries: seq<Entry>, opts: Options, results: seq<Result>)
    requires PartlyApplied(l, m, codec, entries, opts, results)
    ensures |results| <= |entries|
  {
  }

  /* After a successful apply everything is unchanged; so applying the new plan changes nothing at all. */
  lemma Fixpoint(
    l: Ledger, m: Ledger, codec: Codec, file: ReleaseFile, plan: Plan, opts: Options, results: seq<Result>, next: Plan)
    requires Stable(codec) && DistinctWanted(file.releases)
    requires PlanOf(plan, file, l.configs, codec) && PlanOf(next, file, m.configs, codec)
    requires !opts.dryRun && opts.owner == plan.owner == next.owner
    requires Applied(l, m, codec, plan.releases, opts, results)
    ensures forall e :: e in next.releases ==> e.action == Unchanged
    ensures Wrote(next.releases) == []
    ensures |m.written| == |l.written| + |Wrote(plan.releases)|
  {
    hide PlanOf, AllKept, AllStand;
    OneRecordEach(results, plan.releases);
    AppliedPartly(l, m, codec, plan.releases, plan.releases, opts, results);
    Resumed(l, m, codec, file, plan, opts, results, next);
    NothingToWrite(next.releases);
  }

  /* The barrier holds within one apply only. A wave whose releases the last run reported is unchanged in the
     next plan even where that run stopped because the wave had not converged; so the next apply comes to the
     wave after it without a single poll. */
  lemma BarrierIsForgotten(
    l: Ledger, m: Ledger, codec: Codec, file: ReleaseFile, plan: Plan, opts: Options, results: seq<Result>, next: Plan,
    start: seq<Event>, trace: seq<Event>, marks: seq<nat>, groups: seq<seq<Entry>>, h: nat)
    requires Stable(codec) && DistinctWanted(file.releases)
    requires PlanOf(plan, file, l.configs, codec) && PlanOf(next, file, m.configs, codec)
    requires !opts.dryRun && opts.owner == plan.owner == next.owner
    requires PartlyApplied(l, m, codec, plan.releases, opts, results)
    requires MaximalRuns(groups, next.releases) && Started(start, trace, marks, groups)
    requires h < |marks| && |Flat(groups[..h])| <= |results|
    ensures marks[h] == |start|
  {
    hide PartlyApplied, PlanOf, Barriers, MaximalRuns, Applied;
    Resumed(l, m, codec, file, plan, opts, results, next);
    QuietWaves(start, trace, marks, groups, next.releases, |results|, h);
  }

  lemma {:induction false} QuietWaves(
    start: seq<Event>, trace: seq<Event>, marks: seq<nat>, groups: seq<seq<Entry>>, releases: seq<Entry>, n: nat,
    h: nat)
    requires MaximalRuns(groups, releases) && Started(start, trace, marks, groups)
    requires n <= |releases| && forall i :: 0 <= i < n ==> releases[i].action == Unchanged
    requires h < |marks| && |Flat(groups[..h])| <= n
    ensures marks[h] == |start|
  {
    hide EndsConverged;
    if h > 0 {
      var wave := groups[h - 1];
      FlatAt(groups, h - 1, 0);
      QuietWaves(start, trace, marks, groups, releases, n, h - 1);
      forall e | e in wave ensures e.action == Unchanged {
        var k :| 0 <= k < |wave| && wave[k] == e;
        FlatAt(groups, h - 1, k);
      }
      NothingToWrite(wave);
      assert OwnPart(trace, marks[h - 1], EndOf(marks, |trace|, h - 1), wave);
    }
  }
}
