/** The release log on the swarm (charts/release.go): reading it, appending to it and trimming it. */
module History {
  import opened Text
  import opened Releases
  import opened Pruning
  import opened Backends

  // ---------- Reading ----------

  function InsertByRevision(revs: seq<Release>, r: Release): seq<Release> {
    if revs == [] || r.revision < revs[0].revision then [r] + revs
    else [revs[0]] + InsertByRevision(revs[1..], r)
  }

  function SortByRevision(revs: seq<Release>): seq<Release> {
    if revs == [] then [] else InsertByRevision(SortByRevision(revs[1..]), revs[0])
  }

  ghost predicate DistinctRevisions(revs: seq<Release>) {
    forall i, j :: 0 <= i < j < |revs| ==> revs[i].revision != revs[j].revision
  }

  lemma {:induction false} InsertElements(revs: seq<Release>, r: Release)
    ensures forall x :: x in InsertByRevision(revs, r) <==> x in revs || x == r
  {
    if revs == [] || r.revision < revs[0].revision {
    } else {
      InsertElements(revs[1..], r);
      assert revs == [revs[0]] + revs[1..];
    }
  }

  lemma {:induction false} InsertKeepsOrder(revs: seq<Release>, r: Release)
    requires Increasing(revs) && forall x :: x in revs ==> x.revision != r.revision
    ensures Increasing(InsertByRevision(revs, r))
  {
    if revs == [] || r.revision < revs[0].revision {
    } else {
      assert revs[0] in revs;
      InsertKeepsOrder(revs[1..], r);
      InsertElements(revs[1..], r);
      var rest := InsertByRevision(revs[1..], r);
      forall j | 0 <= j < |rest| ensures revs[0].revision < rest[j].revision {
        assert rest[j] in rest;
      }
    }
  }

  /* Revisions with different numbers sort into a strictly increasing log of the same revisions. */
  lemma {:induction false} SortedByRevision(revs: seq<Release>)
    requires DistinctRevisions(revs)
    ensures Increasing(SortByRevision(revs))
    ensures forall x :: x in SortByRevision(revs) <==> x in revs
  {
    if revs != [] {
      SortedByRevision(revs[1..]);
      assert revs == [revs[0]] + revs[1..];
      InsertElements(SortByRevision(revs[1..]), revs[0]);
      InsertKeepsOrder(SortByRevision(revs[1..]), revs[0]);
    }
  }

  function Group(out: map<string, seq<Release>>, name: string): seq<Release> {
    if name in out then out[name] else []
  }

  /* Every release record decodes. */
  ghost predicate Readable(configs: Configs) {
    forall name :: name in configs && IsReleaseRecord(configs[name].labels) ==> configs[name].payload.Encoded?
  }

  /* The revision the first n listed configs hold for a release, as they were read. */
  ghost predicate FoundIn(rel: Release, metas: seq<ConfigMeta>, n: nat, configs: Configs, codec: Codec, name: string) {
    && Stored(configs, codec, name, rel.revision) == Some(rel)
    && exists k :: 0 <= k < n <= |metas| && metas[k].name == ConfigName(name, rel.revision)
  }

  /* What reading one listed config collects. */
  ghost predicate Read(out: map<string, seq<Release>>, c: Config, codec: Codec) {
    IsReleaseRecord(c.labels) ==>
      c.payload.Encoded? && Decoded(codec, c.payload.rel) in Group(out, c.payload.rel.name)
  }

  ghost predicate Collected(
    out: map<string, seq<Release>>, metas: seq<ConfigMeta>, n: nat, configs: Configs, codec: Codec)
    requires Lists(metas, configs)
  {
    && n <= |metas|
    && (forall name, rel :: rel in Group(out, name) ==> FoundIn(rel, metas, n, configs, codec, name))
    && (forall k :: 0 <= k < n ==> Read(out, configs[metas[k].name], codec))
    && (forall name :: DistinctRevisions(Group(out, name)))
    && (forall name :: name in out ==> out[name] != [])
  }

  lemma CollectedNext(
    out: map<string, seq<Release>>, metas: seq<ConfigMeta>, n: nat, configs: Configs, codec: Codec, rel: Release,
    more: map<string, seq<Release>>)
    requires ValidStore(configs) && Lists(metas, configs) && Collected(out, metas, n, configs, codec) && n < |metas|
    requires IsReleaseRecord(metas[n].labels) && configs[metas[n].name].payload == Encoded(rel)
    requires more == out[rel.name := Group(out, rel.name) + [Decoded(codec, rel)]]
    ensures Collected(more, metas, n + 1, configs, codec)
  {
    var name, c := metas[n].name, configs[metas[n].name];
    assert Agrees(name, c);
    var group, grown := Group(out, rel.name), Group(more, rel.name);
    forall x | x in group ensures x.revision != rel.revision {
      assert FoundIn(x, metas, n, configs, codec, rel.name);
    }
    forall i, j | 0 <= i < j < |grown| ensures grown[i].revision != grown[j].revision {
      assert grown[i] in group;
    }
    forall other, x | x in Group(more, other) ensures FoundIn(x, metas, n + 1, configs, codec, other) {
      if other == rel.name && x == Decoded(codec, rel) {
        assert metas[n].name == ConfigName(other, x.revision);
      } else {
        assert FoundIn(x, metas, n, configs, codec, other);
      }
    }
    forall k | 0 <= k < n + 1 ensures Read(more, configs[metas[k].name], codec) {
      if k < n {
        assert Read(out, configs[metas[k].name], codec);
      } else {
        assert grown[|group|] == Decoded(codec, rel);
      }
    }
    forall other ensures DistinctRevisions(Group(more, other)) {
      if other != rel.name { assert Group(more, other) == Group(out, other); }
    }
  }

  /* Once every config is read, a group sorts into its release's log. */
  lemma GroupIsLog(out: map<string, seq<Release>>, metas: seq<ConfigMeta>, configs: Configs, codec: Codec, name: string)
    requires Lists(metas, configs) && Collected(out, metas, |metas|, configs, codec)
    ensures IsLog(SortByRevision(Group(out, name)), configs, codec, name)
  {
    var group := Group(out, name);
    var log := SortByRevision(group);
    SortedByRevision(group);
    forall i | 0 <= i < |log| ensures Stored(configs, codec, name, log[i].revision) == Some(log[i]) {
      assert log[i] in group;
      assert FoundIn(log[i], metas, |metas|, configs, codec, name);
    }
    forall v: nat | Stored(configs, codec, name, v).Some? ensures exists i :: 0 <= i < |log| && log[i].revision == v {
      var k :| 0 <= k < |metas| && metas[k].name == ConfigName(name, v);
      assert Read(out, configs[metas[k].name], codec);
      assert Stored(configs, codec, name, v).value in log;
    }
  }

  /* Reads every revision, grouped by release: each group is that release's history, and a release
     without a group has none. */
  method AllRevisions(b: Backend) returns (r: Option<map<string, seq<Release>>>)
    requires ValidStore(b.configs)
    modifies b`mishaps
    ensures b.mishaps >= old(b.mishaps)
    ensures r.None? && b.mishaps == old(b.mishaps) ==> !Readable(b.configs)
    ensures r.Some? ==> Readable(b.configs)
    ensures r.Some? ==>
      forall name {:trigger Group(r.value, name)} :: IsHistory(Group(r.value, name), b.configs, b.codec, name)
    ensures r.Some? ==> forall name :: name in r.value ==> r.value[name] != []
  {
    var listing := b.ListConfigs();
    if listing.None? {
      return None;
    }
    var metas := listing.value;
    var out: map<string, seq<Release>> := map[];
    for i := 0 to |metas|
      invariant Collected(out, metas, i, b.configs, b.codec) && b.mishaps >= old(b.mishaps)
    {
      var m := metas[i];
      if !IsReleaseRecord(m.labels) {
        StillCollected(out, metas, i, b.configs, b.codec);
        continue;
      }
      var data := m.data;
      if data.None? {
        data := b.InspectConfig(m.name);
        if data.None? {
          return None;
        }
      }
      if data.value.Opaque? {
        assert !Readable(b.configs);
        return None;
      }
      var rel := Decoded(b.codec, data.value.rel);
      ghost var was := out;
      out := out[rel.name := Group(out, rel.name) + [rel]];
      CollectedNext(was, metas, i, b.configs, b.codec, data.value.rel, out);
    }
    AllReadable(out, metas, b.configs, b.codec);
    assert forall name :: name in out ==> Group(out, name) == out[name];
    var sorted := DeriveGroups(out);
    forall name ensures IsHistory(Group(sorted, name), b.configs, b.codec, name) {
      GroupIsLog(out, metas, b.configs, b.codec, name);
    }
    return Some(sorted);
  }

  lemma StillCollected(out: map<string, seq<Release>>, metas: seq<ConfigMeta>, n: nat, configs: Configs, codec: Codec)
    requires Lists(metas, configs) && Collected(out, metas, n, configs, codec) && n < |metas|
    requires !IsReleaseRecord(metas[n].labels)
    ensures Collected(out, metas, n + 1, configs, codec)
  {
    forall name, rel | rel in Group(out, name) ensures FoundIn(rel, metas, n + 1, configs, codec, name) {
      assert FoundIn(rel, metas, n, configs, codec, name);
    }
  }

  lemma AllReadable(out: map<string, seq<Release>>, metas: seq<ConfigMeta>, configs: Configs, codec: Codec)
    requires Lists(metas, configs) && Collected(out, metas, |metas|, configs, codec)
    ensures Readable(configs)
  {
    forall name | name in configs && IsReleaseRecord(configs[name].labels) ensures configs[name].payload.Encoded? {
      var k :| 0 <= k < |metas| && metas[k].name == name;
      assert Read(out, configs[metas[k].name], codec);
    }
  }

  /* Sorts each group and derives its statuses. */
  method DeriveGroups(groups: map<string, seq<Release>>) returns (out: map<string, seq<Release>>)
    requires forall name :: name in groups ==> groups[name] != [] && DistinctRevisions(groups[name])
    ensures forall name {:trigger Group(out, name)} :: Group(out, name) == Derived(SortByRevision(Group(groups, name)))
    ensures forall name :: name in out ==> out[name] != []
  {
    out := groups;
    var left := groups.Keys;
    while left != {}
      invariant forall name :: name in left ==> name in groups
      invariant forall name :: name in out <==> name in groups
      invariant forall name :: name in out && name in left ==> out[name] == groups[name]
      invariant forall name :: name in out && name !in left ==> out[name] == Derived(SortByRevision(groups[name]))
      invariant forall name :: name in out ==> out[name] != []
      decreases |left|
    {
      var name :| name in left;
      SortedByRevision(groups[name]);
      assert groups[name][0] in SortByRevision(groups[name]);
      var derived := DeriveStatuses(SortByRevision(groups[name]));
      out := out[name := derived];
      left := left - {name};
    }
  }

  method Revisions(b: Backend, release: string) returns (r: Option<seq<Release>>)
    requires ValidStore(b.configs)
    modifies b`mishaps
    ensures b.mishaps >= old(b.mishaps)
    ensures r.None? && b.mishaps == old(b.mishaps) ==> !Readable(b.configs)
    ensures r.Some? ==> Readable(b.configs) && IsHistory(r.value, b.configs, b.codec, release)
  {
    var all := AllRevisions(b);
    if all.None? {
      return None;
    }
    return Some(Group(all.value, release));
  }

  // ---------- Appending ----------

  const MAX_RECORD_RETRIES := 5

  method StoreRevision(b: Backend, rel: Release) returns (r: CreateResult)
    modifies b`configs, b`written, b`mishaps
    ensures b.mishaps >= old(b.mishaps)
    ensures r == AlreadyExists ==> ConfigName(rel.name, rel.revision) in old(b.configs)
    ensures r == Refused && b.mishaps == old(b.mishaps) ==> !b.codec.fits(rel)
    ensures r == Created ==> Appended(old(b.configs), b.configs, rel) && b.codec.fits(rel)
    ensures r == Created ==> b.written == old(b.written) + [ConfigName(rel.name, rel.revision)]
    ensures r != Created ==> b.configs == old(b.configs) && b.written == old(b.written)
  {
    if !b.codec.fits(rel) {
      return Refused;
    }
    r := b.CreateConfig(ConfigName(rel.name, rel.revision), RecordOf(rel));
  }

  /* One record was added, under a name that was free. */
  ghost predicate Appended(before: Configs, after: Configs, rel: Release) {
    ConfigName(rel.name, rel.revision) !in before && after == WithRecord(before, rel)
  }

  /* No record of the release reaches that number yet. */
  ghost predicate Fresh(configs: Configs, codec: Codec, release: string, revision: nat) {
    forall v: nat :: Stored(configs, codec, release, v).Some? ==> v < revision
  }

  /* The store with one record more. */
  function WithRecord(configs: Configs, rel: Release): Configs {
    configs[ConfigName(rel.name, rel.revision) := RecordOf(rel)]
  }

  /* A fresh record becomes the top of its release, keeps the store valid, and touches no other config. */
  lemma AppendedTop(before: Configs, after: Configs, codec: Codec, rel: Release)
    requires ValidStore(before) && Appended(before, after, rel)
    ensures ValidStore(after) && (Readable(before) ==> Readable(after)) && OthersKept(before, after, [rel.name])
    ensures Fresh(before, codec, rel.name, rel.revision) ==> IsTop(after, codec, rel.name, Decoded(codec, rel))
  {
    var name := ConfigName(rel.name, rel.revision);
    RecordOfAgrees(rel);
    forall v: nat | v != rel.revision
      ensures Stored(after, codec, rel.name, v) == Stored(before, codec, rel.name, v)
    {
      if ConfigName(rel.name, v) == name { ConfigNameInjective(rel.name, v, rel.name, rel.revision); }
    }
  }

  function Max(a: nat, b: nat): nat { if a < b then b else a }

  /* A number was passed over only if its name was taken, or some record already reached it. */
  ghost predicate Passed(configs: Configs, codec: Codec, rel: Release, revision: nat) {
    forall v: nat {:trigger Fresh(configs, codec, rel.name, v)} ::
      rel.revision <= v < revision && Fresh(configs, codec, rel.name, v) ==> ConfigName(rel.name, v) in configs
  }

  lemma NotFreshBelowNext(revs: seq<Release>, configs: Configs, codec: Codec, release: string)
    requires IsHistory(revs, configs, codec, release)
    ensures forall v: nat {:trigger Fresh(configs, codec, release, v)} ::
      0 < v < NextRevision(revs) ==> !Fresh(configs, codec, release, v)
  {
    HistoryTop(revs, configs, codec, release);
    if revs != [] {
      assert Stored(configs, codec, release, revs[|revs| - 1].revision).Some?;
    }
  }

  lemma PassedNone(configs: Configs, codec: Codec, rel: Release)
    ensures Passed(configs, codec, rel, rel.revision)
  {
  }

  /* After a collision the next number tried is fresh, and nothing free was passed over. */
  lemma NextNumber(configs: Configs, codec: Codec, rel: Release, tried: nat, revs: seq<Release>)
    requires IsHistory(revs, configs, codec, rel.name) && rel.revision <= tried
    requires Passed(configs, codec, rel, tried) && ConfigName(rel.name, tried) in configs
    ensures Passed(configs, codec, rel, Max(NextRevision(revs), tried + 1))
    ensures Fresh(configs, codec, rel.name, Max(NextRevision(revs), tried + 1))
  {
    hide IsHistory, ConfigName, Stored;
    HistoryTop(revs, configs, codec, rel.name);
    NotFreshBelowNext(revs, configs, codec, rel.name);
  }

  /* The revision tried after some collisions, each followed by reading the history again: past the number
     that collided, even where the history does not account for it. */
  function Tried(rel: Release, reread: seq<seq<Release>>): (out: Release)
    ensures out == rel.(revision := out.revision) && out.revision >= rel.revision + |reread|
  {
    if reread == [] then rel
    else
      var last := Tried(rel, reread[..|reread| - 1]);
      last.(revision := Max(NextRevision(reread[|reread| - 1]), last.revision + 1))
  }

  /* Each number tried so far was taken, and the history was read again after it. */
  ghost predicate Collisions(configs: Configs, codec: Codec, rel: Release, reread: seq<seq<Release>>) {
    reread == [] ||
      (var n := |reread| - 1;
       && Collisions(configs, codec, rel, reread[..n])
       && ConfigName(rel.name, Tried(rel, reread[..n]).revision) in configs
       && Readable(configs) && IsHistory(reread[n], configs, codec, rel.name))
  }

  lemma OneMoreRead(configs: Configs, codec: Codec, rel: Release, reread: seq<seq<Release>>, revs: seq<Release>)
    requires Collisions(configs, codec, rel, reread) && Readable(configs) && IsHistory(revs, configs, codec, rel.name)
    requires ConfigName(rel.name, Tried(rel, reread).revision) in configs
    ensures Collisions(configs, codec, rel, reread + [revs])
    ensures var last := Tried(rel, reread);
            Tried(rel, reread + [revs]) == last.(revision := Max(NextRevision(revs), last.revision + 1))
  {
    hide ConfigName, IsHistory, Readable, NextRevision, Max;
    assert (reread + [revs])[..|reread|] == reread;
  }

  /* How recording a revision ended: stored; the store refused it for another reason than its name; its name
     was taken and the history could not be read again; or its name was taken once too often. */
  datatype Ending = Put | Unstored | Unread | Exhausted

  /* How many numbers were tried. */
  function Tries(reread: seq<seq<Release>>, end: Ending): nat {
    if end == Exhausted then |reread| else |reread| + 1
  }

  /* What recording a revision does to the store. */
  ghost predicate Attempted(
    before: Configs, after: Configs, codec: Codec, rel: Release, out: Release, reread: seq<seq<Release>>, end: Ending)
  {
    && Collisions(before, codec, rel, reread) && out == Tried(rel, reread)
    && Tries(reread, end) <= 6
    && match end
       case Put => Appended(before, after, out)
       case Unstored => after == before
       case Unread => after == before && ConfigName(out.name, out.revision) in before
       case Exhausted => after == before && |reread| == 6
  }

  /* A number tried was free to take only if nothing before it was, and is fresh if the first was or if it is
     not the first. */
  lemma {:induction false} TriedPasses(configs: Configs, codec: Codec, rel: Release, reread: seq<seq<Release>>)
    requires Collisions(configs, codec, rel, reread)
    ensures Passed(configs, codec, rel, Tried(rel, reread).revision)
    ensures reread != [] || Fresh(configs, codec, rel.name, rel.revision) ==>
      Fresh(configs, codec, rel.name, Tried(rel, reread).revision)
    decreases |reread|
  {
    if reread == [] {
      PassedNone(configs, codec, rel);
    } else {
      var n := |reread| - 1;
      TriedPasses(configs, codec, rel, reread[..n]);
      NextNumber(configs, codec, rel, Tried(rel, reread[..n]).revision, reread[n]);
    }
  }

  /* Appends a revision, moving past numbers that are taken: it tries six numbers at most. */
  method Record(b: Backend, rel: Release)
    returns (out: Release, ok: bool, ghost reread: seq<seq<Release>>, ghost end: Ending)
    requires ValidStore(b.configs)
    modifies b`configs, b`written, b`mishaps
    ensures b.mishaps >= old(b.mishaps)
    ensures Attempted(old(b.configs), b.configs, b.codec, rel, out, reread, end) && ok == (end == Put)
    ensures b.written == if ok then old(b.written) + [ConfigName(out.name, out.revision)] else old(b.written)
    ensures Fresh(old(b.configs), b.codec, rel.name, rel.revision) || out.revision != rel.revision ==>
      Fresh(old(b.configs), b.codec, rel.name, out.revision)
    ensures Passed(old(b.configs), b.codec, rel, out.revision)
    ensures !ok && b.mishaps == old(b.mishaps) ==> !Readable(b.configs) || !b.codec.fits(out) || end == Exhausted
  {
    hide Fresh, Passed, IsHistory, ConfigName, ValidStore, Readable, Collisions, Tried;
    out, ok, reread, end := rel, false, [], Unstored;
    NothingTried(b.configs, b.codec, rel);
    for attempt := 0 to MAX_RECORD_RETRIES + 1
      invariant b.configs == old(b.configs) && b.written == old(b.written) && b.mishaps >= old(b.mishaps)
      invariant Collisions(b.configs, b.codec, rel, reread) && out == Tried(rel, reread) && |reread| == attempt
    {
      TriedPasses(b.configs, b.codec, rel, reread);
      var r := StoreRevision(b, out);
      if r != AlreadyExists {
        ok := r == Created;
        end := if ok then Put else Unstored;
        return;
      }
      var revs := Revisions(b, rel.name);
      if revs.None? {
        end := Unread;
        return;
      }
      OneMoreRead(b.configs, b.codec, rel, reread, revs.value);
      reread := reread + [revs.value];
      out := out.(revision := Max(NextRevision(revs.value), out.revision + 1));
    }
    TriedPasses(b.configs, b.codec, rel, reread);
    end := Exhausted;
  }

  lemma NothingTried(configs: Configs, codec: Codec, rel: Release)
    ensures Collisions(configs, codec, rel, []) && Tried(rel, []) == rel
  {
  }

  // ---------- Trimming ----------

  lemma PlanOfDerived(log: seq<Release>, keep: int)
    ensures Plan(Derived(log), keep) == Plan(log, keep)
  {
  }

  /* Only configs of that set are gone, and the others are as they were. */
  ghost predicate Trimmed(before: Configs, after: Configs, gone: set<string>) {
    && (forall name :: name in after ==> name in before && after[name] == before[name])
    && (forall name :: name in before && name !in after ==> name in gone)
  }

  lemma DoomedNext(release: string, actions: seq<PruneAction>, i: nat)
    requires i < |actions|
    ensures Doomed(release, actions[..i + 1])
         == Doomed(release, actions[..i]) + if actions[i].delete then {ConfigName(release, actions[i].revision)} else {}
  {
    assert actions[..i + 1] == actions[..i] + [actions[i]];
    var more := actions[..i + 1];
    assert forall a :: a in more <==> a in actions[..i] || a == actions[i];
  }

  lemma SizeWithOne(small: set<string>, large: set<string>, name: string)
    requires small <= large + {name}
    ensures |small| <= |large| + 1
  {
    SetSize(small, large + {name});
  }

  lemma {:induction false} SetSize(small: set<string>, large: set<string>)
    requires small <= large
    ensures |small| <= |large|
  {
    if small != {} {
      var x :| x in small;
      SetSize(small - {x}, large - {x});
    }
  }

  /* How far deleting a set of configs has got: no others are gone, and at most as many of them are still
     there as deletions failed. */
  ghost predicate Gone(before: Configs, after: Configs, doomed: set<string>, failed: nat) {
    && Trimmed(before, after, doomed)
    && |doomed * after.Keys| <= failed
  }

  /* With no failure exactly those are gone. */
  lemma GoneAll(before: Configs, after: Configs, doomed: set<string>)
    requires Gone(before, after, doomed, 0)
    ensures after == before - doomed
  {
    assert doomed * after.Keys == {};
    assert forall name :: name in after ==> name !in doomed * after.Keys;
  }

  lemma GoneNothing(configs: Configs)
    ensures Gone(configs, configs, {}, 0)
  {
    assert {} * configs.Keys == {};
  }

  /* More failures are allowed for. */
  lemma GoneMore(before: Configs, after: Configs, doomed: set<string>, failed: nat, more: nat)
    requires Gone(before, after, doomed, failed) && failed <= more
    ensures Gone(before, after, doomed, more)
  {
  }

  lemma GoneOne(before: Configs, mid: Configs, doomed: set<string>, failed: nat, name: string)
    requires Gone(before, mid, doomed, failed)
    ensures Gone(before, mid - {name}, doomed + {name}, failed)
  {
    var after := mid - {name};
    SetSize((doomed + {name}) * after.Keys, doomed * mid.Keys);
  }

  lemma GoneFailed(before: Configs, mid: Configs, doomed: set<string>, failed: nat, name: string)
    requires Gone(before, mid, doomed, failed)
    ensures Gone(before, mid, doomed + {name}, failed + 1)
  {
    SizeWithOne((doomed + {name}) * mid.Keys, doomed * mid.Keys, name);
  }

  /* A deletion that fails stops no other: what is left undone is at most as much as failed. */
  method DeletePlanned(b: Backend, release: string, actions: seq<PruneAction>) returns (ok: bool)
    modifies b`configs, b`mishaps
    ensures b.mishaps >= old(b.mishaps) && (ok <==> b.mishaps == old(b.mishaps))
    ensures Gone(old(b.configs), b.configs, Doomed(release, actions), b.mishaps - old(b.mishaps))
  {
    hide Gone, Doomed, ConfigName;
    ok := true;
    GoneNothing(b.configs);
    NoneDoomed(release);
    assert actions[..0] == [];
    for i := 0 to |actions|
      invariant b.mishaps >= old(b.mishaps) && (ok <==> b.mishaps == old(b.mishaps))
      invariant Gone(old(b.configs), b.configs, Doomed(release, actions[..i]), b.mishaps - old(b.mishaps))
    {
      ghost var mid, doomed, failed := b.configs, Doomed(release, actions[..i]), b.mishaps - old(b.mishaps);
      DoomedNext(release, actions, i);
      if actions[i].delete {
        var name := ConfigName(release, actions[i].revision);
        GoneOne(old(b.configs), mid, doomed, failed, name);
        GoneFailed(old(b.configs), mid, doomed, failed, name);
        var deleted := b.DeleteConfig(name);
        ok := ok && deleted;
      } else {
        assert doomed + {} == doomed;
      }
    }
    assert actions[..|actions|] == actions;
  }

  lemma NoneDoomed(release: string)
    ensures Doomed(release, []) == {}
  {
  }

  /* Trims a release to its newest revisions; with no error and no dry run, the log that is left is
     exactly those. */
  method Prune(b: Backend, release: string, keep: int, dryRun: bool) returns (actions: seq<PruneAction>, ok: bool)
    requires ValidStore(b.configs)
    modifies b`configs, b`mishaps
    ensures ValidStore(b.configs) && b.mishaps >= old(b.mishaps)
    ensures !ok && b.mishaps == old(b.mishaps) ==> !Readable(b.configs) || NoneStored(b.configs, b.codec, release)
    ensures dryRun ==> b.configs == old(b.configs)
    ensures !dryRun ==> Gone(old(b.configs), b.configs, Doomed(release, actions), b.mishaps - old(b.mishaps))
    ensures actions == [] || exists log ::
      && IsLog(log, old(b.configs), b.codec, release) && log != [] && actions == Plan(log, keep)
      && (ok && !dryRun ==> IsLog(Kept(log, actions), b.configs, b.codec, release))
    ensures ok ==> actions != []
    ensures ok && !dryRun ==> b.configs == old(b.configs) - Doomed(release, actions)
  {
    var revs := Revisions(b, release);
    NoneDoomed(release);
    if revs.None? {
      return [], false;
    }
    HistoryTop(revs.value, b.configs, b.codec, release);
    if revs.value == [] {
      return [], false;
    }
    ghost var log: seq<Release> :| IsLog(log, b.configs, b.codec, release) && revs.value == Derived(log);
    PlanOfDerived(log, keep);
    PrunedStore(log, b.configs, b.codec, release, keep);
    actions := PlanPrune(revs.value, keep);
    if dryRun {
      return actions, true;
    }
    ok := DeletePlanned(b, release, actions);
    if ok { GoneAll(old(b.configs), b.configs, Doomed(release, actions)); }
  }

  /* A store pruned to the newest revisions of a release, but for deletions that failed. */
  ghost predicate Pruned(before: Configs, after: Configs, codec: Codec, release: string, keep: int, failed: nat) {
    exists log: seq<Release> ::
      IsLog(log, before, codec, release) && Gone(before, after, Doomed(release, Plan(log, keep)), failed)
  }

  /* After a deploy, trimming is best effort: deletions that fail are ignored, and a store that cannot be
     read is left alone. */
  method PruneHistory(b: Backend, release: string, keep: int)
    requires ValidStore(b.configs)
    modifies b`configs, b`mishaps
    ensures b.mishaps >= old(b.mishaps)
    ensures || (b.configs == old(b.configs) && (b.mishaps > old(b.mishaps) || !Readable(b.configs)))
            || Pruned(old(b.configs), b.configs, b.codec, release, keep, b.mishaps - old(b.mishaps))
  {
    var revs := Revisions(b, release);
    if revs.None? {
      return;
    }
    ghost var read := b.mishaps;
    ghost var log: seq<Release> :| IsLog(log, b.configs, b.codec, release) && revs.value == Derived(log);
    PlanOfDerived(log, keep);
    var actions := PlanPrune(revs.value, keep);
    var deleted := DeletePlanned(b, release, actions);
    GoneMore(old(b.configs), b.configs, Doomed(release, actions), b.mishaps - read, b.mishaps - old(b.mishaps));
  }

  // ---------- What stays ----------

  /* A record of one of these releases. */
  predicate Concerns(c: Config, names: seq<string>) {
    IsReleaseRecord(c.labels) && c.payload.Encoded? && c.payload.rel.name in names
  }

  /* Every config but the records of these releases is there, as it was, and no other is new. */
  ghost predicate OthersKept(before: Configs, after: Configs, names: seq<string>) {
    && (forall n {:trigger before[n]} :: n in before && !Concerns(before[n], names) ==>
          n in after && after[n] == before[n])
    && (forall n {:trigger after[n]} :: n in after && !Concerns(after[n], names) ==>
          n in before && before[n] == after[n])
  }

  /* So the other releases' records read as before. */
  lemma OthersStored(before: Configs, after: Configs, codec: Codec, names: seq<string>, other: string, v: nat)
    requires OthersKept(before, after, names) && other !in names
    ensures Stored(after, codec, other, v) == Stored(before, codec, other, v)
  {
    var name := ConfigName(other, v);
    if name in before && HoldsRecord(before[name], other, v) { assert !Concerns(before[name], names); }
    if name in after && HoldsRecord(after[name], other, v) { assert !Concerns(after[name], names); }
  }

  lemma TopNotDoomed(release: string, log: seq<Release>, keep: int)
    requires Increasing(log) && log != []
    ensures ConfigName(release, log[|log| - 1].revision) !in Doomed(release, Plan(log, keep))
  {
    DoomedExactly(release, log, keep, log[|log| - 1].revision);
  }

  lemma TrimKeepsTopOf(
    before: Configs, after: Configs, codec: Codec, gone: set<string>, release: string, rel: Release)
    requires Trimmed(before, after, gone)
    requires IsTop(before, codec, release, rel) && ConfigName(release, rel.revision) !in gone
    ensures IsTop(after, codec, release, rel)
  {
    forall v: nat | Stored(after, codec, release, v).Some? ensures v <= rel.revision {
      assert Stored(before, codec, release, v).Some?;
    }
  }

  /* A planned deletion is of a record of the release. */
  lemma DoomedConcerns(log: seq<Release>, configs: Configs, codec: Codec, release: string, keep: int, name: string)
    requires IsLog(log, configs, codec, release) && name in Doomed(release, Plan(log, keep))
    ensures name in configs && Concerns(configs[name], [release])
  {
    var actions := Plan(log, keep);
    var a :| a in actions && a.delete && ConfigName(release, a.revision) == name;
    var i :| 0 <= i < |actions| && actions[i] == a;
    assert Stored(configs, codec, release, log[i].revision) == Some(log[i]);
  }

  /* Pruning removes records of the release only, never the newest, and keeps the store valid. */
  lemma PrunedKeeps(before: Configs, after: Configs, codec: Codec, release: string, keep: int, failed: nat)
    requires Pruned(before, after, codec, release, keep, failed)
    ensures forall rel :: IsTop(before, codec, release, rel) ==> IsTop(after, codec, release, rel)
    ensures OthersKept(before, after, [release])
    ensures ValidStore(before) ==> ValidStore(after)
    ensures Readable(before) ==> Readable(after)
  {
    var log: seq<Release> :|
      IsLog(log, before, codec, release) && Gone(before, after, Doomed(release, Plan(log, keep)), failed);
    var gone := Doomed(release, Plan(log, keep));
    forall rel | IsTop(before, codec, release, rel) ensures IsTop(after, codec, release, rel) {
      var i :| 0 <= i < |log| && log[i].revision == rel.revision;
      LogTop(log, before, codec, release);
      TopNotDoomed(release, log, keep);
      TopUnique(before, codec, release, rel, log[|log| - 1]);
      TrimKeepsTopOf(before, after, codec, gone, release, rel);
    }
    forall name | name in before && !Concerns(before[name], [release]) ensures name in after {
      if name in gone { DoomedConcerns(log, before, codec, release, keep, name); }
    }
  }

  /* With no failure, what is left of the release is exactly its newest revisions. */
  lemma PrunedLog(before: Configs, after: Configs, codec: Codec, release: string, keep: int)
    requires Pruned(before, after, codec, release, keep, 0)
    ensures exists log :: IsLog(log, before, codec, release) && IsLog(Kept(log, Plan(log, keep)), after, codec, release)
  {
    var log: seq<Release> :|
      IsLog(log, before, codec, release) && Gone(before, after, Doomed(release, Plan(log, keep)), 0);
    GoneAll(before, after, Doomed(release, Plan(log, keep)));
    PrunedStore(log, before, codec, release, keep);
  }
}
