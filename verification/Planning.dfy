/** Planning an apply (charts/apply.go): what a release file asks for, against what is deployed. */
module Planning {
  import opened Text
  import opened Values
  import opened Manifests
  import opened Releases
  import opened History
  import opened Backends
  import opened Preflight
  import opened Verbs
  import Owner

  /* One release of a file, resolved, merged and rendered. */
  datatype Wanted = Wanted(
    name: string, wave: int, chart: Chart, values: Value, manifest: Manifest, requirements: Option<Requirements>,
    files: Files)

  datatype Action = InstallIt | UpgradeIt | Unchanged

  datatype Entry = Entry(wanted: Wanted, action: Action)

  datatype Plan = Plan(owner: string, releases: seq<Entry>, unmanaged: seq<string>, orphaned: seq<string>)

  datatype ReleaseFile = ReleaseFile(owner: string, releases: seq<Wanted>)

  function OwnerIDOf(file: ReleaseFile): string { if file.owner == "" then "" else "apply/" + file.owner }

  // ---------- What is deployed ----------

  /* The live release of a name, by its newest revision. */
  ghost predicate Live(configs: Configs, codec: Codec, rel: Release) {
    IsTop(configs, codec, rel.name, rel) && rel.status != Uninstalled
  }

  /* The current revision of every release that is not uninstalled. */
  ghost predicate LiveMap(deployed: map<string, Release>, configs: Configs, codec: Codec) {
    && (forall name {:trigger deployed[name]} :: name in deployed ==>
          deployed[name].name == name && Live(configs, codec, deployed[name]))
    && (forall name {:trigger Exists(configs, codec, name)} :: Exists(configs, codec, name) ==> name in deployed)
  }

  method ListReleases(b: Backend) returns (r: Option<map<string, Release>>)
    requires ValidStore(b.configs)
    modifies b`mishaps
    ensures b.mishaps >= old(b.mishaps)
    ensures r.None? && b.mishaps == old(b.mishaps) ==> !Readable(b.configs)
    ensures r.Some? ==> LiveMap(r.value, b.configs, b.codec)
  {
    var all := AllRevisions(b);
    if all.None? {
      return None;
    }
    var groups, out, left: set<string> := all.value, map[], all.value.Keys;
    while left != {}
      invariant b.mishaps >= old(b.mishaps)
      invariant forall name :: name in left ==> name in groups
      invariant forall name :: name in out <==> name in groups && name !in left && LiveTop(groups[name])
      invariant forall name {:trigger out[name]} :: name in out ==>
        |groups[name]| > 0 && out[name] == groups[name][|groups[name]| - 1]
      decreases |left|
    {
      var name :| name in left;
      left := left - {name};
      var current := groups[name][|groups[name]| - 1];
      if current.status != Uninstalled {
        out := out[name := current];
      }
    }
    LiveTops(groups, out, b.configs, b.codec);
    return Some(out);
  }

  lemma LiveTops(groups: map<string, seq<Release>>, out: map<string, Release>, configs: Configs, codec: Codec)
    requires forall name {:trigger Group(groups, name)} :: IsHistory(Group(groups, name), configs, codec, name)
    requires forall name :: name in out <==> name in groups && LiveTop(groups[name])
    requires forall name {:trigger out[name]} :: name in out ==>
      |groups[name]| > 0 && out[name] == groups[name][|groups[name]| - 1]
    ensures LiveMap(out, configs, codec)
  {
    forall name ensures name in out <==> Exists(configs, codec, name)
      ensures name in out ==> out[name].name == name && Live(configs, codec, out[name])
    {
      var revs := Group(groups, name);
      LastIsLive(revs, configs, codec, name);
      assert name in out <==> LiveTop(revs);
    }
  }

  lemma LastIsLive(revs: seq<Release>, configs: Configs, codec: Codec, name: string)
    requires IsHistory(revs, configs, codec, name)
    ensures LiveTop(revs) <==> Exists(configs, codec, name)
    ensures LiveTop(revs) ==> revs[|revs| - 1].name == name && Live(configs, codec, revs[|revs| - 1])
  {
    LiveTopExists(revs, configs, codec, name);
    HistoryTop(revs, configs, codec, name);
  }

  // ---------- Comparing ----------

  /* Both halves of a stamp have to match. */
  predicate OwnedBy(rel: Release, id: string) {
    Owner.ParseOwner(rel.owner) == Some(Owner.OwnerRef(id, Owner.OWNER_KIND_RELEASE, rel.name))
  }

  /* Whether a revision already encodes what is wanted, ownership included: only a stamp naming somebody
     else contradicts an owner. */
  predicate Same(codec: Codec, cur: Release, wanted: Wanted, owner: string) {
    && cur.status != Uninstalled
    && cur.chart.name == wanted.chart.name && cur.chart.version == wanted.chart.version
    && cur.manifest == wanted.manifest
    && cur.files == wanted.files
    && !(owner != "" && cur.owner != "" && !OwnedBy(cur, owner))
    && Canonical(codec, cur.values) == Canonical(codec, wanted.values)
  }

  /* The stamp of a release an owner installed: "<id>:release/<name>", for an id that can be read back. */
  ghost predicate StampedBy(rel: Release, id: string) {
    rel.owner == id + ":release/" + rel.name && id != "" && ':' !in id && rel.name != ""
  }

  lemma OwnedIsStamped(rel: Release, id: string)
    ensures OwnedBy(rel, id) <==> StampedBy(rel, id)
  {
    var o := Owner.OwnerRef(id, "release", rel.name);
    assert Owner.Stamp(o) == id + ":release/" + rel.name by {
      assert ":" + "release" + "/" == ":release/";
      assert id + ":" + "release" + "/" + rel.name == id + (":" + "release" + "/") + rel.name;
    }
    Owner.StampReadsBackIff(o);
    if OwnedBy(rel, id) { Owner.StampOfParse(rel.owner); }
  }

  /* A revision says everything that is wanted: live, of that chart and version, with that manifest, those
     files, and values of the same canonical encoding; and no stamp of somebody else contradicts the owner. */
  ghost predicate SaysAll(codec: Codec, cur: Release, wanted: Wanted, owner: string) {
    && cur.status in {Deployed, Superseded, Failed}
    && cur.chart.name == wanted.chart.name && cur.chart.version == wanted.chart.version
    && cur.manifest == wanted.manifest && cur.files == wanted.files
    && codec.marshal(codec.unmarshal(codec.marshal(cur.values)))
         == codec.marshal(codec.unmarshal(codec.marshal(wanted.values)))
    && (owner == "" || cur.owner == "" || StampedBy(cur, owner))
  }

  lemma SameSaysAll(codec: Codec, cur: Release, wanted: Wanted, owner: string)
    ensures Same(codec, cur, wanted, owner) <==> SaysAll(codec, cur, wanted, owner)
  {
    OwnedIsStamped(cur, owner);
  }

  /* The action a plan takes for a release, in terms of the store. */
  ghost predicate RightAction(configs: Configs, codec: Codec, owner: string, wanted: Wanted, action: Action) {
    match action
    case InstallIt => !Exists(configs, codec, wanted.name)
    case UpgradeIt =>
      exists cur: Release :: Live(configs, codec, cur) && cur.name == wanted.name && !SaysAll(codec, cur, wanted, owner)
    case Unchanged => Holds(configs, codec, owner, wanted)
  }

  /* What is wanted is what the newest revision says. */
  ghost predicate Holds(configs: Configs, codec: Codec, owner: string, wanted: Wanted) {
    exists cur: Release :: IsTop(configs, codec, wanted.name, cur) && SaysAll(codec, cur, wanted, owner)
  }

  /* There is exactly one right action. */
  lemma OneRightAction(configs: Configs, codec: Codec, owner: string, wanted: Wanted, a: Action, c: Action)
    requires RightAction(configs, codec, owner, wanted, a) && RightAction(configs, codec, owner, wanted, c)
    ensures a == c
  {
    if a != c {
      var x: Release :| IsTop(configs, codec, wanted.name, x) && x.status != Uninstalled;
      assert Exists(configs, codec, wanted.name);
      forall y: Release | IsTop(configs, codec, wanted.name, y) ensures y == x {
        TopUnique(configs, codec, wanted.name, x, y);
      }
      assert false;
    }
  }

  // ---------- Ordering ----------

  function InsertByWave(entries: seq<Entry>, e: Entry): seq<Entry> {
    if entries == [] || e.wanted.wave <= entries[0].wanted.wave then [e] + entries
    else [entries[0]] + InsertByWave(entries[1..], e)
  }

  /* A stable sort by wave. */
  function SortByWave(entries: seq<Entry>): seq<Entry> {
    if entries == [] then [] else InsertByWave(SortByWave(entries[1..]), entries[0])
  }

  ghost predicate ByWave(entries: seq<Entry>) {
    forall i, j :: 0 <= i < j < |entries| ==> entries[i].wanted.wave <= entries[j].wanted.wave
  }

  function OfWave(entries: seq<Entry>, wave: int): seq<Entry> {
    if entries == [] then []
    else Pick(entries[0], wave) + OfWave(entries[1..], wave)
  }

  function Pick(e: Entry, wave: int): seq<Entry> {
    if e.wanted.wave == wave then [e] else []
  }

  lemma {:induction false} InsertByWaveElements(entries: seq<Entry>, e: Entry)
    ensures multiset(InsertByWave(entries, e)) == multiset(entries) + multiset{e}
  {
    if entries == [] || e.wanted.wave <= entries[0].wanted.wave {
    } else {
      InsertByWaveElements(entries[1..], e);
      assert entries == [entries[0]] + entries[1..];
    }
  }

  lemma InsertByWaveMembers(entries: seq<Entry>, e: Entry, x: Entry)
    requires x in InsertByWave(entries, e)
    ensures x == e || x in entries
  {
    InsertByWaveElements(entries, e);
    assert x in multiset(InsertByWave(entries, e));
  }

  lemma {:induction false} InsertByWaveSorted(entries: seq<Entry>, e: Entry)
    requires ByWave(entries)
    ensures ByWave(InsertByWave(entries, e))
  {
    if entries == [] || e.wanted.wave <= entries[0].wanted.wave {
    } else {
      var rest := InsertByWave(entries[1..], e);
      InsertByWaveSorted(entries[1..], e);
      forall j | 0 <= j < |rest| ensures entries[0].wanted.wave <= rest[j].wanted.wave {
        InsertByWaveMembers(entries[1..], e, rest[j]);
      }
    }
  }

  lemma {:induction false} InsertByWaveStable(entries: seq<Entry>, e: Entry, w: int)
    ensures OfWave(InsertByWave(entries, e), w) == Pick(e, w) + OfWave(entries, w)
  {
    if entries == [] || e.wanted.wave <= entries[0].wanted.wave {
      OfWaveCons(e, entries, w);
    } else {
      var h, t := entries[0], entries[1..];
      InsertByWaveStable(t, e, w);
      OfWaveCons(h, InsertByWave(t, e), w);
      OfWaveCons(h, t, w);
      assert entries == [h] + t;
      assert Pick(e, w) == [] || Pick(h, w) == [];
    }
  }

  lemma OfWaveCons(h: Entry, t: seq<Entry>, w: int)
    ensures OfWave([h] + t, w) == Pick(h, w) + OfWave(t, w)
  {
    assert ([h] + t)[1..] == t;
  }

  /* Sorting by wave keeps every entry and puts waves in order. */
  lemma {:induction false} SortedByWave(entries: seq<Entry>)
    ensures ByWave(SortByWave(entries))
    ensures multiset(SortByWave(entries)) == multiset(entries)
  {
    if entries != [] {
      SortedByWave(entries[1..]);
      InsertByWaveSorted(SortByWave(entries[1..]), entries[0]);
      InsertByWaveElements(SortByWave(entries[1..]), entries[0]);
      assert entries == [entries[0]] + entries[1..];
    }
  }

  /* And it keeps the file's order within a wave. */
  lemma {:induction false} SortedByWaveStable(entries: seq<Entry>, w: int)
    ensures OfWave(SortByWave(entries), w) == OfWave(entries, w)
  {
    if entries != [] {
      SortedByWaveStable(entries[1..], w);
      InsertByWaveStable(SortByWave(entries[1..]), entries[0], w);
    }
  }

  // ---------- Planning ----------

  /* The entries of a plan, in the file's order: every release of the file with its right action. */
  ghost predicate PlannedFrom(entries: seq<Entry>, wanted: seq<Wanted>, configs: Configs, codec: Codec, owner: string) {
    && |entries| == |wanted|
    && forall i :: 0 <= i < |entries| ==>
         entries[i].wanted == wanted[i] && RightAction(configs, codec, owner, wanted[i], entries[i].action)
  }

  predicate InFile(file: ReleaseFile, name: string) { exists w :: w in file.releases && w.name == name }

  ghost predicate LiveOwned(configs: Configs, codec: Codec, name: string, owner: string) {
    exists cur: Release ::
      IsTop(configs, codec, name, cur) && cur.status != Uninstalled && owner != "" && StampedBy(cur, owner)
  }

  /* A plan of a file against a store: the right action for each of its releases, in wave order, and of
     the live releases the file does not name, those its owner installed and the others. */
  ghost predicate PlanOf(plan: Plan, file: ReleaseFile, configs: Configs, codec: Codec) {
    && (exists entries ::
          PlannedFrom(entries, file.releases, configs, codec, plan.owner) && plan.releases == SortByWave(entries))
    && Ascending(plan.orphaned) && Ascending(plan.unmanaged)
    && (forall name :: name in plan.orphaned <==>
          Exists(configs, codec, name) && !InFile(file, name) && LiveOwned(configs, codec, name, plan.owner))
    && (forall name :: name in plan.unmanaged <==>
          Exists(configs, codec, name) && !InFile(file, name) && !LiveOwned(configs, codec, name, plan.owner))
  }

  method PlanRelease(
    codec: Codec, wanted: Wanted, deployed: map<string, Release>, owner: string, ghost configs: Configs)
    returns (e: Entry)
    requires LiveMap(deployed, configs, codec)
    ensures e.wanted == wanted && RightAction(configs, codec, owner, wanted, e.action)
  {
    if wanted.name !in deployed {
      return Entry(wanted, InstallIt);
    }
    var cur := deployed[wanted.name];
    assert Live(configs, codec, cur) && cur.name == wanted.name;
    SameSaysAll(codec, cur, wanted, owner);
    return Entry(wanted, if Same(codec, cur, wanted, owner) then Unchanged else UpgradeIt);
  }

  /* Who a plan is made for: whoever the caller names, or else the file's own name under "apply/". */
  ghost function OwnerFor(owner: string, override: string): string {
    if override != "" then override
    else if owner != "" then "apply/" + owner
    else ""
  }

  method PlanApply(b: Backend, file: ReleaseFile, override: string) returns (r: Option<Plan>)
    requires ValidStore(b.configs)
    ensures r.Some? ==> PlanOf(r.value, file, b.configs, b.codec)
    ensures r.Some? ==> r.value.owner == OwnerFor(file.owner, override)
    modifies b`mishaps
    ensures b.mishaps >= old(b.mishaps)
    ensures override != "" && !Owner.ValidOwnerID(override) ==> r.None?
    ensures r.None? && b.mishaps == old(b.mishaps) ==>
      !Readable(b.configs) || (override != "" && !Owner.ValidOwnerID(override))
  {
    var owner := OwnerIDOf(file);
    if override != "" {
      if !Owner.ValidOwnerID(override) {
        return None;
      }
      owner := override;
    }
    var current := ListReleases(b);
    if current.None? {
      return None;
    }
    var deployed := current.value;
    var entries: seq<Entry>, managed: set<string> := [], {};
    for i := 0 to |file.releases|
      invariant b.mishaps >= old(b.mishaps)
      invariant |entries| == i
      invariant forall k :: 0 <= k < i ==>
        entries[k].wanted == file.releases[k]
          && RightAction(b.configs, b.codec, owner, file.releases[k], entries[k].action)
      invariant forall name :: name in managed <==> exists k :: 0 <= k < i && file.releases[k].name == name
    {
      managed := managed + {file.releases[i].name};
      var e := PlanRelease(b.codec, file.releases[i], deployed, owner, b.configs);
      entries := entries + [e];
    }
    assert forall name :: name in managed <==> InFile(file, name);
    assert PlannedFrom(entries, file.releases, b.configs, b.codec, owner);
    var unmanaged, orphaned := Leftovers(b, deployed, managed, owner);
    return Some(Plan(owner, SortByWave(entries), unmanaged, orphaned));
  }

  /* Of the live releases a file does not manage, those its owner installed, and the others; by name. */
  method Leftovers(b: Backend, deployed: map<string, Release>, managed: set<string>, owner: string)
    returns (unmanaged: seq<string>, orphaned: seq<string>)
    requires LiveMap(deployed, b.configs, b.codec)
    ensures Ascending(orphaned) && Ascending(unmanaged)
    ensures forall name :: name in orphaned <==>
      Exists(b.configs, b.codec, name) && name !in managed && LiveOwned(b.configs, b.codec, name, owner)
    ensures forall name :: name in unmanaged <==>
      Exists(b.configs, b.codec, name) && name !in managed && !LiveOwned(b.configs, b.codec, name, owner)
  {
    unmanaged, orphaned := [], [];
    var left := deployed.Keys;
    while left != {}
      invariant forall name :: name in left ==> name in deployed
      invariant Ascending(orphaned) && Ascending(unmanaged)
      invariant forall name :: name in orphaned <==>
        name in deployed && name !in left && name !in managed && owner != "" && OwnedBy(deployed[name], owner)
      invariant forall name :: name in unmanaged <==>
        name in deployed && name !in left && name !in managed && !(owner != "" && OwnedBy(deployed[name], owner))
      decreases |left|
    {
      var name :| name in left;
      left := left - {name};
      InsertSortedMembers(orphaned, name);
      InsertSortedMembers(unmanaged, name);
      if name in managed {
      } else if owner != "" && OwnedBy(deployed[name], owner) {
        InsertSortedAscending(orphaned, name);
        orphaned := InsertSorted(orphaned, name);
      } else {
        InsertSortedAscending(unmanaged, name);
        unmanaged := InsertSorted(unmanaged, name);
      }
    }
    forall name ensures name in deployed <==> Exists(b.configs, b.codec, name)
      ensures name in deployed ==>
        (LiveOwned(b.configs, b.codec, name, owner) <==> owner != "" && OwnedBy(deployed[name], owner))
    {
      DeployedOwner(deployed, b.configs, b.codec, name, owner);
    }
  }

  lemma DeployedOwner(deployed: map<string, Release>, configs: Configs, codec: Codec, name: string, owner: string)
    requires LiveMap(deployed, configs, codec)
    ensures name in deployed <==> Exists(configs, codec, name)
    ensures name in deployed ==>
      (LiveOwned(configs, codec, name, owner) <==> owner != "" && OwnedBy(deployed[name], owner))
  {
    if name in deployed {
      OwnedIsStamped(deployed[name], owner);
      assert Live(configs, codec, deployed[name]);
      forall cur: Release | IsTop(configs, codec, name, cur) ensures cur == deployed[name] {
        TopUnique(configs, codec, name, cur, deployed[name]);
      }
    }
  }

  /* What a plan does with each release of its file is decided by the newest revision of that name: it is
     installed when there is none or that one was uninstalled; left alone when that one says all that is
     wanted; and upgraded when it differs in any of that. */
  lemma ActionDecided(plan: Plan, file: ReleaseFile, configs: Configs, codec: Codec, i: nat)
    requires PlanOf(plan, file, configs, codec) && i < |plan.releases|
    ensures var wanted, action := plan.releases[i].wanted, plan.releases[i].action;
            && wanted in file.releases
            && (NoneStored(configs, codec, wanted.name) ==> action == InstallIt)
            && forall top: Release :: IsTop(configs, codec, wanted.name, top) ==>
                 && (action == InstallIt <==> top.status == Uninstalled)
                 && (action == Unchanged <==> SaysAll(codec, top, wanted, plan.owner))
                 && (action == UpgradeIt <==> top.status != Uninstalled && !SaysAll(codec, top, wanted, plan.owner))
  {
    hide SaysAll, IsTop, NoneStored, RightAction, Ascending;
    var entries :|
      PlannedFrom(entries, file.releases, configs, codec, plan.owner) && plan.releases == SortByWave(entries);
    SortedByWave(entries);
    var e := plan.releases[i];
    assert e in multiset(SortByWave(entries)) && e in entries;
    var k :| 0 <= k < |entries| && entries[k] == e;
    assert e.wanted == file.releases[k];
    forall top: Release | IsTop(configs, codec, e.wanted.name, top)
      ensures e.action == InstallIt <==> top.status == Uninstalled
      ensures e.action == Unchanged <==> SaysAll(codec, top, e.wanted, plan.owner)
    {
      ActionAtTop(configs, codec, plan.owner, e, top);
    }
    if NoneStored(configs, codec, e.wanted.name) { ActionAtNone(configs, codec, plan.owner, e); }
  }

  lemma ActionAtNone(configs: Configs, codec: Codec, owner: string, e: Entry)
    requires RightAction(configs, codec, owner, e.wanted, e.action) && NoneStored(configs, codec, e.wanted.name)
    ensures e.action == InstallIt
  {
    hide SaysAll;
    assert forall top: Release :: !IsTop(configs, codec, e.wanted.name, top);
  }

  lemma ActionAtTop(configs: Configs, codec: Codec, owner: string, e: Entry, top: Release)
    requires RightAction(configs, codec, owner, e.wanted, e.action) && IsTop(configs, codec, e.wanted.name, top)
    ensures e.action == InstallIt <==> top.status == Uninstalled
    ensures e.action == Unchanged <==> SaysAll(codec, top, e.wanted, owner)
  {
    forall cur: Release | IsTop(configs, codec, e.wanted.name, cur) ensures cur == top {
      TopUnique(configs, codec, e.wanted.name, cur, top);
    }
    if top.status != Uninstalled { assert Exists(configs, codec, e.wanted.name); }
  }
}
