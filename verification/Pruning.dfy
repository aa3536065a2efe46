/** Retention (charts/release.go): which revisions of a release a prune deletes, and what it leaves. */
module Pruning {
  import opened Text
  import opened Releases

  datatype PruneAction = PruneAction(revision: nat, delete: bool, current: bool)

  function Action(revs: seq<Release>, keep: int, i: nat): PruneAction
    requires i < |revs|
  {
    var current := i == |revs| - 1;
    PruneAction(revs[i].revision, keep > 0 && i < |revs| - keep && !current, current)
  }

  function Plan(revs: seq<Release>, keep: int): (r: seq<PruneAction>)
    ensures |r| == |revs|
  {
    seq(|revs|, i requires 0 <= i < |revs| => Action(revs, keep, i))
  }

  method PlanPrune(revs: seq<Release>, keep: int) returns (actions: seq<PruneAction>)
    ensures actions == Plan(revs, keep)
  {
    actions := [];
    for i := 0 to |revs|
      invariant actions == Plan(revs, keep)[..i]
    {
      var current := i == |revs| - 1;
      var del := keep > 0 && i < |revs| - keep && !current;
      actions := actions + [PruneAction(revs[i].revision, del, current)];
    }
  }

  /* The revisions a plan lets live. */
  function Kept(revs: seq<Release>, actions: seq<PruneAction>): seq<Release>
    requires |revs| == |actions|
  {
    if revs == [] then []
    else (if actions[0].delete then [] else [revs[0]]) + Kept(revs[1..], actions[1..])
  }

  /* How many of n revisions a prune deletes. */
  function Cut(n: nat, keep: int): (c: nat)
    ensures c <= n && (n > 0 ==> c < n)
  {
    if keep <= 0 || n <= keep then 0 else n - keep
  }

  lemma DeletedBelowCut(revs: seq<Release>, keep: int, i: nat)
    requires i < |revs|
    ensures Plan(revs, keep)[i].delete <==> i < Cut(|revs|, keep)
  {
  }

  lemma {:induction false} KeptIsSuffix(revs: seq<Release>, actions: seq<PruneAction>, cut: nat)
    requires |revs| == |actions| && cut <= |revs|
    requires forall i :: 0 <= i < |actions| ==> (actions[i].delete <==> i < cut)
    ensures Kept(revs, actions) == revs[cut..]
  {
    if revs != [] {
      if cut > 0 {
        KeptIsSuffix(revs[1..], actions[1..], cut - 1);
        assert revs[1..][cut - 1..] == revs[cut..];
      } else {
        KeptIsSuffix(revs[1..], actions[1..], 0);
        assert revs[1..][0..] == revs[1..] && revs[0..] == [revs[0]] + revs[1..];
      }
    }
  }

  /* A prune keeps exactly the newest min(keep, n) revisions, and all of them when keep is not
     positive; at least one always. */
  lemma KeepsTheNewest(revs: seq<Release>, keep: int)
    ensures Kept(revs, Plan(revs, keep)) == revs[Cut(|revs|, keep)..]
    ensures |Kept(revs, Plan(revs, keep))| == if 0 < keep < |revs| then keep else |revs|
  {
    forall i | 0 <= i < |revs| ensures Plan(revs, keep)[i].delete <==> i < Cut(|revs|, keep) {
      DeletedBelowCut(revs, keep, i);
    }
    KeptIsSuffix(revs, Plan(revs, keep), Cut(|revs|, keep));
  }

  lemma SuffixSurvives(log: seq<Release>, cut: nat, kept: seq<Release>)
    requires cut <= |log| && kept == log[cut..] && (log != [] ==> cut < |log|)
    ensures Derived(kept) == Derived(log)[cut..]
    ensures Current(Derived(kept)) == Current(Derived(log))
    ensures NextRevision(kept) == NextRevision(log)
  {
  }

  /* The current revision, the next number, and every survivor's status stay what they were. */
  lemma SurvivorsUnchanged(log: seq<Release>, keep: int)
    ensures var kept := Kept(log, Plan(log, keep));
            && Derived(kept) == Derived(log)[Cut(|log|, keep)..]
            && Current(Derived(kept)) == Current(Derived(log))
            && NextRevision(kept) == NextRevision(log)
  {
    KeepsTheNewest(log, keep);
    SuffixSurvives(log, Cut(|log|, keep), Kept(log, Plan(log, keep)));
  }

  /* What two limits together keep: the smaller of them, where a limit that is not positive is none. */
  function Tighter(j: int, k: int): int {
    if j <= 0 then k else if k <= 0 then j else if j < k then j else k
  }

  lemma PruneTwice(revs: seq<Release>, j: int, k: int)
    ensures var once := Kept(revs, Plan(revs, k));
            Kept(once, Plan(once, j)) == Kept(revs, Plan(revs, Tighter(j, k)))
  {
    KeepsTheNewest(revs, k);
    var once := revs[Cut(|revs|, k)..];
    KeepsTheNewest(once, j);
    KeepsTheNewest(revs, Tighter(j, k));
    assert once[Cut(|once|, j)..] == revs[Cut(|revs|, k) + Cut(|once|, j)..];
  }

  /* Where the revisions a plan deletes are stored. */
  ghost function Doomed(release: string, actions: seq<PruneAction>): set<string> {
    set a | a in actions && a.delete :: ConfigName(release, a.revision)
  }

  lemma DoomedExactly(release: string, log: seq<Release>, keep: int, v: nat)
    ensures ConfigName(release, v) in Doomed(release, Plan(log, keep))
        <==> exists i :: 0 <= i < Cut(|log|, keep) && log[i].revision == v
  {
    var actions, name := Plan(log, keep), ConfigName(release, v);
    if name in Doomed(release, actions) {
      var a :| a in actions && a.delete && ConfigName(release, a.revision) == name;
      ConfigNameInjective(release, a.revision, release, v);
      var i :| 0 <= i < |actions| && actions[i] == a;
      DeletedBelowCut(log, keep, i);
    }
    if i :| 0 <= i < Cut(|log|, keep) && log[i].revision == v {
      DeletedBelowCut(log, keep, i);
      assert actions[i] in actions;
    }
  }

  lemma DoomedIsOfRelease(release: string, actions: seq<PruneAction>, other: string, v: nat)
    requires ConfigName(other, v) in Doomed(release, actions)
    ensures other == release
  {
    var a :| a in actions && a.delete && ConfigName(release, a.revision) == ConfigName(other, v);
    ConfigNameInjective(release, a.revision, other, v);
  }

  lemma SuffixIsLog(log: seq<Release>, cut: nat, configs: Configs, codec: Codec, doomed: set<string>, release: string)
    requires IsLog(log, configs, codec, release) && cut <= |log|
    requires forall v: nat :: ConfigName(release, v) in doomed <==> exists i :: 0 <= i < cut && log[i].revision == v
    ensures IsLog(log[cut..], configs - doomed, codec, release)
  {
    var kept, after := log[cut..], configs - doomed;
    forall i | 0 <= i < |kept| ensures Stored(after, codec, release, kept[i].revision) == Some(kept[i]) {
      assert kept[i] == log[cut + i];
      assert Stored(configs, codec, release, log[cut + i].revision) == Some(log[cut + i]);
    }
    forall v: nat | Stored(after, codec, release, v).Some?
      ensures exists i :: 0 <= i < |kept| && kept[i].revision == v
    {
      assert Stored(configs, codec, release, v).Some? && ConfigName(release, v) !in doomed;
      var i :| 0 <= i < |log| && log[i].revision == v;
      assert i >= cut;
      assert kept[i - cut] == log[i];
    }
  }

  /* Deleting them leaves the newest revisions as the release's log, and every other release's
     records where they were. */
  lemma PrunedStore(log: seq<Release>, configs: Configs, codec: Codec, release: string, keep: int)
    requires IsLog(log, configs, codec, release)
    ensures var after := configs - Doomed(release, Plan(log, keep));
            && IsLog(Kept(log, Plan(log, keep)), after, codec, release)
            && (forall other: string, v: nat :: other != release ==>
                  Stored(after, codec, other, v) == Stored(configs, codec, other, v))
  {
    var doomed := Doomed(release, Plan(log, keep));
    KeepsTheNewest(log, keep);
    forall v: nat
      ensures ConfigName(release, v) in doomed <==> exists i :: 0 <= i < Cut(|log|, keep) && log[i].revision == v
    {
      DoomedExactly(release, log, keep, v);
    }
    SuffixIsLog(log, Cut(|log|, keep), configs, codec, doomed, release);
    forall other: string, v: nat | other != release
      ensures Stored(configs - doomed, codec, other, v) == Stored(configs, codec, other, v)
    {
      if ConfigName(other, v) in doomed { DoomedIsOfRelease(release, Plan(log, keep), other, v); }
    }
  }
}
