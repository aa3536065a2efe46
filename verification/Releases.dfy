/** Release records (charts/types.go, charts/release.go): what a stored revision holds, where it is
    stored, and the log the records of one release make. */
module Releases {
  import opened Text
  import opened Values
  import opened Manifests

  datatype Status = Deployed | Superseded | Uninstalled | Failed

  datatype Chart = Chart(name: string, version: string, appVersion: string, repo: string, repoURL: string)

  type Files = map<string, string>

  datatype Release = Release(
    name: string, revision: nat, status: Status, chart: Chart, values: Value, manifest: Manifest, files: Files,
    created: nat, managedNetworks: seq<string>, owner: string)

  /* The bytes of a config: an encoded revision, or something that does not decode as one. */
  datatype Payload = Encoded(rel: Release) | Opaque

  datatype Config = Config(labels: map<string, string>, payload: Payload)

  type Configs = map<string, Config>

  const LABEL_TYPE := "com.swarmcli.type"
  const LABEL_RELEASE := "com.swarmcli.release"
  const LABEL_CHART := "com.swarmcli.chart"
  const LABEL_CHART_VERSION := "com.swarmcli.chart.version"
  const LABEL_REVISION := "com.swarmcli.revision"
  const LABEL_STATUS := "com.swarmcli.status"
  const LABEL_CREATED := "com.swarmcli.created"
  const LABEL_OWNER := "com.swarmcli.owner"
  const LABEL_STACK := "com.docker.stack.namespace"
  const TYPE_RELEASE := "release"
  const RECORD_PREFIX := "swarmcli.release."

  /* The library that writes values down and reads them back, and the size limit of a config. */
  datatype Codec = Codec(marshal: Value -> string, unmarshal: string -> Value, fits: Release -> bool)

  /* What values read back as once they were stored. */
  function Reread(codec: Codec, v: Value): Value { (codec.unmarshal)((codec.marshal)(v)) }

  /* The encoding values are compared in. */
  function Canonical(codec: Codec, v: Value): string { (codec.marshal)(Reread(codec, v)) }

  /* Storing values once more does not change their canonical encoding. */
  ghost predicate Stable(codec: Codec) {
    forall v :: Canonical(codec, Reread(codec, v)) == Canonical(codec, v)
  }

  function Decoded(codec: Codec, rel: Release): Release { rel.(values := Reread(codec, rel.values)) }

  // ---------- Names ----------

  function ConfigName(release: string, revision: nat): string {
    RECORD_PREFIX + release + ".v" + Decimal(revision)
  }

  /* The digits a text ends in, and what is before them. */
  function DigitTail(s: string): (n: nat)
    ensures n <= |s|
  {
    if s != [] && IsDigit(s[|s| - 1]) then 1 + DigitTail(s[..|s| - 1]) else 0
  }

  lemma {:induction false} DigitTailOf(s: string, digits: string)
    requires s != [] && !IsDigit(s[|s| - 1])
    requires forall i :: 0 <= i < |digits| ==> IsDigit(digits[i])
    ensures DigitTail(s + digits) == |digits|
  {
    if digits == [] {
      assert s + digits == s;
    } else {
      var last := |digits| - 1;
      DigitTailOf(s, digits[..last]);
      assert (s + digits)[..|s| + last] == s + digits[..last];
    }
  }

  /* A config name says which release and which revision it is for. */
  lemma ConfigNameInjective(release: string, revision: nat, other: string, otherRevision: nat)
    requires ConfigName(release, revision) == ConfigName(other, otherRevision)
    ensures release == other && revision == otherRevision
  {
    var a, b := RECORD_PREFIX + release + ".v", RECORD_PREFIX + other + ".v";
    var d, e := Decimal(revision), Decimal(otherRevision);
    DigitTailOf(a, d);
    DigitTailOf(b, e);
    assert |d| == |e| && |a| == |b|;
    assert d == (a + d)[|a|..] == (b + e)[|b|..] == e;
    DecimalInjective(revision, otherRevision);
    assert a == (a + d)[..|a|] == (b + e)[..|b|] == b;
    var from, to := |RECORD_PREFIX|, |a| - 2;
    assert release == a[from..to] == b[from..to] == other;
  }

  // ---------- Stores ----------

  /* A config a stack deploy created also carries the stack's label, and is no record. */
  predicate IsReleaseRecord(labels: map<string, string>) {
    LABEL_TYPE in labels && labels[LABEL_TYPE] == TYPE_RELEASE && LABEL_STACK !in labels
  }

  lemma RecordsAreLabelled(labels: map<string, string>)
    ensures IsReleaseRecord(labels) <==>
      && "com.swarmcli.type" in labels && labels["com.swarmcli.type"] == "release"
      && "com.docker.stack.namespace" !in labels
  {
  }

  /* The labels a revision is stored with; no owner label at all when nobody owns it. */
  function RecordLabels(rel: Release): map<string, string> {
    var labels := map[
      LABEL_TYPE := TYPE_RELEASE, LABEL_RELEASE := rel.name, LABEL_CHART := rel.chart.name,
      LABEL_CHART_VERSION := rel.chart.version, LABEL_REVISION := Decimal(rel.revision),
      LABEL_STATUS := StatusText(rel.status), LABEL_CREATED := Decimal(rel.created)];
    if rel.owner == "" then labels else labels[LABEL_OWNER := rel.owner]
  }

  function StatusText(s: Status): string {
    match s
    case Deployed => "deployed"
    case Superseded => "superseded"
    case Uninstalled => "uninstalled"
    case Failed => "failed"
  }

  function RecordOf(rel: Release): Config { Config(RecordLabels(rel), Encoded(rel)) }

  /* The name of a record, and what each of its labels holds; nobody's revision carries no owner label. */
  lemma LabelsSay(rel: Release)
    ensures ConfigName(rel.name, rel.revision) == "swarmcli.release." + rel.name + ".v" + Decimal(rel.revision)
    ensures var labels := RecordLabels(rel);
            && labels.Keys == {
                 "com.swarmcli.type", "com.swarmcli.release", "com.swarmcli.chart", "com.swarmcli.chart.version",
                 "com.swarmcli.revision", "com.swarmcli.status", "com.swarmcli.created"}
                 + (if rel.owner == "" then {} else {"com.swarmcli.owner"})
            && labels["com.swarmcli.type"] == "release" && labels["com.swarmcli.release"] == rel.name
            && labels["com.swarmcli.chart"] == rel.chart.name
            && labels["com.swarmcli.chart.version"] == rel.chart.version
            && labels["com.swarmcli.revision"] == Decimal(rel.revision)
            && labels["com.swarmcli.created"] == Decimal(rel.created)
            && (rel.owner != "" ==> labels["com.swarmcli.owner"] == rel.owner)
            && (rel.status == Deployed <==> labels["com.swarmcli.status"] == "deployed")
            && (rel.status == Superseded <==> labels["com.swarmcli.status"] == "superseded")
            && (rel.status == Uninstalled <==> labels["com.swarmcli.status"] == "uninstalled")
            && (rel.status == Failed <==> labels["com.swarmcli.status"] == "failed")
  {
  }

  /* Records that carry the same labels are of the same revision, chart, status and owner. */
  lemma LabelsTell(rel: Release, other: Release)
    requires RecordLabels(rel) == RecordLabels(other)
    ensures rel.name == other.name && rel.revision == other.revision && rel.status == other.status
    ensures rel.chart.name == other.chart.name && rel.chart.version == other.chart.version
    ensures rel.owner == other.owner && rel.created == other.created
  {
    LabelsSay(rel);
    LabelsSay(other);
    DecimalInjective(rel.revision, other.revision);
    DecimalInjective(rel.created, other.created);
    if rel.owner == "" || other.owner == "" { assert "com.swarmcli.owner" in RecordLabels(rel) <==> rel.owner != ""; }
  }

  /* A record that decodes is stored under the name, and carries the labels, of what it decodes to. */
  predicate Agrees(name: string, c: Config) {
    IsReleaseRecord(c.labels) && c.payload.Encoded? ==>
      name == ConfigName(c.payload.rel.name, c.payload.rel.revision) && c.labels == RecordLabels(c.payload.rel)
  }

  ghost predicate ValidStore(configs: Configs) {
    forall name {:trigger configs[name]} :: name in configs ==> Agrees(name, configs[name])
  }

  lemma RecordOfAgrees(rel: Release)
    ensures IsReleaseRecord(RecordOf(rel).labels)
    ensures Agrees(ConfigName(rel.name, rel.revision), RecordOf(rel))
  {
  }

  predicate HoldsRecord(c: Config, release: string, revision: nat) {
    IsReleaseRecord(c.labels) && c.payload.Encoded? && c.payload.rel.name == release
      && c.payload.rel.revision == revision
  }

  /* The revision of a release a store holds under a number, as it reads back. */
  function Stored(configs: Configs, codec: Codec, release: string, revision: nat): Option<Release> {
    var name := ConfigName(release, revision);
    if name in configs && HoldsRecord(configs[name], release, revision)
    then Some(Decoded(codec, configs[name].payload.rel))
    else None
  }

  /* The newest revision of a release. */
  ghost predicate IsTop(configs: Configs, codec: Codec, release: string, rel: Release) {
    && Stored(configs, codec, release, rel.revision) == Some(rel)
    && forall v: nat :: Stored(configs, codec, release, v).Some? ==> v <= rel.revision
  }

  ghost predicate NoneStored(configs: Configs, codec: Codec, release: string) {
    forall v: nat :: Stored(configs, codec, release, v).None?
  }

  // ---------- The log ----------

  function Supersede(rel: Release): Release { if rel.status == Deployed then rel.(status := Superseded) else rel }

  /* Only the newest revision keeps the status it was stored with. */
  function Derived(revs: seq<Release>): (r: seq<Release>)
    ensures |r| == |revs|
  {
    seq(|revs|, i requires 0 <= i < |revs| => if i == |revs| - 1 then revs[i] else Supersede(revs[i]))
  }

  method DeriveStatuses(revs: seq<Release>) returns (r: seq<Release>)
    ensures r == Derived(revs)
  {
    r := revs;
    if |revs| == 0 {
      return;
    }
    var top := |revs| - 1;
    for i := 0 to |revs|
      invariant |r| == |revs|
      invariant forall k :: 0 <= k < i ==> r[k] == Derived(revs)[k]
      invariant forall k :: i <= k < |r| ==> r[k] == revs[k]
    {
      if i != top && r[i].status == Deployed {
        r := r[i := r[i].(status := Superseded)];
      }
    }
  }

  ghost predicate Increasing(revs: seq<Release>) {
    forall i, j :: 0 <= i < j < |revs| ==> revs[i].revision < revs[j].revision
  }

  /* The stored revisions of one release, each once, in order: what is in the store and nothing else. */
  ghost predicate IsLog(log: seq<Release>, configs: Configs, codec: Codec, release: string) {
    && Increasing(log)
    && (forall i :: 0 <= i < |log| ==> Stored(configs, codec, release, log[i].revision) == Some(log[i]))
    && (forall v: nat :: Stored(configs, codec, release, v).Some? ==>
          exists i :: 0 <= i < |log| && log[i].revision == v)
  }

  /* What a release's log reads as. */
  ghost predicate IsHistory(revs: seq<Release>, configs: Configs, codec: Codec, release: string) {
    exists log: seq<Release> :: IsLog(log, configs, codec, release) && revs == Derived(log)
  }

  function Current(revs: seq<Release>): Option<Release> {
    if revs == [] then None else Some(revs[|revs| - 1])
  }

  function NextRevision(revs: seq<Release>): nat {
    if revs == [] then 1 else revs[|revs| - 1].revision + 1
  }

  /* A store has at most one log per release, so a reading of it is unique. */
  lemma LogUnique(a: seq<Release>, b: seq<Release>, configs: Configs, codec: Codec, release: string)
    requires IsLog(a, configs, codec, release) && IsLog(b, configs, codec, release)
    ensures a == b
  {
    LogPrefix(a, b, configs, codec, release, |a|);
    LogPrefix(b, a, configs, codec, release, |b|);
  }

  lemma {:induction false} LogPrefix(
    a: seq<Release>, b: seq<Release>, configs: Configs, codec: Codec, release: string, n: nat)
    requires IsLog(a, configs, codec, release) && IsLog(b, configs, codec, release) && n <= |a|
    ensures n <= |b| && forall k :: 0 <= k < n ==> a[k] == b[k]
    decreases n
  {
    if n > 0 {
      LogPrefix(a, b, configs, codec, release, n - 1);
      LogPrefixNext(a, b, configs, codec, release, n - 1);
    }
  }

  lemma LogPrefixNext(a: seq<Release>, b: seq<Release>, configs: Configs, codec: Codec, release: string, n: nat)
    requires IsLog(a, configs, codec, release) && IsLog(b, configs, codec, release)
    requires n < |a| && n <= |b| && forall k :: 0 <= k < n ==> a[k] == b[k]
    ensures n < |b| && a[n] == b[n]
  {
    hide Stored;
    assert Stored(configs, codec, release, a[n].revision) == Some(a[n]);
    var j :| 0 <= j < |b| && b[j].revision == a[n].revision;
    assert n <= j;
    assert Stored(configs, codec, release, b[n].revision) == Some(b[n]);
    var i :| 0 <= i < |a| && a[i].revision == b[n].revision;
  }

  lemma LogTop(log: seq<Release>, configs: Configs, codec: Codec, release: string)
    requires IsLog(log, configs, codec, release)
    ensures log == [] <==> NoneStored(configs, codec, release)
    ensures log != [] ==> IsTop(configs, codec, release, log[|log| - 1])
  {
    if log != [] {
      var rel := log[|log| - 1];
      assert Stored(configs, codec, release, rel.revision) == Some(rel);
      forall v: nat | Stored(configs, codec, release, v).Some? ensures v <= rel.revision {
        var i :| 0 <= i < |log| && log[i].revision == v;
      }
    }
  }

  /* The newest entry of a history is the newest revision stored, with the status it was stored with. */
  lemma HistoryTop(revs: seq<Release>, configs: Configs, codec: Codec, release: string)
    requires IsHistory(revs, configs, codec, release)
    ensures revs == [] <==> NoneStored(configs, codec, release)
    ensures revs != [] ==> IsTop(configs, codec, release, revs[|revs| - 1])
    ensures forall v: nat :: Stored(configs, codec, release, v).Some? ==> v < NextRevision(revs)
  {
    var log: seq<Release> :| IsLog(log, configs, codec, release) && revs == Derived(log);
    LogTop(log, configs, codec, release);
    assert log != [] ==> revs[|revs| - 1] == log[|log| - 1];
  }

  lemma TopUnique(configs: Configs, codec: Codec, release: string, a: Release, b: Release)
    requires IsTop(configs, codec, release, a) && IsTop(configs, codec, release, b)
    ensures a == b
  {
  }
}
