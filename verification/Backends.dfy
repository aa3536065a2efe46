/** The swarm as the release engine sees it (charts/release.go): stores it can change and a stack it can
    only ask about. What a poll answers, which calls fail and how much time passes are anybody's
    choice. */
module Backends {
  import opened Text
  import opened Manifests
  import opened Releases
  import opened Phase

  /* What the engine asked of the stacks, in order: a poll with its answer, or a manifest handed over
     with its files, accepted or not. */
  datatype Event =
    | Polled(release: string, states: seq<ServiceState>)
    | Handed(release: string, manifest: Manifest, files: Files, accepted: bool)

  /* One entry of a config listing; the listing may or may not carry the payload. */
  datatype ConfigMeta = ConfigMeta(name: string, labels: map<string, string>, data: Option<Payload>)

  datatype CreateResult = Created | AlreadyExists | Refused

  type Definitions = map<string, ServiceSpec>

  datatype Network = Network(scope: string, driver: string, attachable: bool)

  const SWARM_SCOPE := "swarm"

  function Definition(stacks: map<string, Definitions>, release: string, key: string): Option<ServiceSpec> {
    if release in stacks && key in stacks[release] then Some(stacks[release][key]) else None
  }

  /* What a deploy does to a stack's services. An accepted one gives every service it names its new
     definition; one that fails may have done so for any of them. The services a manifest leaves out
     stay as they are on a backend that preserves them. */
  ghost predicate DeployedTo(
    before: map<string, Definitions>, after: map<string, Definitions>, release: string, m: Manifest,
    accepted: bool, preserves: bool)
  {
    && (forall other, key {:trigger Definition(after, other, key)} ::
          other != release ==> Definition(after, other, key) == Definition(before, other, key))
    && (forall key {:trigger Definition(after, release, key)} :: key in Specs(m) ==>
          || Definition(after, release, key) == Some(Specs(m)[key])
          || (!accepted && Definition(after, release, key) == Definition(before, release, key)))
    && (preserves ==> forall key {:trigger Definition(after, release, key)} ::
          key !in Specs(m) ==> Definition(after, release, key) == Definition(before, release, key))
  }

  /* A listing names every config once and says of each what is stored. */
  ghost predicate Lists(metas: seq<ConfigMeta>, configs: Configs) {
    && (forall i, j :: 0 <= i < j < |metas| ==> metas[i].name != metas[j].name)
    && (forall i {:trigger metas[i]} :: 0 <= i < |metas| ==>
          && metas[i].name in configs && metas[i].labels == configs[metas[i].name].labels
          && (metas[i].data.Some? ==> metas[i].data.value == configs[metas[i].name].payload))
    && (forall name :: name in configs ==> exists i :: 0 <= i < |metas| && metas[i].name == name)
  }

  class Backend {
    /* Whether a service a manifest leaves out is left running as it is. */
    const preserves: bool
    const codec: Codec
    var configs: Configs
    var networks: map<string, Network>
    var secrets: set<string>
    var stacks: map<string, Definitions>
    var clock: nat
    ghost var trace: seq<Event>
    /* The configs created, and the networks a removal failed to take away. */
    ghost var written: seq<string>
    ghost var stranded: seq<string>
    /* How often a call failed for no reason of the caller's, or a cancellation was seen. */
    ghost var mishaps: nat

    constructor (preserves: bool, codec: Codec)
      ensures this.preserves == preserves && this.codec == codec
      ensures configs == map[] && networks == map[] && stacks == map[]
      ensures trace == [] && written == [] && stranded == [] && mishaps == 0
    {
      this.preserves, this.codec := preserves, codec;
      configs, networks, secrets, stacks, clock := map[], map[], {}, map[], 0;
      trace, written, stranded, mishaps := [], [], [], 0;
    }

    /* Time passes. */
    method Elapse(atLeast: nat)
      modifies `clock
      ensures clock >= old(clock) + atLeast
    {
      var more: nat :| 0 <= more;
      clock := clock + atLeast + more;
    }

    /* The wait between two polls, which a cancellation can cut short. */
    method Sleep() returns (cancelled: bool)
      modifies `clock, `mishaps
      ensures clock >= old(clock) && (!cancelled ==> clock > old(clock))
      ensures mishaps == old(mishaps) + if cancelled then 1 else 0
    {
      cancelled := Interrupted();
      Elapse(if cancelled then 0 else 1);
    }

    /* Whether the caller has been cancelled, or a call fails. */
    method Interrupted() returns (interrupted: bool)
      modifies `mishaps
      ensures mishaps == old(mishaps) + if interrupted then 1 else 0
    {
      interrupted := *;
      if interrupted {
        mishaps := mishaps + 1;
      }
    }

    method StackServices(release: string) returns (states: seq<ServiceState>)
      modifies `clock, `trace
      ensures clock >= old(clock) && trace == old(trace) + [Polled(release, states)]
    {
      states := *;
      Elapse(0);
      trace := trace + [Polled(release, states)];
    }

    method DeployStack(release: string, m: Manifest, files: Files) returns (ok: bool)
      modifies `clock, `trace, `stacks
      ensures clock >= old(clock) && trace == old(trace) + [Handed(release, m, files, ok)]
      ensures DeployedTo(old(stacks), stacks, release, m, ok, preserves)
    {
      ok := *;
      var reached: set<string> := *;
      var lost: set<string> := *;
      var specs := Specs(m);
      var had: Definitions := if release in stacks then stacks[release] else map[];
      var renewed := if ok then specs.Keys else specs.Keys * reached;
      var left := if preserves then had.Keys else had.Keys - (lost - specs.Keys);
      stacks := stacks[release := map key | key in renewed + left :: if key in renewed then specs[key] else had[key]];
      Elapse(0);
      trace := trace + [Handed(release, m, files, ok)];
    }

    /* Creating is atomic on the name. */
    method CreateConfig(name: string, c: Config) returns (r: CreateResult)
      modifies `configs, `written, `mishaps
      ensures r == AlreadyExists ==> name in old(configs)
      ensures mishaps == old(mishaps) + if r == Refused then 1 else 0
      ensures r == Created ==>
        name !in old(configs) && configs == old(configs)[name := c] && written == old(written) + [name]
      ensures r != Created ==> configs == old(configs) && written == old(written)
    {
      var fails := Interrupted();
      if fails {
        return Refused;
      }
      if name in configs {
        return AlreadyExists;
      }
      configs := configs[name := c];
      written := written + [name];
      return Created;
    }

    method DeleteConfig(name: string) returns (ok: bool)
      modifies `configs, `mishaps
      ensures configs == if ok then old(configs) - {name} else old(configs)
      ensures mishaps == old(mishaps) + if ok then 0 else 1
    {
      var fails := Interrupted();
      ok := !fails;
      if ok {
        configs := configs - {name};
      }
    }

    method ListConfigs() returns (r: Option<seq<ConfigMeta>>)
      modifies `mishaps
      ensures r.Some? ==> Lists(r.value, configs)
      ensures mishaps == old(mishaps) + if r.None? then 1 else 0
    {
      var fails := Interrupted();
      if fails {
        return None;
      }
      var metas: seq<ConfigMeta>, left := [], configs.Keys;
      while left != {}
        invariant forall name :: name in left ==> name in configs
        invariant forall i, j :: 0 <= i < j < |metas| ==> metas[i].name != metas[j].name
        invariant forall i :: 0 <= i < |metas| ==>
          && metas[i].name in configs && metas[i].name !in left && metas[i].labels == configs[metas[i].name].labels
          && (metas[i].data.Some? ==> metas[i].data.value == configs[metas[i].name].payload)
        invariant forall name :: name in configs ==>
          name in left || exists i :: 0 <= i < |metas| && metas[i].name == name
        decreases |left|
      {
        var name :| name in left;
        var carried: bool := *;
        left := left - {name};
        ghost var was := metas;
        metas := metas
          + [ConfigMeta(name, configs[name].labels, if carried then Some(configs[name].payload) else None)];
        assert metas[|was|].name == name && forall i :: 0 <= i < |was| ==> metas[i] == was[i];
      }
      return Some(metas);
    }

    method InspectConfig(name: string) returns (r: Option<Payload>)
      modifies `mishaps
      ensures r.Some? ==> name in configs && r.value == configs[name].payload
      ensures r.Some? ==> mishaps == old(mishaps)
      ensures r.None? && name in configs ==> mishaps == old(mishaps) + 1
    {
      var fails := Interrupted();
      if fails || name !in configs {
        return None;
      }
      return Some(configs[name].payload);
    }

    method NetworkScopes() returns (r: Option<map<string, string>>)
      modifies `mishaps
      ensures r.Some? ==> r.value == map n | n in networks :: networks[n].scope
      ensures mishaps == old(mishaps) + if r.None? then 1 else 0
    {
      var fails := Interrupted();
      r := if fails then None else Some(map n | n in networks :: networks[n].scope);
    }

    method CreateOverlayNetwork(name: string, driver: string, attachable: bool) returns (ok: bool)
      modifies `networks, `mishaps
      ensures mishaps >= old(mishaps) && (!ok && name !in old(networks) ==> mishaps == old(mishaps) + 1)
      ensures ok ==>
        name !in old(networks) && networks == old(networks)[name := Network(SWARM_SCOPE, driver, attachable)]
      ensures !ok ==> networks == old(networks)
    {
      var fails := Interrupted();
      ok := !fails && name !in networks;
      if ok {
        networks := networks[name := Network(SWARM_SCOPE, driver, attachable)];
      }
    }

    /* A removal that fails strands the network. */
    method RemoveOverlayNetwork(name: string)
      modifies `networks, `stranded
      ensures || (networks == old(networks) - {name} && stranded == old(stranded))
              || (networks == old(networks) && stranded == old(stranded) + [name])
    {
      var fails: bool := *;
      if fails {
        stranded := stranded + [name];
      } else {
        networks := networks - {name};
      }
    }

    method SecretNames() returns (r: Option<set<string>>)
      modifies `mishaps
      ensures r.Some? ==> r.value == secrets
      ensures mishaps == old(mishaps) + if r.None? then 1 else 0
    {
      var fails := Interrupted();
      r := if fails then None else Some(secrets);
    }
  }
}
