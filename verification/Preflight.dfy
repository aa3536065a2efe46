/** What a deploy checks and prepares before it (charts/release.go): the networks, secrets and configs its
    manifest declares external. */
module Preflight {
  import opened Text
  import opened Manifests
  import opened Backends

  datatype NetworkRequirement = NetworkRequirement(driver: string, attachable: bool, autoCreate: bool)

  /* A chart's declared requirements; authoritative when present. */
  datatype Requirements = Requirements(
    networks: map<string, NetworkRequirement>, secrets: set<string>, configs: set<string>)

  function RestOf(m: Manifest): Rest {
    if m.Malformed? then Rest(Named([]), Named([]), Named([]), "") else m.rest
  }

  /* Nothing that was there is gone, and nothing new is there but what a removal failed to take away. */
  ghost predicate NetworksKept(before: map<string, Network>, after: map<string, Network>, failed: seq<string>) {
    && (forall n :: n in before ==> n in after && after[n] == before[n])
    && (forall n :: n in after && n !in before ==> n in failed)
  }

  /* With every removal done, the networks are exactly the ones found. */
  lemma NothingStranded(before: map<string, Network>, after: map<string, Network>)
    requires NetworksKept(before, after, [])
    ensures after == before
  {
  }

  /* The networks found, and those created, of swarm scope. */
  ghost predicate Extended(before: map<string, Network>, after: map<string, Network>, created: seq<string>) {
    && (forall n :: n in before ==> n in after && after[n] == before[n])
    && (forall n :: n in created ==> n !in before && n in after && after[n].scope == SWARM_SCOPE)
    && (forall n :: n in after && n !in before ==> n in created)
  }

  predicate Declared(req: Option<Requirements>, name: string) {
    req.None? || name in req.value.networks
  }

  predicate MayCreate(req: Option<Requirements>, name: string) {
    req.None? || (name in req.value.networks && req.value.networks[name].autoCreate)
  }

  /* How a missing network is made: as declared, or as an attachable overlay when nothing is. */
  function Declaration(req: Option<Requirements>, name: string): NetworkRequirement {
    if req.Some? && name in req.value.networks then req.value.networks[name]
    else NetworkRequirement("overlay", true, true)
  }

  function Made(req: Option<Requirements>, name: string): Network {
    Network("swarm", Declaration(req, name).driver, Declaration(req, name).attachable)
  }

  predicate Usable(networks: map<string, Network>, name: string) {
    name in networks && networks[name].scope == "swarm"
  }

  /* Whether every external network of a manifest is usable or may be made so: all declared, none of
     another scope, none missing that must not be created, and no missing one named twice. */
  ghost predicate Providable(networks: map<string, Network>, m: Manifest, req: Option<Requirements>) {
    RestOf(m).networks.Named? && ProvidableTo(networks, RestOf(m).networks.names, req, |RestOf(m).networks.names|)
      && forall n :: n in RestOf(m).networks.names ==> (req.Some? ==> n in req.value.networks)
  }

  ghost predicate ProvidableTo(networks: map<string, Network>, names: seq<string>, req: Option<Requirements>, i: nat)
    requires i <= |names|
  {
    && (forall k :: 0 <= k < i ==> ProvidableOne(networks, names[k], req))
    && (forall j, k :: 0 <= j < k < i && names[j] == names[k] ==> names[j] in networks)
  }

  ghost predicate ProvidableOne(networks: map<string, Network>, name: string, req: Option<Requirements>) {
    Usable(networks, name) || (name !in networks && MayCreate(req, name))
  }

  /* A network that is there because a manifest names it external, made as declared. */
  ghost predicate MadeBy(networks: map<string, Network>, name: string, m: Manifest, req: Option<Requirements>) {
    && RestOf(m).networks.Named? && name in RestOf(m).networks.names && MayCreate(req, name)
    && name in networks && networks[name] == Made(req, name)
  }

  /* Every network that was there is as it was, and every other was made for this manifest. */
  ghost predicate NetworksMadeFor(
    before: map<string, Network>, after: map<string, Network>, m: Manifest, req: Option<Requirements>)
  {
    && (forall n :: n in before ==> n in after && after[n] == before[n])
    && (forall n :: n in after && n !in before ==> MadeBy(after, n, m, req))
  }

  /* Created is exactly what is new, all of it made for this manifest. */
  ghost predicate CreatedFor(
    before: map<string, Network>, after: map<string, Network>, created: seq<string>, m: Manifest,
    req: Option<Requirements>)
  {
    Extended(before, after, created) && forall n :: n in created ==> MadeBy(after, n, m, req)
  }

  lemma CreatedNext(
    before: map<string, Network>, networks: map<string, Network>, created: seq<string>, m: Manifest,
    req: Option<Requirements>, name: string)
    requires CreatedFor(before, networks, created, m, req)
    requires name !in networks && MayCreate(req, name)
    requires RestOf(m).networks.Named? && name in RestOf(m).networks.names
    ensures CreatedFor(before, networks[name := Made(req, name)], created + [name], m, req)
  {
  }

  /* One more name can be provided for when it is usable, or was missing until now and may be made. */
  lemma ProvidableNext(networks: map<string, Network>, names: seq<string>, req: Option<Requirements>, i: nat)
    requires i < |names| && ProvidableTo(networks, names, req, i) && ProvidableOne(networks, names[i], req)
    requires names[i] in networks || forall j :: 0 <= j < i ==> names[j] != names[i]
    ensures ProvidableTo(networks, names, req, i + 1)
  {
  }

  lemma NothingToProvide(networks: map<string, Network>, names: seq<string>, req: Option<Requirements>)
    ensures ProvidableTo(networks, names, req, 0)
  {
  }

  /* A network that was neither usable nor made, with no mishap, cannot be provided. */
  lemma Unprovided(
    before: map<string, Network>, networks: map<string, Network>, created: seq<string>, m: Manifest,
    req: Option<Requirements>, i: nat)
    requires RestOf(m).networks.Named? && i < |RestOf(m).networks.names|
    requires CreatedFor(before, networks, created, m, req)
    requires forall n :: n in created ==> n in RestOf(m).networks.names[..i]
    requires var name := RestOf(m).networks.names[i];
             !Usable(before, name) && (name in before || !MayCreate(req, name) || name in networks)
    ensures !Providable(before, m, req)
  {
    var names := RestOf(m).networks.names;
    if ProvidableOne(before, names[i], req) {
      var j :| 0 <= j < i && names[j] == names[i];
      NotProvidable(before, m, req, i, j);
    } else {
      NotProvidable(before, m, req, i, i);
    }
  }

  lemma NotProvidable(networks: map<string, Network>, m: Manifest, req: Option<Requirements>, i: nat, j: nat)
    requires RestOf(m).networks.Named? && j <= i < |RestOf(m).networks.names|
    requires var names := RestOf(m).networks.names;
             !ProvidableOne(networks, names[i], req) || (j < i && names[j] == names[i] && names[j] !in networks)
    ensures !Providable(networks, m, req)
  {
  }

  /* Every network a manifest names external is declared, there and of swarm scope. */
  ghost predicate AllUsable(networks: map<string, Network>, m: Manifest, req: Option<Requirements>) {
    RestOf(m).networks.Named? && forall n :: n in RestOf(m).networks.names ==>
      (req.Some? ==> n in req.value.networks) && Usable(networks, n)
  }

  /* Networks a manifest names external and that may be made for it. */
  ghost predicate MayMake(m: Manifest, req: Option<Requirements>, names: set<string>) {
    forall n :: n in names ==> RestOf(m).networks.Named? && n in RestOf(m).networks.names && MayCreate(req, n)
  }

  ghost function Creation(req: Option<Requirements>, names: set<string>): map<string, Network> {
    map n | n in names :: Made(req, n)
  }

  /* The networks of a deploy that may go on: what was created for it is known, and every network its
     manifest names external can be used. */
  ghost predicate Provided(
    before: map<string, Network>, after: map<string, Network>, created: seq<string>, m: Manifest,
    req: Option<Requirements>)
  {
    CreatedFor(before, after, created, m, req) && AllUsable(after, m, req)
  }

  /* Makes sure every external network is there and of swarm scope. It reads the scopes once, goes on
     past a network it cannot provide, and says which ones it created even when it fails. */
  method EnsureExternalNetworks(b: Backend, m: Manifest, req: Option<Requirements>)
    returns (created: seq<string>, ok: bool)
    modifies b`networks, b`mishaps
    ensures b.mishaps >= old(b.mishaps)
    ensures CreatedFor(old(b.networks), b.networks, created, m, req)
    ensures ok ==> Providable(old(b.networks), m, req) && Provided(old(b.networks), b.networks, created, m, req)
    ensures !ok && b.mishaps == old(b.mishaps) ==> !Providable(old(b.networks), m, req)
  {
    if RestOf(m).networks.Conflict? {
      return [], false;
    }
    var names := RestOf(m).networks.names;
    if names == [] {
      return [], true;
    }
    if exists n :: n in names && !Declared(req, n) {
      return [], false;
    }
    var scopes := b.NetworkScopes();
    if scopes.None? {
      return [], false;
    }
    created, ok := EnsureAll(b, m, req, scopes.value);
  }

  /* One network after the other, by the scopes found before any was made. */
  method EnsureAll(b: Backend, m: Manifest, req: Option<Requirements>, found: map<string, string>)
    returns (created: seq<string>, ok: bool)
    requires RestOf(m).networks.Named? && forall n :: n in RestOf(m).networks.names ==> Declared(req, n)
    requires found == map n | n in b.networks :: b.networks[n].scope
    modifies b`networks, b`mishaps
    ensures b.mishaps >= old(b.mishaps)
    ensures CreatedFor(old(b.networks), b.networks, created, m, req)
    ensures ok ==> Providable(old(b.networks), m, req) && Provided(old(b.networks), b.networks, created, m, req)
    ensures !ok && b.mishaps == old(b.mishaps) ==> !Providable(old(b.networks), m, req)
  {
    hide ProvidableTo, MadeBy;
    var names := RestOf(m).networks.names;
    created, ok := [], true;
    NothingToProvide(b.networks, names, req);
    for i := 0 to |names|
      invariant b.mishaps >= old(b.mishaps)
      invariant CreatedFor(old(b.networks), b.networks, created, m, req)
      invariant forall n :: n in created ==> n in names[..i]
      invariant ok ==> ProvidableTo(old(b.networks), names, req, i)
      invariant ok ==> forall k :: 0 <= k < i ==> Usable(b.networks, names[k])
      invariant !ok && b.mishaps == old(b.mishaps) ==> !Providable(old(b.networks), m, req)
    {
      var name := names[i];
      assert name in names && Declared(req, name);
      var scope := if name in found then Some(found[name]) else None;
      ghost var was := b.networks;
      var made, usable := EnsureNetwork(b, name, scope, req);
      assert names[..i + 1] == names[..i] + [name];
      if made {
        CreatedNext(old(b.networks), was, created, m, req, name);
        created := created + [name];
      }
      if ok && usable {
        ProvidableNext(old(b.networks), names, req, i);
      } else if !usable && b.mishaps == old(b.mishaps) {
        Unprovided(old(b.networks), was, created, m, req, i);
      }
      ok := ok && usable;
    }
    assert names[..|names|] == names;
  }

  /* One network, by the scope it was found with: usable as it is, made, or a reason to fail. */
  method EnsureNetwork(b: Backend, name: string, scope: Option<string>, req: Option<Requirements>)
    returns (made: bool, usable: bool)
    requires Declared(req, name)
    modifies b`networks, b`mishaps
    ensures b.mishaps >= old(b.mishaps)
    ensures made ==> usable && MayCreate(req, name) && scope.None? && name !in old(b.networks)
    ensures b.networks == if made then old(b.networks)[name := Made(req, name)] else old(b.networks)
    ensures usable <==> made || scope == Some(SWARM_SCOPE)
    ensures !usable && scope.None? && MayCreate(req, name) && name !in old(b.networks) ==> b.mishaps > old(b.mishaps)
  {
    if scope == Some(SWARM_SCOPE) {
      return false, true;
    }
    if scope.Some? {
      return false, false;
    }
    if req.Some? && !req.value.networks[name].autoCreate {
      return false, false;
    }
    var wanted := if req.Some? then req.value.networks[name] else NetworkRequirement("overlay", true, true);
    made := b.CreateOverlayNetwork(name, wanted.driver, wanted.attachable);
    usable := made;
  }

  /* Takes back what was created for a deploy that failed; a removal that fails is ignored. */
  method RemoveCreated(b: Backend, created: seq<string>, ghost found: map<string, Network>)
    requires Extended(found, b.networks, created)
    modifies b`networks, b`stranded
    ensures old(b.stranded) <= b.stranded
    ensures NetworksKept(found, b.networks, b.stranded[|old(b.stranded)|..])
    ensures forall n :: n in b.networks ==> n in old(b.networks) && b.networks[n] == old(b.networks)[n]
  {
    for i := 0 to |created|
      invariant old(b.stranded) <= b.stranded
      invariant forall n :: n in b.networks ==> n in old(b.networks) && b.networks[n] == old(b.networks)[n]
      invariant forall n :: n in found ==> n in b.networks && b.networks[n] == found[n]
      invariant forall n :: n in b.networks && n !in found ==> n in created
      invariant forall k :: 0 <= k < i && created[k] in b.networks ==> created[k] in b.stranded[|old(b.stranded)|..]
    {
      ghost var failed := b.stranded[|old(b.stranded)|..];
      b.RemoveOverlayNetwork(created[i]);
      ghost var more := b.stranded[|old(b.stranded)|..];
      assert more == failed || more == failed + [created[i]];
    }
  }

  /* Taking back some of what was made for a manifest leaves only what was made for it. */
  lemma StillMadeFor(
    found: map<string, Network>, made: map<string, Network>, left: map<string, Network>, created: seq<string>,
    m: Manifest, req: Option<Requirements>)
    requires CreatedFor(found, made, created, m, req)
    requires forall n :: n in found ==> n in left && left[n] == found[n]
    requires forall n :: n in left ==> n in made && left[n] == made[n]
    ensures NetworksMadeFor(found, left, m, req)
  {
  }

  /* Every external secret and config of a manifest exists and is declared. */
  ghost predicate Present(secrets: set<string>, configs: set<string>, m: Manifest, req: Option<Requirements>) {
    && RestOf(m).secrets.Named? && RestOf(m).configs.Named?
    && (forall n :: n in RestOf(m).secrets.names ==> n in secrets && (req.Some? ==> n in req.value.secrets))
    && (forall n :: n in RestOf(m).configs.names ==> n in configs && (req.Some? ==> n in req.value.configs))
  }

  /* Checks the secrets and configs that cannot be created; it changes nothing. */
  method EnsureExternalSecretsConfigs(b: Backend, m: Manifest, req: Option<Requirements>) returns (ok: bool)
    modifies b`mishaps
    ensures b.mishaps >= old(b.mishaps)
    ensures ok ==> Present(b.secrets, b.configs.Keys, m, req)
    ensures !ok && b.mishaps == old(b.mishaps) ==> !Present(b.secrets, b.configs.Keys, m, req)
  {
    if RestOf(m).secrets.Conflict? || RestOf(m).configs.Conflict? {
      return false;
    }
    var secrets, configs := RestOf(m).secrets.names, RestOf(m).configs.names;
    if secrets == [] && configs == [] {
      return true;
    }
    var undeclared := req.Some? &&
      ((exists n :: n in secrets && n !in req.value.secrets) || (exists n :: n in configs && n !in req.value.configs));
    if undeclared {
      return false;
    }
    ok := true;
    if secrets != [] {
      var have := b.SecretNames();
      if have.None? {
        return false;
      }
      ok := forall n :: n in secrets ==> n in have.value;
    }
    if configs != [] {
      var metas := b.ListConfigs();
      if metas.None? {
        return false;
      }
      var have := ListedNames(metas.value);
      ok := ok && forall n :: n in configs ==> n in have;
    }
  }

  method ListedNames(metas: seq<ConfigMeta>) returns (names: set<string>)
    ensures forall n :: n in names <==> exists i :: 0 <= i < |metas| && metas[i].name == n
  {
    names := {};
    for i := 0 to |metas|
      invariant forall n :: n in names <==> exists k :: 0 <= k < i && metas[k].name == n
    {
      names := names + {metas[i].name};
    }
  }
}
