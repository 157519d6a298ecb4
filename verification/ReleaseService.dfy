/** The package service, the agent registry and the release commands in the form the program has:
    objects updated step by step.  Each command is proved to end in the state, and with the result,
    of its function in ReleaseProtocol. */
module ReleaseService {
  import opened Options
  import opened ReleaseState
  import opened ReleaseQueries
  import opened ReleaseProtocol

  class PackageService {
    var releases: map<PackageID, Release>
    var evalPass: map<PackageID, bool>
    var assets: map<AgentKey, Asset>

    constructor ()
      ensures releases == map[] && evalPass == map[] && assets == map[]
    {
      releases, evalPass, assets := map[], map[], map[];
    }

    method MarkRelease(id: PackageID, status: Status, fault: bool) returns (ok: bool)
      modifies this`releases
      ensures ok <==> !fault && id in old(releases) && CanTransition(old(releases)[id].status, status)
      ensures releases == if ok then old(releases)[id := old(releases)[id].(status := status)] else old(releases)
    {
      if fault || id !in releases {
        return false;
      }
      var release := releases[id];
      if !CanTransition(release.status, status) {
        return false;
      }
      releases := releases[id := release.(status := status)];
      return true;
    }

    method MarkCanaryWithRule(id: PackageID, percent: int, fault: bool) returns (ok: bool)
      modifies this`releases
      ensures ok <==> !fault && id in old(releases) && CanTransition(old(releases)[id].status, Canary)
      ensures releases ==
              if ok then
                var r := old(releases)[id];
                old(releases)[id := r.(status := Canary, canaryPercent := if percent > 0 then percent
                  else r.canaryPercent)]
              else old(releases)
    {
      ok := MarkRelease(id, Canary, fault);
      if ok {
        var release := releases[id];
        if percent > 0 {
          release := release.(canaryPercent := percent);
        }
        releases := releases[id := release];
      }
    }

    method MarkStable(id: PackageID, fault: bool) returns (ok: bool)
      modifies this`releases
      ensures ok <==> && id in evalPass && evalPass[id] && !fault && id in old(releases)
                      && CanTransition(old(releases)[id].status, Stable)
      ensures releases == if ok then old(releases)[id := old(releases)[id].(status := Stable)] else old(releases)
    {
      if id !in evalPass || !evalPass[id] {
        return false;
      }
      ok := MarkRelease(id, Stable, fault);
    }

    /** The result is recorded; a pass also turns a release that is not stable "evaluated", if it may. */
    method MarkEvalResult(id: PackageID, passed: bool, fault: bool) returns (ok: bool)
      modifies this`releases, this`evalPass
      ensures ok <==>
              && !fault && id in old(releases)
              && (passed ==> old(releases)[id].status in {Published, Canary, Evaluated, Reviewed, Stable})
      ensures evalPass == if ok then old(evalPass)[id := passed] else old(evalPass)
      ensures releases ==
              if ok && passed && old(releases)[id].status != Stable
              then old(releases)[id := old(releases)[id].(status := Evaluated)]
              else old(releases)
    {
      if fault || id !in releases {
        return false;
      }
      var release := releases[id];
      if passed && release.status != Stable {
        if !CanTransition(release.status, Evaluated) {
          return false;
        }
        releases := releases[id := release.(status := Evaluated)];
      }
      evalPass := evalPass[id := passed];
      return true;
    }

    /** The release is stored as published unless the agent has one of that version; the map is searched in
        any order. */
    method PublishDraft(release: Release, fault: bool) returns (ok: bool)
      modifies this`releases
      ensures ok <==>
              && !fault
              && forall id :: id in old(releases) ==>
                   old(releases)[id].tenant != release.tenant || old(releases)[id].agent != release.agent
                   || old(releases)[id].version != release.version
      ensures releases == if ok then old(releases)[release.id := release.(status := Published)] else old(releases)
    {
      var todo := releases.Keys;
      while todo != {}
        invariant todo <= releases.Keys && releases == old(releases)
        invariant forall id :: id in releases && id !in todo ==> !SameVersion(releases[id], release)
        decreases todo
      {
        var id :| id in todo;
        if releases[id].tenant == release.tenant && releases[id].agent == release.agent
          && releases[id].version == release.version {
          return false;
        }
        todo := todo - {id};
      }
      if fault {
        return false;
      }
      releases := releases[release.id := release.(status := Published)];
      return true;
    }

    method CreateAgentAsset(key: AgentKey, fault: bool) returns (ok: bool)
      modifies this`assets
      ensures ok <==> !fault && key.tenant != "" && key.agent != ""
                      && (key in old(assets) ==> old(assets)[key].status == Deleted)
      ensures assets == if ok then old(assets)[key := Asset("", "", Active)] else old(assets)
    {
      if key.tenant == "" || key.agent == "" {
        return false;
      }
      if key in assets && assets[key].status != Deleted {
        return false;
      }
      if fault {
        return false;
      }
      assets := assets[key := Asset("", "", Active)];
      return true;
    }

    /** Versions are written as given. */
    method PatchAgentAsset(key: AgentKey, active: Version, default: Version, status: Option<AssetStatus>,
                           fault: bool) returns (ok: bool)
      modifies this`assets
      ensures ok <==> !fault && key in old(assets) && status != Some(Unset)
      ensures assets ==
              if ok then
                var was := old(assets)[key];
                old(assets)[key := Asset(if active != "" then active else was.active, if default != "" then default
                  else was.default,
                                         status.GetOr(was.status))]
              else old(assets)
    {
      if key !in assets {
        return false;
      }
      var asset := assets[key];
      if active != "" {
        asset := asset.(active := active);
      }
      if default != "" {
        asset := asset.(default := default);
      }
      if status.Some? {
        if status.value == Unset {
          return false;
        }
        asset := asset.(status := status.value);
      }
      if fault {
        return false;
      }
      assets := assets[key := asset];
      return true;
    }

    /** A missing asset is created, and so saved, first; the second save then writes the pointers. */
    method EnsureAgentAssetVersion(key: AgentKey, version: Version, fault: bool, half: bool) returns (ok: bool)
      modifies this`assets
      ensures ok <==> !fault && (key in old(assets) || (key.tenant != "" && key.agent != ""))
      ensures assets ==
              if ok then
                var before := if key in old(assets) then old(assets)[key].status else Active;
                old(assets)[key := Asset(version, version, if before == Unset || before == Deleted then Active
                  else before)]
              else if half && key !in old(assets) && key.tenant != "" && key.agent != ""
                then old(assets)[key := Asset("", "", Active)]
              else old(assets)
    {
      if key !in assets {
        if key.tenant == "" || key.agent == "" || (fault && !half) {
          return false;
        }
        assets := assets[key := Asset("", "", Active)];
      }
      if fault {
        return false;
      }
      var asset := assets[key];
      asset := asset.(active := version, default := version);
      if asset.status == Unset || asset.status == Deleted {
        asset := asset.(status := Active);
      }
      assets := assets[key := asset];
      return true;
    }
  }

  class AgentRegistry {
    var definitions: set<(AgentKey, Version)>
    var defaults: map<AgentKey, Version>

    constructor ()
      ensures definitions == {} && defaults == map[]
    {
      definitions, defaults := {}, map[];
    }

    method Register(key: AgentKey, version: Version)
      modifies this`definitions
      ensures definitions == old(definitions) + {(key, version)}
    {
      definitions := definitions + {(key, version)};
    }

    method SetDefaultForTenant(key: AgentKey, version: Version, fault: bool) returns (ok: bool)
      modifies this`defaults
      ensures ok <==> !fault && ((key, version) in definitions || (AgentKey("", key.agent), version) in definitions)
      ensures defaults == if ok then old(defaults)[key := version] else old(defaults)
    {
      if fault {
        return false;
      }
      if (key, version) !in definitions {
        if key.tenant == "" || (AgentKey("", key.agent), version) !in definitions {
          assert key.tenant == "" ==> key == AgentKey("", key.agent);
          return false;
        }
      }
      defaults := defaults[key := version];
      return true;
    }
  }

  class ReleaseCommands {
    const packages: PackageService
    const registry: AgentRegistry

    constructor (packages: PackageService, registry: AgentRegistry)
      ensures this.packages == packages && this.registry == registry
    {
      this.packages, this.registry := packages, registry;
    }

    function View(): State
      reads packages, registry
    {
      State(packages.releases, packages.evalPass, packages.assets, registry.definitions, registry.defaults)
    }

    method MarkCanary(tenant: TenantID, id: PackageID, percent: int, f: Faults) returns (ok: bool)
      modifies packages, registry
      ensures Outcome(View(), ok) == CanaryAction(old(View()), tenant, id, percent, f)
    {
      if f.gate || id !in packages.releases || packages.releases[id].tenant != tenant {
        return false;
      }
      ok := packages.MarkCanaryWithRule(id, percent, f.mark);
    }

    method MarkStable(tenant: TenantID, id: PackageID, f: Faults) returns (ok: bool)
      modifies packages, registry
      ensures Outcome(View(), ok) == StableAction(old(View()), tenant, id, f)
    {
      if f.gate || id !in packages.releases || packages.releases[id].tenant != tenant {
        return false;
      }
      ok := packages.MarkStable(id, f.mark);
      if !ok {
        return;
      }
      var release := packages.releases[id];
      ok := packages.EnsureAgentAssetVersion(AgentKey(tenant, release.agent), release.version, f.asset, f.half);
      if ok {
        ok := registry.SetDefaultForTenant(AgentKey(tenant, release.agent), release.version, f.registry);
      }
    }

    method Activate(key: AgentKey, version: Version, listing: seq<Release>, f: Faults) returns (ok: bool)
      modifies packages, registry
      ensures Outcome(View(), ok) == ActivateAction(old(View()), key, version, listing, f)
    {
      var release := LatestRelease(listing, WithVersion(key, version));
      if f.gate || release.None? || release.value.status != Stable {
        return false;
      }
      ok := packages.EnsureAgentAssetVersion(key, release.value.version, f.asset, f.half);
      if ok {
        ok := registry.SetDefaultForTenant(key, release.value.version, f.registry);
      }
    }

    method RecordEval(id: PackageID, passed: bool, f: Faults) returns (ok: bool)
      modifies packages, registry
      ensures View() == Attempt(MarkEvalResult(old(View()), id, passed, f.mark), old(View()))
      ensures ok <==> MarkEvalResult(old(View()), id, passed, f.mark).Some?
    {
      ok := packages.MarkEvalResult(id, passed, f.mark);
    }

    /** Publishing stores the release, then registers its definition. */
    method PublishAgent(release: Release, f: Faults) returns (ok: bool)
      modifies packages, registry
      ensures View() == Attempt(Publish(old(View()), release, f.mark), old(View()))
      ensures ok <==> Publish(old(View()), release, f.mark).Some?
    {
      ok := packages.PublishDraft(release, f.mark);
      if ok {
        registry.Register(AgentKey(release.tenant, release.agent), release.version);
      }
    }

    method CreateAgent(key: AgentKey, f: Faults) returns (ok: bool)
      modifies packages, registry
      ensures View() == Attempt(CreateAsset(old(View()), key, f.asset), old(View()))
      ensures ok <==> CreateAsset(old(View()), key, f.asset).Some?
    {
      ok := packages.CreateAgentAsset(key, f.asset);
    }

    method PatchAgent(key: AgentKey, active: Version, default: Version, status: Option<AssetStatus>,
                      f: Faults) returns (ok: bool)
      modifies packages, registry
      ensures View() == Attempt(PatchAsset(old(View()), key, active, default, status, f.asset), old(View()))
      ensures ok <==> PatchAsset(old(View()), key, active, default, status, f.asset).Some?
    {
      ok := packages.PatchAgentAsset(key, active, default, status, f.asset);
    }

    method Rollback(tenant: TenantID, id: PackageID, listing: seq<Release>, f: Faults) returns (ok: bool)
      modifies packages, registry
      ensures Outcome(View(), ok) == RollbackAction(old(View()), tenant, id, listing, f)
    {
      if f.gate || id !in packages.releases || packages.releases[id].tenant != tenant || f.read {
        return false;
      }
      var current := packages.releases[id];
      var key := AgentKey(tenant, current.agent);
      var wasActive := IsActive(View(), key, current.version);
      if !wasActive {
        ok := packages.MarkRelease(id, RolledBack, f.mark);
        return;
      }
      var fallback, found := FallbackStableVersion(listing, key, current.version);
      if !found || f.check || !Defined(View(), key, fallback) {
        return false;
      }
      ok := SwitchAndMark(key, id, current.version, fallback, f);
    }

    /** The part of a rollback that switches, marks and compensates. */
    method SwitchAndMark(key: AgentKey, id: PackageID, version: Version, fallback: Version,
                         f: Faults) returns (ok: bool)
      modifies packages, registry
      ensures Outcome(View(), ok) == RollbackActive(old(View()), key, id, version, fallback, f)
    {
      ghost var s := View();
      ok := packages.EnsureAgentAssetVersion(key, fallback, f.asset, f.half);
      if !ok {
        return;
      }
      assert EnsureAssetVersion(s, key, fallback, f.asset) == Some(View());
      ok := MarkSwitched(key, id, version, fallback, f);
    }

    /** The same once the asset is on the fallback. */
    method MarkSwitched(key: AgentKey, id: PackageID, version: Version, fallback: Version, f: Faults) returns (ok: bool)
      requires key in packages.assets
      modifies packages, registry
      ensures Outcome(View(), ok) == RollbackSwitched(old(View()), key, id, version, fallback, f)
    {
      ghost var s1 := View();
      ok := registry.SetDefaultForTenant(key, fallback, f.registry);
      if !ok {
        var _ := packages.EnsureAgentAssetVersion(key, version, f.undoAsset, f.half);
        return;
      }
      ghost var s2 := View();
      assert SetDefault(s1, key, fallback, f.registry) == Some(s2);
      ok := packages.MarkRelease(id, RolledBack, f.mark);
      if !ok {
        var _ := packages.EnsureAgentAssetVersion(key, version, f.undoAsset, f.half);
        assert View() == Attempt(EnsureAssetVersion(s2, key, version, f.undoAsset), s2);
        var _ := registry.SetDefaultForTenant(key, version, f.undoRegistry);
      }
    }
  }
}
