/** Routing a run to an agent version, and what the release protocol guarantees about it. */
module Routing {
  import opened Options
  import opened ReleaseState
  import opened ReleaseQueries
  import opened ReleaseProtocol
  import ReleaseGuarantees
  import opened ReleaseService
  import opened Sorting
  import CanaryHash

  datatype Reason = Unrouted | Explicit | ActiveDefault | RegistryDefault | LatestStableFallback | CanaryPercent

  datatype Route = Route(requested: Version, resolved: Version, release: Option<Release>, canary: bool, reason: Reason,
                         assignmentKey: string)

  /** The asset exists and is neither disabled nor deleted, or there is no asset. */
  predicate AgentEnabled(s: State, key: AgentKey) {
    key.agent != "" && key in s.assets ==> s.assets[key].status in {Unset, Active}
  }

  predicate VersionRunnable(s: State, listing: seq<Release>, key: AgentKey, version: Version) {
    && AgentEnabled(s, key)
    && var v := if version == "" then DefaultVersion(s, key) else version;
       var release := Latest(listing, WithVersion(key, v));
       v == "" || release.None? || release.value.status in RUNNABLE
  }

  function AssetVersion(s: State, key: AgentKey): Version {
    if key !in s.assets then ""
    else if s.assets[key].active != "" then s.assets[key].active
    else s.assets[key].default
  }

  function WantsCanary(canary: Release, key: AgentKey, request: CanaryHash.Request): bool {
    CanaryHash.ShouldRoute(canary.tenant, key.agent, canary.id, canary.canaryPercent, request)
  }

  /** Where a request without an explicit version goes before canary assignment. */
  function BaseRoute(s: State, listing: seq<Release>, key: AgentKey): Route {
    var version := if AssetVersion(s, key) != "" then AssetVersion(s, key) else DefaultVersion(s, key);
    var stable := Latest(listing, WithStatus(key, Stable));
    if version != "" then
      Route("", version, Latest(listing, WithVersion(key, version)), false,
            if AssetVersion(s, key) != "" then ActiveDefault else RegistryDefault, "")
    else if stable.Some? then Route("", stable.value.version, stable, false, LatestStableFallback, "")
    else Route("", "", None, false, Unrouted, "")
  }

  /** The whole routing decision and whether it is accepted.  `again` is the second listing of the
      release map, made for the runnable check. */
  function Resolve(s: State, listing: seq<Release>, again: seq<Release>, key: AgentKey, requested: Version,
                   request: CanaryHash.Request): (Route, bool)
  {
    if requested != "" then
      var ok := VersionRunnable(s, again, key, requested);
      (Route(requested, requested, if ok then Latest(listing, WithVersion(key, requested)) else None, false,
             if ok then Explicit else Unrouted, ""), ok)
    else
      var based := BaseRoute(s, listing, key).(assignmentKey := CanaryHash.AssignmentKey(request));
      var canary := Latest(listing, WithStatus(key, Canary));
      var route :=
        if canary.Some? && WantsCanary(canary.value, key, request)
        then based.(resolved := canary.value.version, release := canary, canary := true, reason := CanaryPercent)
        else based;
      (route, route.resolved == "" || VersionRunnable(s, again, key, route.resolved))
  }

  method ResolveRunnableAgentTarget(commands: ReleaseCommands, listing: seq<Release>, again: seq<Release>,
                                    key: AgentKey, requested: Version,
                                    request: CanaryHash.Request) returns (route: Route, ok: bool)
    ensures (route, ok) == Resolve(commands.View(), listing, again, key, requested, request)
  {
    route := Route(requested, requested, None, false, Unrouted, "");
    if requested != "" {
      ok := VersionRunnable(commands.View(), again, key, requested);
      if ok {
        var release := LatestRelease(listing, WithVersion(key, requested));
        route := route.(release := release, reason := Explicit);
      }
      return;
    }
    var defaultVersion := "";
    if AssetVersion(commands.View(), key) != "" {
      defaultVersion := AssetVersion(commands.View(), key);
      route := route.(reason := ActiveDefault);
    } else {
      defaultVersion := DefaultVersion(commands.View(), key);
      if defaultVersion != "" {
        route := route.(reason := RegistryDefault);
      }
    }
    route := route.(resolved := defaultVersion);
    var stable := LatestRelease(listing, WithStatus(key, Stable));
    var canary := LatestRelease(listing, WithStatus(key, Canary));
    if route.resolved == "" {
      if stable.Some? {
        route := route.(resolved := stable.value.version, release := stable, reason := LatestStableFallback);
      }
    } else {
      var release := LatestRelease(listing, WithVersion(key, route.resolved));
      route := route.(release := release);
    }
    route := route.(assignmentKey := CanaryHash.AssignmentKey(request));
    if canary.Some? && WantsCanary(canary.value, key, request) {
      route := route.(resolved := canary.value.version, release := canary, canary := true, reason := CanaryPercent);
    }
    ok := route.resolved == "" || VersionRunnable(commands.View(), again, key, route.resolved);
  }

  // ----- guarantees ---------------------------------------------------------

  /** Any listing finds the one stored release of a version, or none. */
  lemma ListingFindsVersion(s: State, listing: seq<Release>, key: AgentKey, version: Version)
    requires WellFormed(s) && Enumerates(listing, s)
    ensures var found := Latest(listing, WithVersion(key, version));
            && (found.Some? ==> found.value.id in s.releases && s.releases[found.value.id] == found.value
                                && found.value.Of(key) && found.value.version == version)
            && (found.None?
               ==> forall id :: id in s.releases && s.releases[id].Of(key) ==> s.releases[id].version != version)
  {
    ListedIsStored(s, listing);
    LatestIsMaximal(listing, WithVersion(key, version));
    if Latest(listing, WithVersion(key, version)).None? {
      forall id | id in s.releases && s.releases[id].Of(key) ensures s.releases[id].version != version {
        assert s.releases[id] in listing;
        assert !Matches(WithVersion(key, version), s.releases[id]);
      }
    }
  }

  lemma ListingFindsStatus(s: State, listing: seq<Release>, key: AgentKey, status: Status)
    requires WellFormed(s) && Enumerates(listing, s)
    ensures var found := Latest(listing, WithStatus(key, status));
            found.Some? ==>
              && found.value.id in s.releases && s.releases[found.value.id] == found.value
              && found.value.Of(key) && found.value.status == status && found.value.version != ""
              && forall id :: id in s.releases && s.releases[id].Of(key) && s.releases[id].status == status
                              ==> s.releases[id].At() <= found.value.At()
  {
    ListedIsStored(s, listing);
    LatestIsMaximal(listing, WithStatus(key, status));
    var found := Latest(listing, WithStatus(key, status));
    if found.Some? {
      forall id | id in s.releases && s.releases[id].Of(key) && s.releases[id].status == status
        ensures s.releases[id].At() <= found.value.At()
      {
        assert s.releases[id] in listing && Matches(WithStatus(key, status), s.releases[id]);
      }
    }
  }

  lemma SettledIsRunnable(s: State, again: seq<Release>, key: AgentKey, version: Version)
    requires WellFormed(s) && Enumerates(again, s) && version != "" && Settled(s, key, version, RUNNABLE)
    ensures VersionRunnable(s, again, key, version) <==> AgentEnabled(s, key)
  {
    ListingFindsVersion(s, again, key, version);
  }

  /** A release of the agent that can be served by default: stable or canary, and the latest such. */
  ghost predicate LatestWith(s: State, key: AgentKey, version: Version, status: Status) {
    exists id :: id in s.releases && s.releases[id].Of(key) && s.releases[id].version == version &&
      s.releases[id].status == status
                 && forall id' :: id' in s.releases && s.releases[id'].Of(key) && s.releases[id'].status == status
                                  ==> s.releases[id'].At() <= s.releases[id].At()
  }

  /** While the pointers are safe, routing without an explicit version goes to a pointer, the latest
      stable or the latest canary release; fails exactly when it found a version and the agent is
      disabled; and reports the release of exactly that version whenever there is one. */
  lemma DefaultRouteIsSound(s: State, listing: seq<Release>, again: seq<Release>, key: AgentKey,
                            request: CanaryHash.Request)
    requires WellFormed(s) && Safe(s, RUNNABLE) && Enumerates(listing, s) && Enumerates(again, s) && key.tenant != ""
    ensures var (route, ok) := Resolve(s, listing, again, key, "", request);
            && (ok <==> route.resolved == "" || AgentEnabled(s, key))
            && (route.resolved in Pointers(s, key) || LatestWith(s, key, route.resolved, Stable)
                || LatestWith(s, key, route.resolved, Canary) || route.resolved == "")
            && (route.release.Some? ==> route.release.value.version == route.resolved && route.release.value.Of(key)
                                        && route.release.value.status in RUNNABLE)
            && (route.release.None?
               ==> forall id :: id in s.releases && s.releases[id].Of(key) ==> s.releases[id].version != route.resolved)
            && Settled(s, key, route.resolved, RUNNABLE)
  {
    ListingFindsStatus(s, listing, key, Stable);
    ListingFindsStatus(s, listing, key, Canary);
    var (route, _) := Resolve(s, listing, again, key, "", request);
    if route.reason == CanaryPercent || route.reason == LatestStableFallback {
      SettledOne(s, route.release.value.id, key, RUNNABLE);
      SettledIsRunnable(s, again, key, route.resolved);
    } else if route.resolved != "" {
      assert route.resolved in Pointers(s, key);
      ListingFindsVersion(s, listing, key, route.resolved);
      SettledIsRunnable(s, again, key, route.resolved);
    } else {
      forall id | id in s.releases && s.releases[id].Of(key) ensures s.releases[id].version != "" {
        assert Named(s.releases[id], id);
      }
    }
  }

  // ----- which version is served --------------------------------------------

  /** The stable release is the one served, and no other was published, or else made, later. */
  ghost predicate ServesStable(s: State, key: AgentKey, route: Route, id: PackageID) {
    && route.reason == LatestStableFallback && IsStableOf(s, key, id)
    && route.release == Some(s.releases[id]) && route.resolved == s.releases[id].version
    && forall id' :: IsStableOf(s, key, id') ==> MadeAt(s.releases[id']) <= MadeAt(s.releases[id])
  }

  ghost predicate IsStableOf(s: State, key: AgentKey, id: PackageID) {
    id in s.releases && s.releases[id].tenant == key.tenant && s.releases[id].agent == key.agent
      && s.releases[id].status == Stable
  }

  function MadeAt(r: Release): nat {
    if r.publishedAt.Some? then r.publishedAt.value else r.createdAt
  }

  /** A request that names no version and that no canary takes is served the first of these that is set: the
      asset's active version, its default version, the tenant's registry default, the shared registry
      default; with none set the latest stable release, if there is one. */
  lemma ServedInOrder(s: State, listing: seq<Release>, again: seq<Release>, key: AgentKey, request: CanaryHash.Request)
    requires WellFormed(s) && Enumerates(listing, s)
    ensures var (route, _) := Resolve(s, listing, again, key, "", request);
            var shared := AgentKey("", key.agent);
            !route.canary ==>
              if key in s.assets && s.assets[key].active != "" then
                route.resolved == s.assets[key].active && route.reason == ActiveDefault
              else if key in s.assets && s.assets[key].default != "" then
                route.resolved == s.assets[key].default && route.reason == ActiveDefault
              else if key in s.defaults && s.defaults[key] != "" then
                route.resolved == s.defaults[key] && route.reason == RegistryDefault
              else if shared in s.defaults && s.defaults[shared] != "" then
                route.resolved == s.defaults[shared] && route.reason == RegistryDefault
              else if exists id :: IsStableOf(s, key, id) then exists id :: ServesStable(s, key, route, id)
              else route.resolved == "" && route.reason == Unrouted
  {
    StableFound(s, listing, key);
    var found := Latest(listing, WithStatus(key, Stable));
    var route := Resolve(s, listing, again, key, "", request).0;
    assert route.reason == LatestStableFallback && !route.canary ==> ServesStable(s, key, route, found.value.id);
  }

  lemma StableFound(s: State, listing: seq<Release>, key: AgentKey)
    requires WellFormed(s) && Enumerates(listing, s)
    ensures var found := Latest(listing, WithStatus(key, Stable));
            && (found.Some? <==> exists id :: IsStableOf(s, key, id))
            && (found.Some? ==>
                  && IsStableOf(s, key, found.value.id) && s.releases[found.value.id] == found.value
                  && forall id :: IsStableOf(s, key, id) ==> MadeAt(s.releases[id]) <= MadeAt(found.value))
  {
    ListingFindsStatus(s, listing, key, Stable);
    ListedIsStored(s, listing);
    LatestIsMaximal(listing, WithStatus(key, Stable));
    var found := Latest(listing, WithStatus(key, Stable));
    forall id | IsStableOf(s, key, id) ensures found.Some? && MadeAt(s.releases[id]) <= MadeAt(found.value) {
      assert s.releases[id] in listing && Matches(WithStatus(key, Stable), s.releases[id]);
    }
  }

  /** The agent has no asset, or one that is active or says nothing. */
  predicate IsOn(s: State, key: AgentKey) {
    key.agent == "" || key !in s.assets || s.assets[key].status == Active || s.assets[key].status == Unset
  }

  /** A disabled or deleted agent serves no version, named or not; any other serves what it finds while the
      pointers are safe. */
  lemma OnlyEnabledServe(s: State, listing: seq<Release>, again: seq<Release>, key: AgentKey, requested: Version,
                         request: CanaryHash.Request)
    requires WellFormed(s) && Enumerates(listing, s) && Enumerates(again, s)
    ensures var (route, ok) := Resolve(s, listing, again, key, requested, request);
            && (!IsOn(s, key) && route.resolved != "" ==> !ok)
            && (requested == "" && Safe(s, RUNNABLE) && key.tenant != "" && IsOn(s, key) ==> ok)
  {
    if requested == "" && Safe(s, RUNNABLE) && key.tenant != "" {
      DefaultRouteIsSound(s, listing, again, key, request);
    }
  }

  /** The caller is in the canary's share, by the FNV-1a hash of tenant, agent, package and caller. */
  predicate InShare(canary: Release, key: AgentKey, caller: string) {
    || canary.canaryPercent >= 100
    || CanaryHash.Fold(0x811C9DC5,
         CanaryHash.Bytes(key.tenant + "|" + key.agent + "|" + canary.id + "|" + caller)) % 100 < canary.canaryPercent
  }

  ghost predicate IsLatestCanary(s: State, key: AgentKey, r: Release) {
    && r.id in s.releases && s.releases[r.id] == r && r.tenant == key.tenant && r.agent == key.agent
    && r.status == Canary
    && forall id :: id in s.releases && s.releases[id].Of(key) && s.releases[id].status == Canary ==>
         MadeAt(s.releases[id]) <= MadeAt(r)
  }

  /** A request is sent to a canary exactly when it names no version and the caller is in the share of the
      latest canary found; then it is served that release. */
  lemma CanaryTakesItsShare(s: State, listing: seq<Release>, again: seq<Release>, key: AgentKey, requested: Version,
                            request: CanaryHash.Request)
    requires WellFormed(s) && Enumerates(listing, s)
    ensures var (route, _) := Resolve(s, listing, again, key, requested, request);
            var caller := CanaryHash.AssignmentKey(request);
            && (route.canary ==>
                  && requested == "" && route.reason == CanaryPercent && route.release.Some?
                  && IsLatestCanary(s, key, route.release.value) && InShare(route.release.value, key, caller)
                  && route.resolved == route.release.value.version)
            && (!route.canary && requested == "" && (exists id :: id in s.releases && IsCanaryOf(s, key, id)) ==>
                  exists r :: IsLatestCanary(s, key, r) && !InShare(r, key, caller))
            && (requested == "" ==> route.assignmentKey == caller && route.requested == "")
  {
    ListingFindsStatus(s, listing, key, Canary);
    ListedIsStored(s, listing);
    LatestIsMaximal(listing, WithStatus(key, Canary));
    var found := Latest(listing, WithStatus(key, Canary));
    if found.Some? {
      assert IsLatestCanary(s, key, found.value);
      ShareIsHash(found.value, key, request);
    }
    if id :| id in s.releases && IsCanaryOf(s, key, id) {
      assert s.releases[id] in listing && Matches(WithStatus(key, Canary), s.releases[id]);
    }
  }

  predicate IsCanaryOf(s: State, key: AgentKey, id: PackageID)
    requires id in s.releases
  {
    s.releases[id].tenant == key.tenant && s.releases[id].agent == key.agent && s.releases[id].status == Canary
  }

  lemma ShareIsHash(canary: Release, key: AgentKey, request: CanaryHash.Request)
    requires canary.tenant == key.tenant
    ensures WantsCanary(canary, key, request) <==> InShare(canary, key, CanaryHash.AssignmentKey(request))
  {
  }

  // ----- the order of the listing -------------------------------------------

  /** The release is one of the agent's latest with the status. */
  ghost predicate IsLatest(s: State, key: AgentKey, status: Status, id: PackageID) {
    && id in s.releases && s.releases[id].Of(key) && s.releases[id].status == status
    && forall id' :: id' in s.releases && s.releases[id'].Of(key) && s.releases[id'].status == status ==>
         s.releases[id'].At() <= s.releases[id].At()
  }

  ghost predicate TakesRequest(s: State, key: AgentKey, request: CanaryHash.Request, id: PackageID) {
    IsLatest(s, key, Canary, id) && WantsCanary(s.releases[id], key, request)
  }

  /** Two releases are equally the latest canary, and one of them takes the request. */
  ghost predicate CanaryTorn(s: State, key: AgentKey, request: CanaryHash.Request) {
    exists id, id' :: id != id' && TakesRequest(s, key, request, id) && IsLatest(s, key, Canary, id')
  }

  /** No pointer is set, no canary takes the request, and two releases are equally the latest stable one. */
  ghost predicate StableTorn(s: State, key: AgentKey, request: CanaryHash.Request) {
    && AssetVersion(s, key) == "" && DefaultVersion(s, key) == ""
    && (forall id :: !TakesRequest(s, key, request, id))
    && exists id, id' :: id != id' && IsLatest(s, key, Stable, id) && IsLatest(s, key, Stable, id')
  }

  lemma SameVersionFound(s: State, listing: seq<Release>, listing': seq<Release>, key: AgentKey, version: Version)
    requires WellFormed(s) && Enumerates(listing, s) && Enumerates(listing', s)
    ensures Latest(listing, WithVersion(key, version)) == Latest(listing', WithVersion(key, version))
  {
    ListingFindsVersion(s, listing, key, version);
    ListingFindsVersion(s, listing', key, version);
    var a, b := Latest(listing, WithVersion(key, version)), Latest(listing', WithVersion(key, version));
    if a.Some? && b.Some? {
      assert SameVersion(s.releases[a.value.id], s.releases[b.value.id]);
    }
  }

  lemma LatestFound(s: State, listing: seq<Release>, key: AgentKey, status: Status)
    requires WellFormed(s) && Enumerates(listing, s)
    ensures var found := Latest(listing, WithStatus(key, status));
            && (found.Some? ==>
                  found.value.id in s.releases && s.releases[found.value.id] == found.value
                  && IsLatest(s, key, status, found.value.id))
            && (found.None? ==> forall id :: !IsLatest(s, key, status, id))
  {
    ListingFindsStatus(s, listing, key, status);
    ListedIsStored(s, listing);
    LatestIsMaximal(listing, WithStatus(key, status));
    if Latest(listing, WithStatus(key, status)).None? {
      forall id ensures !IsLatest(s, key, status, id) {
        if id in s.releases {
          assert s.releases[id] in listing && !Matches(WithStatus(key, status), s.releases[id]);
        }
      }
    }
  }

  /** The canary that takes the request, if any. */
  function TakingCanary(listing: seq<Release>, key: AgentKey, request: CanaryHash.Request): Option<Release> {
    var canary := Latest(listing, WithStatus(key, Canary));
    if canary.Some? && WantsCanary(canary.value, key, request) then canary else None
  }

  lemma FoundTakes(s: State, listing: seq<Release>, key: AgentKey, request: CanaryHash.Request)
    requires WellFormed(s) && Enumerates(listing, s)
    ensures var taking := TakingCanary(listing, key, request);
            taking.Some? ==>
              TakesRequest(s, key, request, taking.value.id) && s.releases[taking.value.id] == taking.value
  {
    LatestFound(s, listing, key, Canary);
  }

  lemma NotFoundTakes(s: State, listing: seq<Release>, key: AgentKey, request: CanaryHash.Request, id: PackageID)
    requires WellFormed(s) && Enumerates(listing, s) && !CanaryTorn(s, key, request)
    requires TakingCanary(listing, key, request).None?
    ensures !TakesRequest(s, key, request, id)
  {
    LatestFound(s, listing, key, Canary);
    var canary := Latest(listing, WithStatus(key, Canary));
    if canary.Some? {
      assert IsLatest(s, key, Canary, canary.value.id) && !TakesRequest(s, key, request, canary.value.id);
    } else {
      assert !IsLatest(s, key, Canary, id);
    }
  }

  lemma SameCanaryTakes(s: State, listing: seq<Release>, listing': seq<Release>, key: AgentKey,
                        request: CanaryHash.Request)
    requires WellFormed(s) && Enumerates(listing, s) && Enumerates(listing', s) && !CanaryTorn(s, key, request)
    ensures TakingCanary(listing, key, request) == TakingCanary(listing', key, request)
  {
    FoundTakes(s, listing, key, request);
    FoundTakes(s, listing', key, request);
    var taking, taking' := TakingCanary(listing, key, request), TakingCanary(listing', key, request);
    if taking.None? && taking'.Some? {
      NotFoundTakes(s, listing, key, request, taking'.value.id);
    } else if taking.Some? && taking'.None? {
      NotFoundTakes(s, listing', key, request, taking.value.id);
    }
  }

  lemma SameBase(s: State, listing: seq<Release>, listing': seq<Release>, key: AgentKey, request: CanaryHash.Request)
    requires WellFormed(s) && Enumerates(listing, s) && Enumerates(listing', s)
    requires !StableTorn(s, key, request) && forall id :: !TakesRequest(s, key, request, id)
    ensures BaseRoute(s, listing, key) == BaseRoute(s, listing', key)
  {
    var version := if AssetVersion(s, key) != "" then AssetVersion(s, key) else DefaultVersion(s, key);
    SameVersionFound(s, listing, listing', key, version);
    LatestFound(s, listing, key, Stable);
    LatestFound(s, listing', key, Stable);
  }

  /** Routing does not depend on the order in which the release map is listed when nothing it reads from
      the list is torn. */
  lemma RouteForgetsListing(s: State, listing: seq<Release>, again: seq<Release>, listing': seq<Release>,
                            again': seq<Release>, key: AgentKey, requested: Version, request: CanaryHash.Request)
    requires WellFormed(s)
    requires Enumerates(listing, s) && Enumerates(again, s) && Enumerates(listing', s) && Enumerates(again', s)
    requires requested == "" ==> !CanaryTorn(s, key, request) && !StableTorn(s, key, request)
    ensures Resolve(s, listing, again, key, requested, request) == Resolve(s, listing', again', key, requested, request)
  {
    if requested != "" {
      SameVersionFound(s, listing, listing', key, requested);
      SameVersionFound(s, again, again', key, requested);
    } else {
      SameCanaryTakes(s, listing, listing', key, request);
      if TakingCanary(listing, key, request).None? {
        forall id ensures !TakesRequest(s, key, request, id) {
          NotFoundTakes(s, listing, key, request, id);
        }
        SameBase(s, listing, listing', key, request);
      }
      var route := Resolve(s, listing, again, key, "", request).0;
      SameVersionFound(s, again, again', key, route.resolved);
    }
  }

  lemma {:induction false} LatestHead(listing: seq<Release>, q: Query)
    requires Identified(listing) && listing != [] && Matches(q, listing[0])
    requires forall r :: r in listing && Matches(q, r) ==> r.At() <= listing[0].At()
    ensures Latest(listing, q) == Some(listing[0])
    decreases |listing|
  {
    if |listing| > 1 {
      LatestHead(listing[..|listing| - 1], q);
    }
  }

  /** The releases can be listed from any one of them on. */
  lemma ListingFrom(s: State, first: PackageID) returns (listing: seq<Release>)
    requires WellFormed(s) && first in s.releases
    ensures Enumerates(listing, s) && NoRepeats(listing) && listing != [] && listing[0] == s.releases[first]
  {
    var ids := Enumerate(s.releases.Keys - {first});
    var order := [first] + ids;
    forall id ensures id in order <==> id in s.releases {
      assert id == first || (id in ids <==> id in s.releases.Keys - {first});
    }
    listing := seq(|order|, i requires 0 <= i < |order| => s.releases[order[i]]);
    forall r | r in listing ensures r.id in s.releases && s.releases[r.id] == r {
      var i :| 0 <= i < |listing| && listing[i] == r;
      assert order[i] in s.releases && Named(s.releases[order[i]], order[i]);
    }
    forall id | id in s.releases ensures s.releases[id] in listing {
      assert id in order;
      var i :| 0 <= i < |order| && order[i] == id;
      assert listing[i] == s.releases[id];
    }
    forall i, j | 0 <= i < j < |listing| ensures listing[i] != listing[j] {
      assert order[i] in s.releases && order[j] in s.releases && order[i] != order[j];
      assert Named(s.releases[order[i]], order[i]) && Named(s.releases[order[j]], order[j]);
    }
  }

  /** Each of the latest releases with a status is the one found in some listing. */
  lemma LatestCanBe(s: State, key: AgentKey, status: Status, id: PackageID) returns (listing: seq<Release>)
    requires WellFormed(s) && IsLatest(s, key, status, id)
    ensures Enumerates(listing, s) && NoRepeats(listing)
    ensures Latest(listing, WithStatus(key, status)) == Some(s.releases[id])
  {
    listing := ListingFrom(s, id);
    ListedIsStored(s, listing);
    LatestHead(listing, WithStatus(key, status));
  }

  /** Two ways to list the releases, each of them once, lead to two different routes. */
  ghost predicate RoutesDiffer(s: State, key: AgentKey, requested: Version, request: CanaryHash.Request) {
    exists listing, listing' ::
      && Enumerates(listing, s) && NoRepeats(listing) && Enumerates(listing', s) && NoRepeats(listing')
      && Resolve(s, listing, listing, key, requested, request)
         != Resolve(s, listing', listing', key, requested, request)
  }

  lemma TornCanaryDiffers(s: State, key: AgentKey, request: CanaryHash.Request)
    requires WellFormed(s) && CanaryTorn(s, key, request)
    ensures RoutesDiffer(s, key, "", request)
  {
    var id, id' :| id != id' && TakesRequest(s, key, request, id) && IsLatest(s, key, Canary, id');
    var listing := LatestCanBe(s, key, Canary, id);
    var listing' := LatestCanBe(s, key, Canary, id');
    assert Named(s.releases[id], id) && Named(s.releases[id'], id');
    var route := Resolve(s, listing, listing, key, "", request).0;
    var route' := Resolve(s, listing', listing', key, "", request).0;
    assert route.canary && route.release == Some(s.releases[id]);
    assert route'.canary ==> route'.release == Some(s.releases[id']);
  }

  lemma TornStableDiffers(s: State, key: AgentKey, request: CanaryHash.Request)
    requires WellFormed(s) && StableTorn(s, key, request)
    ensures RoutesDiffer(s, key, "", request)
  {
    var id, id' :| id != id' && IsLatest(s, key, Stable, id) && IsLatest(s, key, Stable, id');
    var listing := LatestCanBe(s, key, Stable, id);
    var listing' := LatestCanBe(s, key, Stable, id');
    assert Named(s.releases[id], id) && Named(s.releases[id'], id');
    FoundTakes(s, listing, key, request);
    FoundTakes(s, listing', key, request);
    StableShows(s, listing, key, request, s.releases[id]);
    StableShows(s, listing', key, request, s.releases[id']);
  }

  lemma StableShows(s: State, listing: seq<Release>, key: AgentKey, request: CanaryHash.Request, stable: Release)
    requires AssetVersion(s, key) == "" && DefaultVersion(s, key) == ""
    requires TakingCanary(listing, key, request).None? && Latest(listing, WithStatus(key, Stable)) == Some(stable)
    ensures Resolve(s, listing, listing, key, "", request).0.release == Some(stable)
  {
  }

  /** The order in which the release map is listed shows in the route exactly when the request names no
      version and two releases tie as the latest canary, one of which takes it, or, with no pointer set and
      no canary taking it, as the latest stable release. */
  lemma RoutesDifferIff(s: State, key: AgentKey, requested: Version, request: CanaryHash.Request)
    requires WellFormed(s)
    ensures RoutesDiffer(s, key, requested, request)
            <==> requested == "" && (CanaryTorn(s, key, request) || StableTorn(s, key, request))
  {
    if requested == "" && CanaryTorn(s, key, request) {
      TornCanaryDiffers(s, key, request);
    } else if requested == "" && StableTorn(s, key, request) {
      TornStableDiffers(s, key, request);
    } else {
      forall listing, listing' | Enumerates(listing, s) && Enumerates(listing', s)
        ensures Resolve(s, listing, listing, key, requested, request)
                == Resolve(s, listing', listing', key, requested, request)
      {
        RouteForgetsListing(s, listing, listing, listing', listing', key, requested, request);
      }
    }
  }

  /** Release `id` is a canary for everybody. */
  function FullCanary(id: PackageID): Release {
    Release(id, "t", "g", id, Canary, 1, None, 100)
  }

  const TWO_CANARIES := State(map["1" := FullCanary("1"), "2" := FullCanary("2")], map[], map[], {}, map[])

  /** Two canaries for everybody, made at the same time: the listing decides every request. */
  lemma TwoCanariesTie(request: CanaryHash.Request)
    ensures WellFormed(TWO_CANARIES) && RoutesDiffer(TWO_CANARIES, AgentKey("t", "g"), "", request)
  {
    var key := AgentKey("t", "g");
    assert TakesRequest(TWO_CANARIES, key, request, "1") && IsLatest(TWO_CANARIES, key, Canary, "2");
    RoutesDifferIff(TWO_CANARIES, key, "", request);
  }

  /** Once a release is rolled back, no later routing without an explicit version ever resolves to its
      version: not after any guarded run of all commands, for any request, whatever fails. */
  lemma RolledBackIsNeverServed(s: State, steps: seq<Step>, id: PackageID, listing: seq<Release>, again: seq<Release>,
                                request: CanaryHash.Request)
    requires WellFormed(s) && Safe(s, RUNNABLE) && PossibleRun(s, steps)
    requires ReleaseGuarantees.GuardedRun(s, steps, RUNNABLE)
    requires id in s.releases && s.releases[id].status == RolledBack
    requires Enumerates(listing, Run(s, steps)) && Enumerates(again, Run(s, steps))
    ensures var r := s.releases[id];
            Resolve(Run(s, steps), listing, again, AgentKey(r.tenant, r.agent), "", request).0.resolved != r.version
  {
    var r := s.releases[id];
    assert Named(r, id);
    var end := Run(s, steps);
    var key := AgentKey(r.tenant, r.agent);
    ReleaseGuarantees.GuardedRunKeepsPointers(s, steps, RUNNABLE);
    ReleaseGuarantees.RolledBackForGood(s, steps, id);
    DefaultRouteIsSound(end, listing, again, key, request);
    assert end.releases[id].Of(key) && end.releases[id].status !in RUNNABLE;
    assert !Settled(end, key, r.version, RUNNABLE);
  }

  /** While all pointers agree on one version, every request that the canary does not take goes there. */
  lemma OnePointerIsServed(s: State, listing: seq<Release>, again: seq<Release>, key: AgentKey, version: Version,
                           request: CanaryHash.Request)
    requires Pointers(s, key) == {version}
    ensures var (route, _) := Resolve(s, listing, again, key, "", request);
            !route.canary ==> route.resolved == version
  {
    var route := BaseRoute(s, listing, key);
    assert AssetVersion(s, key) != "" ==> AssetVersion(s, key) in Pointers(s, key);
    assert DefaultVersion(s, key) != "" ==> DefaultVersion(s, key) in Pointers(s, key);
    assert version in Pointers(s, key);
    assert route.resolved == version;
  }

  /** After a stable command that succeeded, whatever is not a canary request is served its version. */
  lemma RouteFollowsSwitch(s: State, tenant: TenantID, id: PackageID, f: Faults, listing: seq<Release>,
                           again: seq<Release>, request: CanaryHash.Request)
    requires WellFormed(s) && Safe(s, RUNNABLE) && StableAction(s, tenant, id, f).ok
    ensures var s' := StableAction(s, tenant, id, f).state;
            var (route, _) := Resolve(s', listing, again, AgentKey(tenant, s.releases[id].agent), "", request);
            !route.canary ==> route.resolved == s.releases[id].version
  {
    ReleaseGuarantees.SwitchSucceeds(s, tenant, id, f);
    var s' := StableAction(s, tenant, id, f).state;
    OnePointerIsServed(s', listing, again, AgentKey(tenant, s.releases[id].agent), s.releases[id].version, request);
  }

  /** After a successful rollback of an active version whatever is not a canary request is served one
      other version, stable before, than which no other stable one is later. */
  lemma RouteFollowsRollback(s: State, tenant: TenantID, id: PackageID, seen: seq<Release>, f: Faults,
                             listing: seq<Release>, again: seq<Release>, request: CanaryHash.Request)
    requires WellFormed(s) && Safe(s, RUNNABLE) && Enumerates(seen, s) && RollbackAction(s, tenant, id, seen, f).ok
    requires s.releases[id].version in Pointers(s, AgentKey(tenant, s.releases[id].agent))
    ensures var key := AgentKey(tenant, s.releases[id].agent);
            var (route, _) := Resolve(RollbackAction(s, tenant, id, seen, f).state, listing, again, key, "", request);
            !route.canary ==>
              exists r :: r in seen && Matches(StableOtherThan(key, s.releases[id].version), r) &&
                route.resolved == r.version
                          && forall r' :: r' in seen && Matches(StableOtherThan(key, s.releases[id].version), r') ==>
                               r'.At() <= r.At()
  {
    var key := AgentKey(tenant, s.releases[id].agent);
    var s' := RollbackAction(s, tenant, id, seen, f).state;
    ReleaseGuarantees.RollbackSucceeds(s, tenant, id, seen, f);
    var r :| r in seen && Matches(StableOtherThan(key, s.releases[id].version), r) && Pointers(s', key) == {r.version}
             && forall r' :: r' in seen && Matches(StableOtherThan(key, s.releases[id].version), r') ==>
                  r'.At() <= r.At();
    OnePointerIsServed(s', listing, again, key, r.version, request);
  }

  /** An explicit version is reported with its release, if there is one, and without a canary or a caller. */
  lemma ExplicitRouteShows(s: State, listing: seq<Release>, again: seq<Release>, key: AgentKey, version: Version,
                           request: CanaryHash.Request, id: PackageID)
    requires WellFormed(s) && Enumerates(listing, s) && Enumerates(again, s) && version != ""
    ensures var (route, ok) := Resolve(s, listing, again, key, version, request);
            && route.requested == route.resolved == version && !route.canary && route.assignmentKey == ""
            && route.reason == (if ok then Explicit else Unrouted)
            && (ok && id in s.releases && s.releases[id].Of(key) && s.releases[id].version == version ==>
                  route.release == Some(s.releases[id]))
            && (!ok ==> route.release == None)
  {
    ListingFindsVersion(s, listing, key, version);
    var found := Latest(listing, WithVersion(key, version));
    assert found.Some? && id in s.releases && s.releases[id].Of(key) && s.releases[id].version == version
           ==> SameVersion(s.releases[id], s.releases[found.value.id]);
  }

  /** An explicit version is accepted exactly when the agent is enabled and the version has no
      release or a canary or stable one. */
  lemma ExplicitRouteIsExact(s: State, listing: seq<Release>, again: seq<Release>, key: AgentKey, version: Version,
                             request: CanaryHash.Request)
    requires WellFormed(s) && Enumerates(listing, s) && Enumerates(again, s) && version != ""
    ensures var (route, ok) := Resolve(s, listing, again, key, version, request);
            && (ok <==> AgentEnabled(s, key) && Settled(s, key, version, RUNNABLE))
            && route.resolved == version && !route.canary
            && (route.release.Some? ==> route.release.value.version == version)
  {
    ListingFindsVersion(s, listing, key, version);
    ListingFindsVersion(s, again, key, version);
    var found := Latest(again, WithVersion(key, version));
    if found.Some? && found.value.status in RUNNABLE {
      SettledOne(s, found.value.id, key, RUNNABLE);
    }
  }
}
