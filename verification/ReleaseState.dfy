/** The state the release commands share: the releases and assets of the package
    service, the definitions and defaults of the agent registry, and the calls
    that change them.  Every call takes a `fault`: when it is set the call fails
    for a reason outside this model, without effect. */
module ReleaseState {
  import opened Options

  type TenantID = string
  type AgentID = string
  type Version = string
  type PackageID = string

  datatype Status = Draft | Validated | Evaluated | Reviewed | Published | Canary | Stable | Deprecated | RolledBack

  datatype Release = Release(id: PackageID, tenant: TenantID, agent: AgentID, version: Version, status: Status,
                             createdAt: nat, publishedAt: Option<nat>, canaryPercent: int) {
    /** When the release counts as made: published, else created.  0 is Go's zero time. */
    function At(): nat {
      publishedAt.GetOr(createdAt)
    }

    predicate Of(key: AgentKey) {
      tenant == key.tenant && agent == key.agent
    }
  }

  datatype AssetStatus = Unset | Active | Disabled | Deleted

  datatype Asset = Asset(active: Version, default: Version, status: AssetStatus)

  datatype AgentKey = AgentKey(tenant: TenantID, agent: AgentID)

  datatype State = State(releases: map<PackageID, Release>, evalPass: map<PackageID, bool>,
                         assets: map<AgentKey, Asset>, definitions: set<(AgentKey, Version)>,
                         defaults: map<AgentKey, Version>)

  // ----- package service ----------------------------------------------------

  predicate CanTransition(current: Status, next: Status) {
    match next
    case Canary => current in {Published, Evaluated, Reviewed}
    case Evaluated => current in {Published, Canary, Evaluated, Reviewed}
    case Stable => current in {Evaluated, Canary}
    case RolledBack => current !in {RolledBack, Draft}
    case _ => true
  }

  function Mark(s: State, id: PackageID, status: Status, fault: bool): Option<State> {
    if fault || id !in s.releases || !CanTransition(s.releases[id].status, status) then None
    else Some(s.(releases := s.releases[id := s.releases[id].(status := status)]))
  }

  function MarkCanary(s: State, id: PackageID, percent: int, fault: bool): Option<State> {
    var marked := Mark(s, id, Canary, fault);
    if marked.None? then None
    else
      var release := marked.value.releases[id];
      var percent' := if percent > 0 then percent else release.canaryPercent;
      Some(marked.value.(releases := marked.value.releases[id := release.(canaryPercent := percent')]))
  }

  function MarkStable(s: State, id: PackageID, fault: bool): Option<State> {
    if id in s.evalPass && s.evalPass[id] then Mark(s, id, Stable, fault) else None
  }

  function MarkEvalResult(s: State, id: PackageID, passed: bool, fault: bool): Option<State> {
    if fault || id !in s.releases then None
    else if passed && s.releases[id].status != Stable then
      var marked := Mark(s, id, Evaluated, false);
      if marked.None? then None else Some(marked.value.(evalPass := s.evalPass[id := passed]))
    else Some(s.(evalPass := s.evalPass[id := passed]))
  }

  /** Publishing adds a release and registers its definition, unless the agent
      already has a release of that version. */
  function Publish(s: State, release: Release, fault: bool): Option<State> {
    if fault || (exists id :: id in s.releases && SameVersion(s.releases[id], release)) then None
    else
      Some(s.(releases := s.releases[release.id := release.(status := Published)],
              definitions := s.definitions + {(AgentKey(release.tenant, release.agent), release.version)}))
  }

  predicate SameVersion(a: Release, b: Release) {
    a.tenant == b.tenant && a.agent == b.agent && a.version == b.version
  }

  function EnsureAssetVersion(s: State, key: AgentKey, version: Version, fault: bool): Option<State> {
    if fault || (key !in s.assets && (key.tenant == "" || key.agent == "")) then None
    else
      var before := if key in s.assets then s.assets[key].status else Active;
      var status := if before == Unset || before == Deleted then Active else before;
      Some(s.(assets := s.assets[key := Asset(version, version, status)]))
  }

  /** What a failed call leaves behind: a missing asset is saved once before its pointers are, so a failure
      between the two saves (`half`) leaves an asset without versions. */
  function Unensured(s: State, key: AgentKey, half: bool): State {
    if half && key !in s.assets && key.tenant != "" && key.agent != ""
      then s.(assets := s.assets[key := Asset("", "", Active)])
    else s
  }

  /** Creating an asset, also in place of a deleted one. */
  function CreateAsset(s: State, key: AgentKey, fault: bool): Option<State> {
    if fault || key.tenant == "" || key.agent == "" || (key in s.assets && s.assets[key].status != Deleted) then None
    else Some(s.(assets := s.assets[key := Asset("", "", Active)]))
  }

  /** Patching an asset: an empty version leaves the pointer alone, any other is written unchecked.
      `Some(Unset)` stands for every text that is no status. */
  function PatchAsset(s: State, key: AgentKey, active: Version, default: Version, status: Option<AssetStatus>,
                      fault: bool): Option<State> {
    if fault || key !in s.assets || status == Some(Unset) then None
    else
      var was := s.assets[key];
      var now := Asset(if active != "" then active else was.active, if default != "" then default
        else was.default, status.GetOr(was.status));
      Some(s.(assets := s.assets[key := now]))
  }

  // ----- agent registry -----------------------------------------------------

  /** The registry knows the version for the tenant, or for every tenant. */
  predicate Defined(s: State, key: AgentKey, version: Version) {
    (key, version) in s.definitions || (AgentKey("", key.agent), version) in s.definitions
  }

  function OwnDefault(s: State, key: AgentKey): Version {
    if key in s.defaults then s.defaults[key] else ""
  }

  /** The tenant's default version, else the default shared by all tenants. */
  function DefaultVersion(s: State, key: AgentKey): Version {
    if OwnDefault(s, key) != "" then OwnDefault(s, key) else OwnDefault(s, AgentKey("", key.agent))
  }

  function SetDefault(s: State, key: AgentKey, version: Version, fault: bool): Option<State> {
    if fault || !Defined(s, key, version) then None
    else Some(s.(defaults := s.defaults[key := version]))
  }

  // ----- what a state must be -----------------------------------------------

  /** The listing holds exactly the stored releases; Go ranges over a map, so any
      order is possible. */
  ghost predicate Enumerates(listing: seq<Release>, s: State) {
    && (forall r :: r in listing ==> r.id in s.releases && s.releases[r.id] == r)
    && (forall id :: id in s.releases ==> s.releases[id] in listing)
  }

  /** Releases are stored under their own id, fully named, one per tenant, agent
      and version. */
  ghost predicate WellFormed(s: State) {
    && (forall id :: id in s.releases ==> Named(s.releases[id], id))
    && (forall id, id' :: id in s.releases && id' in s.releases && SameVersion(s.releases[id], s.releases[id']) ==>
          id == id')
  }

  predicate Named(release: Release, id: PackageID) {
    release.id == id && id != "" && release.tenant != "" && release.version != ""
  }

  /** The versions the control plane would serve by default: the asset's active and
      default versions and the registry's default. */
  function Pointers(s: State, key: AgentKey): set<Version> {
    (if key in s.assets then {s.assets[key].active, s.assets[key].default} else {}) + {DefaultVersion(s, key)} - {""}
  }

  /** Every release of the version has a status in `good`. */
  ghost predicate Settled(s: State, key: AgentKey, version: Version, good: set<Status>) {
    forall id :: id in s.releases && s.releases[id].Of(key) && s.releases[id].version == version ==>
      s.releases[id].status in good
  }

  /** Every set pointer of every tenant names a version with no release, or with one whose
      status is in `good`. */
  ghost predicate Safe(s: State, good: set<Status>) {
    forall key: AgentKey, v :: key.tenant != "" && v in Pointers(s, key) ==> Settled(s, key, v, good)
  }

  // ----- what the calls keep ------------------------------------------------

  lemma AssetMoves(s: State, key: AgentKey, version: Version, s': State)
    requires EnsureAssetVersion(s, key, version, false) == Some(s')
    ensures s'.releases == s.releases && s'.defaults == s.defaults && s'.definitions == s.definitions
            && s'.evalPass == s.evalPass
    ensures Pointers(s', key) == {version, DefaultVersion(s, key)} - {""}
    ensures forall k :: k != key ==> Pointers(s', k) == Pointers(s, k)
  {
    forall k | k != key ensures Pointers(s', k) == Pointers(s, k) {
      assert DefaultVersion(s', k) == DefaultVersion(s, k);
    }
  }

  lemma DefaultMoves(s: State, key: AgentKey, version: Version, s': State)
    requires SetDefault(s, key, version, false) == Some(s') && key.tenant != "" && version != ""
    ensures s'.releases == s.releases && s'.assets == s.assets && s'.definitions == s.definitions
            && s'.evalPass == s.evalPass
    ensures DefaultVersion(s', key) == version
    ensures forall k :: k != key ==> Pointers(s', k) == Pointers(s, k)
  {
    forall k | k != key ensures Pointers(s', k) == Pointers(s, k) {
      assert OwnDefault(s', k) == OwnDefault(s, k);
      assert OwnDefault(s', AgentKey("", k.agent)) == OwnDefault(s, AgentKey("", k.agent));
    }
  }

  lemma AssetKeepsSafe(s: State, key: AgentKey, version: Version, fault: bool, good: set<Status>)
    requires Safe(s, good) && key.tenant != "" && Settled(s, key, version, good)
    ensures var r := EnsureAssetVersion(s, key, version, fault);
            r.Some? ==> Safe(r.value, good) && r.value.releases == s.releases
  {
    var r := EnsureAssetVersion(s, key, version, fault);
    if r.Some? {
      var s' := r.value;
      AssetMoves(s, key, version, s');
      forall k: AgentKey, v | k.tenant != "" && v in Pointers(s', k) ensures Settled(s', k, v, good) {
        if k != key || v != version {
          assert v in Pointers(s, k);
        }
        assert Settled(s, k, v, good);
      }
    }
  }

  lemma DefaultKeepsSafe(s: State, key: AgentKey, version: Version, fault: bool, good: set<Status>)
    requires Safe(s, good) && key.tenant != "" && version != "" && Settled(s, key, version, good)
    ensures var r := SetDefault(s, key, version, fault);
            r.Some? ==> Safe(r.value, good) && r.value.releases == s.releases
  {
    var r := SetDefault(s, key, version, fault);
    if r.Some? {
      var s' := r.value;
      DefaultMoves(s, key, version, s');
      forall k: AgentKey, v | k.tenant != "" && v in Pointers(s', k) ensures Settled(s', k, v, good) {
        if k != key || v != version {
          assert v in Pointers(s, k);
        }
        assert Settled(s, k, v, good);
      }
    }
  }

  /** An asset whose set pointers are settled may replace another. */
  lemma AssetReplaced(s: State, key: AgentKey, asset: Asset, good: set<Status>)
    requires Safe(s, good) && key.tenant != ""
    requires forall v :: v in {asset.active, asset.default} && v != "" ==> Settled(s, key, v, good)
    ensures Safe(s.(assets := s.assets[key := asset]), good)
  {
    var s' := s.(assets := s.assets[key := asset]);
    forall k: AgentKey, v | k.tenant != "" && v in Pointers(s', k) ensures Settled(s', k, v, good) {
      assert DefaultVersion(s', k) == DefaultVersion(s, k);
      if k != key || v == DefaultVersion(s, k) { assert v in Pointers(s, k); }
      assert Settled(s, k, v, good);
    }
  }

  lemma UnensuredKeepsSafe(s: State, key: AgentKey, half: bool, good: set<Status>)
    requires Safe(s, good) && key.tenant != ""
    ensures Safe(Unensured(s, key, half), good) && Unensured(s, key, half).releases == s.releases
  {
    AssetReplaced(s, key, Asset("", "", Active), good);
  }

  /** Replacing one release by one of the same name keeps every pointer safe when the new
      status is good or nothing points at its version. */
  lemma StatusKeepsSafe(s: State, id: PackageID, release: Release, good: set<Status>)
    requires WellFormed(s) && Safe(s, good) && id in s.releases
    requires SameVersion(s.releases[id], release) && release.id == id
    requires release.status in good || release.version !in Pointers(s, AgentKey(release.tenant, release.agent))
    ensures var s' := s.(releases := s.releases[id := release]);
            WellFormed(s') && Safe(s', good) && forall k :: Pointers(s', k) == Pointers(s, k)
  {
    var s' := s.(releases := s.releases[id := release]);
    forall k ensures Pointers(s', k) == Pointers(s, k) {
      assert DefaultVersion(s', k) == DefaultVersion(s, k);
    }
    forall k: AgentKey, v | k.tenant != "" && v in Pointers(s', k) ensures Settled(s', k, v, good) {
      assert Settled(s, k, v, good);
      assert k == AgentKey(k.tenant, k.agent);
    }
  }
}
