/** The release commands as a saga over `ReleaseState`: each is a row of calls any of which may
    fail, with compensations whose own failures are ignored.  Commands run one at a time. */
module ReleaseProtocol {
  import opened Options
  import opened ReleaseState
  import opened ReleaseQueries

  /** Which calls of a command fail.  `gate` stands for everything that stops a command before it
      acts: tenant, approval, release policy and plugin checks; `half` says whether a failed asset call had
      already created a missing asset. */
  datatype Faults = Faults(gate: bool, read: bool, check: bool, mark: bool, asset: bool, registry: bool,
                           undoAsset: bool, undoRegistry: bool, half: bool)

  datatype Outcome = Outcome(state: State, ok: bool)

  const RUNNABLE: set<Status> := {Canary, Stable}

  // ----- the commands -------------------------------------------------------

  function Attempt(call: Option<State>, otherwise: State): State {
    call.GetOr(otherwise)
  }

  predicate Admitted(s: State, tenant: TenantID, id: PackageID, f: Faults) {
    !f.gate && id in s.releases && s.releases[id].tenant == tenant
  }

  function CanaryAction(s: State, tenant: TenantID, id: PackageID, percent: int, f: Faults): Outcome {
    if !Admitted(s, tenant, id, f) then Outcome(s, false)
    else
      var marked := MarkCanary(s, id, percent, f.mark);
      Outcome(Attempt(marked, s), marked.Some?)
  }

  function StableAction(s: State, tenant: TenantID, id: PackageID, f: Faults): Outcome {
    if !Admitted(s, tenant, id, f) then Outcome(s, false)
    else
      var marked := MarkStable(s, id, f.mark);
      if marked.None? then Outcome(s, false)
      else
        var release := marked.value.releases[id];
        PointAt(marked.value, AgentKey(tenant, release.agent), release.version, f)
  }

  /** Move the asset, then the registry, to a version. */
  function PointAt(s: State, key: AgentKey, version: Version, f: Faults): Outcome {
    var assets := EnsureAssetVersion(s, key, version, f.asset);
    if assets.None? then Outcome(Unensured(s, key, f.half), false)
    else
      var defaults := SetDefault(assets.value, key, version, f.registry);
      Outcome(Attempt(defaults, assets.value), defaults.Some?)
  }

  function ActivateAction(s: State, key: AgentKey, version: Version, listing: seq<Release>, f: Faults): Outcome {
    var release := Latest(listing, WithVersion(key, version));
    if f.gate || release.None? || release.value.status != Stable then Outcome(s, false)
    else PointAt(s, key, release.value.version, f)
  }

  predicate IsActive(s: State, key: AgentKey, version: Version) {
    || (key in s.assets && (s.assets[key].active == version || s.assets[key].default == version))
    || DefaultVersion(s, key) == version
  }

  function RollbackAction(s: State, tenant: TenantID, id: PackageID, listing: seq<Release>, f: Faults): Outcome {
    if !Admitted(s, tenant, id, f) || f.read then Outcome(s, false)
    else
      var current := s.releases[id];
      var key := AgentKey(tenant, current.agent);
      if !IsActive(s, key, current.version) then
        var marked := Mark(s, id, RolledBack, f.mark);
        Outcome(Attempt(marked, s), marked.Some?)
      else
        var fallback := Fallback(listing, StableOtherThan(key, current.version)).0;
        if fallback == "" || f.check || !Defined(s, key, fallback) then Outcome(s, false)
        else RollbackActive(s, key, id, current.version, fallback, f)
  }

  /** The active version is rolled back: switch to the fallback first, then mark; undo what was
      switched if a later step fails. */
  function RollbackActive(s: State, key: AgentKey, id: PackageID, version: Version, fallback: Version,
                          f: Faults): Outcome {
    var assets := EnsureAssetVersion(s, key, fallback, f.asset);
    if assets.None? then Outcome(Unensured(s, key, f.half), false)
    else RollbackSwitched(assets.value, key, id, version, fallback, f)
  }

  /** The same once the asset is on the fallback. */
  function RollbackSwitched(s1: State, key: AgentKey, id: PackageID, version: Version, fallback: Version,
                            f: Faults): Outcome {
    var defaults := SetDefault(s1, key, fallback, f.registry);
    if defaults.None? then Outcome(Attempt(EnsureAssetVersion(s1, key, version, f.undoAsset), s1), false)
    else
      var s2 := defaults.value;
      var marked := Mark(s2, id, RolledBack, f.mark);
      if marked.None? then
        var s3 := Attempt(EnsureAssetVersion(s2, key, version, f.undoAsset), s2);
        Outcome(Attempt(SetDefault(s3, key, version, f.undoRegistry), s3), false)
      else Outcome(marked.value, true)
  }

  // ----- runs ---------------------------------------------------------------

  datatype Command =
    | DoCanary(tenant: TenantID, id: PackageID, percent: int)
    | DoStable(tenant: TenantID, id: PackageID)
    | DoRollback(tenant: TenantID, id: PackageID)
    | DoActivate(tenant: TenantID, agent: AgentID, version: Version)
    | DoEval(id: PackageID, passed: bool)
    | DoPublish(release: Release)
    | DoCreate(key: AgentKey)
    | DoPatch(key: AgentKey, active: Version, default: Version, status: Option<AssetStatus>)

  /** A command, the faults it meets and the order in which the release map is listed to it. */
  datatype Step = Step(command: Command, faults: Faults, listing: seq<Release>)

  function Apply(s: State, step: Step): State {
    var f := step.faults;
    match step.command
    case DoCanary(tenant, id, percent) => CanaryAction(s, tenant, id, percent, f).state
    case DoStable(tenant, id) => StableAction(s, tenant, id, f).state
    case DoRollback(tenant, id) => RollbackAction(s, tenant, id, step.listing, f).state
    case DoActivate(tenant, agent, version) => ActivateAction(s, AgentKey(tenant, agent), version, step.listing,
      f).state
    case DoEval(id, passed) => Attempt(MarkEvalResult(s, id, passed, f.mark), s)
    case DoPublish(release) => Attempt(Publish(s, release, f.mark), s)
    case DoCreate(key) => Attempt(CreateAsset(s, key, f.asset), s)
    case DoPatch(key, active, default, status) => Attempt(PatchAsset(s, key, active, default, status, f.asset), s)
  }

  /** What the environment guarantees: callers carry a tenant, package ids are fresh, published
      releases are fully named, and a listing shows the stored releases. */
  ghost predicate Possible(s: State, step: Step) {
    && Enumerates(step.listing, s)
    && match step.command
       case DoActivate(tenant, _, _) => tenant != ""
       case DoCreate(key) => key.tenant != ""
       case DoPatch(key, _, _, _) => key.tenant != ""
       case DoPublish(release) => release.id !in s.releases && Named(release, release.id)
       case _ => true
  }

  function Run(s: State, steps: seq<Step>): State
    decreases |steps|
  {
    if steps == [] then s else Run(Apply(s, steps[0]), steps[1..])
  }

  ghost predicate PossibleRun(s: State, steps: seq<Step>)
    decreases |steps|
  {
    steps == [] || (Possible(s, steps[0]) && PossibleRun(Apply(s, steps[0]), steps[1..]))
  }

  /** The commands that switch traffic, plus creating, enabling, disabling and deleting an agent: all but
      evaluation results, publishing and patches that write a version. */
  predicate Switches(c: Command) {
    match c
    case DoEval(_, _) => false
    case DoPublish(_) => false
    case DoPatch(_, active, default, _) => active == "" && default == ""
    case _ => true
  }

  // ----- safety of every step -----------------------------------------------

  lemma SettledOne(s: State, id: PackageID, key: AgentKey, good: set<Status>)
    requires WellFormed(s) && id in s.releases && s.releases[id].Of(key) && s.releases[id].status in good
    ensures Settled(s, key, s.releases[id].version, good)
  {
    forall id' | id' in s.releases && s.releases[id'].Of(key) && s.releases[id'].version == s.releases[id].version
      ensures s.releases[id'].status in good
    {
      assert SameVersion(s.releases[id'], s.releases[id]);
    }
  }

  lemma PointAtKeepsSafe(s: State, key: AgentKey, version: Version, f: Faults, good: set<Status>)
    requires WellFormed(s) && Safe(s, good) && key.tenant != "" && version != "" && Settled(s, key, version, good)
    ensures var o := PointAt(s, key, version, f);
            WellFormed(o.state) && Safe(o.state, good) && o.state.releases == s.releases
    ensures PointAt(s, key, version, f).ok ==> Pointers(PointAt(s, key, version, f).state, key) == {version}
  {
    AssetKeepsSafe(s, key, version, f.asset, good);
    UnensuredKeepsSafe(s, key, f.half, good);
    var assets := EnsureAssetVersion(s, key, version, f.asset);
    if assets.Some? {
      DefaultKeepsSafe(assets.value, key, version, f.registry, good);
    }
  }

  lemma ListedIsStored(s: State, listing: seq<Release>)
    requires WellFormed(s) && Enumerates(listing, s)
    ensures Identified(listing) && forall r :: r in listing ==> r.version != "" && r.tenant != ""
  {
    forall r | r in listing ensures r.id != "" && r.version != "" && r.tenant != "" {
      assert Named(s.releases[r.id], r.id);
    }
  }

  /** The version a rollback falls back to has a stable release and is another version. */
  lemma FallbackIsSettled(s: State, listing: seq<Release>, key: AgentKey, version: Version, good: set<Status>)
    requires WellFormed(s) && Enumerates(listing, s) && Stable in good
    ensures var fallback := Fallback(listing, StableOtherThan(key, version)).0;
            fallback != "" ==> fallback != version && Settled(s, key, fallback, good)
  {
    ListedIsStored(s, listing);
    FallbackIsLatest(listing, key, version);
    var q := StableOtherThan(key, version);
    var fallback := Fallback(listing, q).0;
    if fallback != "" {
      var r :| r in listing && Matches(q, r) && r.version == fallback;
      SettledOne(s, r.id, key, good);
    }
  }

  lemma IsActiveMeansPointed(s: State, key: AgentKey, version: Version)
    requires version != ""
    ensures IsActive(s, key, version) <==> version in Pointers(s, key)
  {
  }

  lemma RollbackSwitchedKeepsSafe(s1: State, key: AgentKey, id: PackageID, version: Version, fallback: Version,
                                  f: Faults, good: set<Status>)
    requires WellFormed(s1) && Safe(s1, good) && key.tenant != ""
    requires id in s1.releases && s1.releases[id].Of(key) && s1.releases[id].version == version
    requires version != "" && fallback != "" && fallback != version
    requires Settled(s1, key, version, good) && Settled(s1, key, fallback, good)
    requires key in s1.assets && s1.assets[key].active == s1.assets[key].default == fallback
    ensures var o := RollbackSwitched(s1, key, id, version, fallback, f);
            && WellFormed(o.state) && Safe(o.state, good)
            && (o.ok ==> o.state.releases == s1.releases[id := s1.releases[id].(status := RolledBack)]
                         && Pointers(o.state, key) == {fallback})
            && (!o.ok ==> o.state.releases == s1.releases)
  {
    DefaultKeepsSafe(s1, key, fallback, f.registry, good);
    AssetKeepsSafe(s1, key, version, f.undoAsset, good);
    var defaults := SetDefault(s1, key, fallback, f.registry);
    if defaults.Some? {
      var s2 := defaults.value;
      DefaultMoves(s1, key, fallback, s2);
      assert Pointers(s2, key) == {fallback};
      if CanTransition(s2.releases[id].status, RolledBack) {
        StatusKeepsSafe(s2, id, s2.releases[id].(status := RolledBack), good);
      }
      AssetKeepsSafe(s2, key, version, f.undoAsset, good);
      var s3 := Attempt(EnsureAssetVersion(s2, key, version, f.undoAsset), s2);
      DefaultKeepsSafe(s3, key, version, f.undoRegistry, good);
    }
  }

  lemma RollbackActiveKeepsSafe(s: State, key: AgentKey, id: PackageID, version: Version, fallback: Version, f: Faults,
                                good: set<Status>)
    requires WellFormed(s) && Safe(s, good) && key.tenant != ""
    requires id in s.releases && s.releases[id].Of(key) && s.releases[id].version == version
    requires version != "" && fallback != "" && fallback != version
    requires Settled(s, key, version, good) && Settled(s, key, fallback, good)
    ensures var o := RollbackActive(s, key, id, version, fallback, f);
            && WellFormed(o.state) && Safe(o.state, good)
            && (o.ok ==> o.state.releases == s.releases[id := s.releases[id].(status := RolledBack)]
                         && Pointers(o.state, key) == {fallback})
            && (!o.ok ==> o.state.releases == s.releases)
  {
    AssetKeepsSafe(s, key, fallback, f.asset, good);
    UnensuredKeepsSafe(s, key, f.half, good);
    var assets := EnsureAssetVersion(s, key, fallback, f.asset);
    if assets.Some? {
      RollbackSwitchedKeepsSafe(assets.value, key, id, version, fallback, f, good);
    }
  }

  lemma RollbackKeepsSafe(s: State, tenant: TenantID, id: PackageID, listing: seq<Release>, f: Faults,
                          good: set<Status>)
    requires WellFormed(s) && Safe(s, good) && Enumerates(listing, s) && Stable in good
    ensures var o := RollbackAction(s, tenant, id, listing, f);
            WellFormed(o.state) && Safe(o.state, good)
  {
    if Admitted(s, tenant, id, f) && !f.read {
      var current := s.releases[id];
      assert Named(current, id);
      var key := AgentKey(tenant, current.agent);
      IsActiveMeansPointed(s, key, current.version);
      FallbackIsSettled(s, listing, key, current.version, good);
      if !IsActive(s, key, current.version) {
        StatusKeepsSafe(s, id, current.(status := RolledBack), good);
      } else {
        var fallback := Fallback(listing, StableOtherThan(key, current.version)).0;
        if fallback != "" {
          RollbackActiveKeepsSafe(s, key, id, current.version, fallback, f, good);
        }
      }
    }
  }

  lemma CanaryKeepsSafe(s: State, tenant: TenantID, id: PackageID, percent: int, f: Faults, good: set<Status>)
    requires WellFormed(s) && Safe(s, good) && good <= RUNNABLE
    ensures var o := CanaryAction(s, tenant, id, percent, f);
            WellFormed(o.state) && Safe(o.state, good)
  {
    var o := CanaryAction(s, tenant, id, percent, f);
    if o.ok {
      var r := s.releases[id];
      assert Named(r, id);
      assert Settled(s, AgentKey(r.tenant, r.agent), r.version, good) ==> r.status in good;
      var r' := o.state.releases[id];
      StatusKeepsSafe(s, id, r', good);
      assert o.state == s.(releases := s.releases[id := r']);
    }
  }

  lemma StableKeepsSafe(s: State, tenant: TenantID, id: PackageID, f: Faults, good: set<Status>)
    requires WellFormed(s) && Safe(s, good) && Stable in good
    ensures var o := StableAction(s, tenant, id, f);
            WellFormed(o.state) && Safe(o.state, good)
  {
    if Admitted(s, tenant, id, f) && MarkStable(s, id, f.mark).Some? {
      var r := s.releases[id];
      assert Named(r, id);
      StatusKeepsSafe(s, id, r.(status := Stable), good);
      var s1 := MarkStable(s, id, f.mark).value;
      SettledOne(s1, id, AgentKey(tenant, r.agent), good);
      PointAtKeepsSafe(s1, AgentKey(tenant, r.agent), r.version, f, good);
    }
  }

  lemma ActivateKeepsSafe(s: State, key: AgentKey, version: Version, listing: seq<Release>, f: Faults,
                          good: set<Status>)
    requires WellFormed(s) && Safe(s, good) && Enumerates(listing, s) && key.tenant != "" && Stable in good
    ensures var o := ActivateAction(s, key, version, listing, f);
            WellFormed(o.state) && Safe(o.state, good)
  {
    var release := Latest(listing, WithVersion(key, version));
    ListedIsStored(s, listing);
    LatestIsMaximal(listing, WithVersion(key, version));
    if release.Some? && release.value.status == Stable {
      SettledOne(s, release.value.id, key, good);
      PointAtKeepsSafe(s, key, release.value.version, f, good);
    }
  }

  lemma CreateKeepsSafe(s: State, key: AgentKey, fault: bool, good: set<Status>)
    requires WellFormed(s) && Safe(s, good) && key.tenant != ""
    ensures var s' := Attempt(CreateAsset(s, key, fault), s);
            WellFormed(s') && Safe(s', good)
  {
    AssetReplaced(s, key, Asset("", "", Active), good);
  }

  /** A patch keeps the pointers safe exactly when every version it writes is settled. */
  lemma PatchKeepsSafeIff(s: State, key: AgentKey, active: Version, default: Version, status: Option<AssetStatus>,
                          fault: bool, good: set<Status>)
    requires WellFormed(s) && Safe(s, good) && key.tenant != ""
             && PatchAsset(s, key, active, default, status, fault).Some?
    ensures var s' := PatchAsset(s, key, active, default, status, fault).value;
            && WellFormed(s')
            && (Safe(s', good)
                <==> && (active == "" || Settled(s, key, active, good))
                     && (default == "" || Settled(s, key, default, good)))
  {
    var s' := PatchAsset(s, key, active, default, status, fault).value;
    var asset := s.assets[key];
    assert asset.active != "" ==> asset.active in Pointers(s, key);
    assert asset.default != "" ==> asset.default in Pointers(s, key);
    if (active == "" || Settled(s, key, active, good)) && (default == "" || Settled(s, key, default, good)) {
      AssetReplaced(s, key, s'.assets[key], good);
    } else {
      var v := if active != "" && !Settled(s, key, active, good) then active else default;
      assert v in Pointers(s', key) && !Settled(s', key, v, good);
    }
  }

  lemma StepKeepsSafe(s: State, step: Step, good: set<Status>)
    requires WellFormed(s) && Safe(s, good) && Possible(s, step) && Switches(step.command)
    requires Stable in good && good <= RUNNABLE
    ensures WellFormed(Apply(s, step)) && Safe(Apply(s, step), good)
  {
    match step.command
    case DoCanary(tenant, id, percent) => CanaryKeepsSafe(s, tenant, id, percent, step.faults, good);
    case DoStable(tenant, id) => StableKeepsSafe(s, tenant, id, step.faults, good);
    case DoRollback(tenant, id) => RollbackKeepsSafe(s, tenant, id, step.listing, step.faults, good);
    case DoActivate(tenant, agent, version) =>
      ActivateKeepsSafe(s, AgentKey(tenant, agent), version, step.listing, step.faults, good);
    case DoCreate(key) => CreateKeepsSafe(s, key, step.faults.asset, good);
    case DoPatch(key, active, default, status) =>
      if PatchAsset(s, key, active, default, status, step.faults.asset).Some? {
        PatchKeepsSafeIff(s, key, active, default, status, step.faults.asset, good);
      }
  }

  /** In every run of switching commands, whatever calls fail, every set pointer of every tenant
      names a version with no release or with a canary or stable one.  Prefixes of runs are runs,
      so this holds at every moment. */
  lemma {:induction false} RunKeepsPointersRunnable(s: State, steps: seq<Step>)
    requires WellFormed(s) && Safe(s, RUNNABLE) && PossibleRun(s, steps)
    requires forall step :: step in steps ==> Switches(step.command)
    ensures WellFormed(Run(s, steps)) && Safe(Run(s, steps), RUNNABLE)
    decreases |steps|
  {
    if steps != [] {
      StepKeepsSafe(s, steps[0], RUNNABLE);
      RunKeepsPointersRunnable(Apply(s, steps[0]), steps[1..]);
    }
  }
}
