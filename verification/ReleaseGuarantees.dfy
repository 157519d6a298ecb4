/** What single release commands promise beyond safety, and the commands outside the saga that can break
    it: evaluation results, publishing, and patches that write a version. */
module ReleaseGuarantees {
  import opened Options
  import opened ReleaseState
  import opened ReleaseQueries
  import opened ReleaseProtocol

  // ----- success ------------------------------------------------------------

  /** A rollback that succeeds marks exactly that release, leaves no pointer of the agent on its
      version, and, when the version was active, puts all pointers on one other stable version
      than which no other stable version is later. */
  lemma RollbackSucceeds(s: State, tenant: TenantID, id: PackageID, listing: seq<Release>, f: Faults)
    requires WellFormed(s) && Safe(s, RUNNABLE) && Enumerates(listing, s)
    requires RollbackAction(s, tenant, id, listing, f).ok
    ensures id in s.releases
    ensures var current := s.releases[id];
            var key := AgentKey(tenant, current.agent);
            var s' := RollbackAction(s, tenant, id, listing, f).state;
            && s'.releases == s.releases[id := current.(status := RolledBack)]
            && current.version !in Pointers(s', key)
            && (current.version !in Pointers(s, key) ==> s'.assets == s.assets && s'.defaults == s.defaults)
            && (current.version in Pointers(s, key) ==>
                  exists r :: r in listing && Matches(StableOtherThan(key, current.version), r) &&
                    Pointers(s', key) == {r.version}
                              && forall r' :: r' in listing && Matches(StableOtherThan(key, current.version), r') ==>
                                   r'.At() <= r.At())
  {
    var current := s.releases[id];
    var key := AgentKey(tenant, current.agent);
    assert Named(current, id);
    IsActiveMeansPointed(s, key, current.version);
    if IsActive(s, key, current.version) {
      var fallback := Fallback(listing, StableOtherThan(key, current.version)).0;
      FallbackIsSettled(s, listing, key, current.version, RUNNABLE);
      ListedIsStored(s, listing);
      FallbackIsLatest(listing, key, current.version);
      RollbackActiveKeepsSafe(s, key, id, current.version, fallback, f, RUNNABLE);
    } else {
      StatusKeepsSafe(s, id, current.(status := RolledBack), RUNNABLE);
    }
  }

  /** A stable command that succeeds leaves every pointer of the agent on its version. */
  lemma SwitchSucceeds(s: State, tenant: TenantID, id: PackageID, f: Faults)
    requires WellFormed(s) && Safe(s, RUNNABLE) && StableAction(s, tenant, id, f).ok
    ensures var s' := StableAction(s, tenant, id, f).state;
            && s'.releases == s.releases[id := s.releases[id].(status := Stable)]
            && Pointers(s', AgentKey(tenant, s.releases[id].agent)) == {s.releases[id].version}
  {
    var r := s.releases[id];
    assert Named(r, id);
    StatusKeepsSafe(s, id, r.(status := Stable), RUNNABLE);
    var s1 := MarkStable(s, id, f.mark).value;
    SettledOne(s1, id, AgentKey(tenant, r.agent), RUNNABLE);
    PointAtKeepsSafe(s1, AgentKey(tenant, r.agent), r.version, f, RUNNABLE);
  }

  /** So does an activation, which changes no release. */
  lemma ActivateSucceeds(s: State, key: AgentKey, version: Version, listing: seq<Release>, f: Faults)
    requires WellFormed(s) && Safe(s, RUNNABLE) && Enumerates(listing, s) && key.tenant != ""
    requires ActivateAction(s, key, version, listing, f).ok
    ensures var s' := ActivateAction(s, key, version, listing, f).state;
            s'.releases == s.releases && Pointers(s', key) == {version}
  {
    ListedIsStored(s, listing);
    LatestIsMaximal(listing, WithVersion(key, version));
    var release := Latest(listing, WithVersion(key, version)).value;
    SettledOne(s, release.id, key, RUNNABLE);
    PointAtKeepsSafe(s, key, version, f, RUNNABLE);
  }

  // ----- failure ------------------------------------------------------------

  /** A rollback that fails changes no release. */
  lemma FailedRollbackKeepsReleases(s: State, tenant: TenantID, id: PackageID, listing: seq<Release>, f: Faults)
    requires !RollbackAction(s, tenant, id, listing, f).ok
    ensures RollbackAction(s, tenant, id, listing, f).state.releases == s.releases
  {
  }

  /** A rollback of an active version that gets as far as switching to its fallback. */
  ghost predicate Switching(s: State, tenant: TenantID, id: PackageID, listing: seq<Release>, f: Faults) {
    && WellFormed(s) && Safe(s, RUNNABLE) && Enumerates(listing, s)
    && Admitted(s, tenant, id, f) && !f.read && !f.check && !f.asset
    && var key := AgentKey(tenant, s.releases[id].agent);
       var fallback := Fallback(listing, StableOtherThan(key, s.releases[id].version)).0;
       && IsActive(s, key, s.releases[id].version)
       && fallback != "" && Defined(s, key, fallback) && (key in s.assets || key.agent != "")
  }

  /** Both asset pointers are on the version, and the asset has a status that a switch keeps. */
  predicate AssetOn(s: State, key: AgentKey, version: Version) {
    key in s.assets && s.assets[key].active == version && s.assets[key].default == version
      && s.assets[key].status in {Active, Disabled}
  }

  /** When the registry call fails, the compensation restores the state the rollback started from exactly
      when both asset pointers were on the version being rolled back and the asset was active or disabled. */
  lemma AssetCompensationRestoresIff(s: State, tenant: TenantID, id: PackageID, listing: seq<Release>, f: Faults)
    requires Switching(s, tenant, id, listing, f) && f.registry && !f.undoAsset
    ensures var o := RollbackAction(s, tenant, id, listing, f);
            !o.ok && (o.state == s <==> AssetOn(s, AgentKey(tenant, s.releases[id].agent), s.releases[id].version))
  {
    var v := s.releases[id].version;
    assert Named(s.releases[id], id);
    var key := AgentKey(tenant, s.releases[id].agent);
    var fallback := Fallback(listing, StableOtherThan(key, v)).0;
    var s1 := EnsureAssetVersion(s, key, fallback, false).value;
    var s2 := EnsureAssetVersion(s1, key, v, false).value;
    assert RollbackAction(s, tenant, id, listing, f) == Outcome(s2, false);
    var status := s1.assets[key].status;
    assert s2 == s.(assets := s.assets[key := Asset(v, v, status)]);
    if AssetOn(s, key, v) {
      assert s2.assets == s.assets;
    } else {
      assert s2.assets[key] == Asset(v, v, status) && status in {Active, Disabled};
    }
  }

  /** Every pointer of the agent on one version; a switch keeps the status of an active or disabled asset. */
  function AllOn(s: State, key: AgentKey, v: Version): State {
    var status := if key in s.assets && s.assets[key].status == Disabled then Disabled else Active;
    s.(assets := s.assets[key := Asset(v, v, status)], defaults := s.defaults[key := v])
  }

  /** Switching to the fallback and back leaves every pointer on the version. */
  lemma SwitchedBack(s: State, key: AgentKey, id: PackageID, v: Version, fallback: Version, f: Faults)
    requires EnsureAssetVersion(s, key, fallback, false).Some? && Defined(s, key, fallback) && Defined(s, key, v)
    requires !f.registry && f.mark && !f.undoAsset && !f.undoRegistry
    ensures var s1 := EnsureAssetVersion(s, key, fallback, false).value;
            RollbackSwitched(s1, key, id, v, fallback, f) == Outcome(AllOn(s, key, v), false)
  {
    var s1 := EnsureAssetVersion(s, key, fallback, false).value;
    var s2 := SetDefault(s1, key, fallback, false).value;
    var s3 := EnsureAssetVersion(s2, key, v, false).value;
    var s4 := SetDefault(s3, key, v, false).value;
    assert s4.assets == AllOn(s, key, v).assets;
    assert s4.defaults == AllOn(s, key, v).defaults;
  }

  /** When only the mark fails, the compensations leave every pointer on the version being rolled back. */
  lemma MarkFailureState(s: State, tenant: TenantID, id: PackageID, listing: seq<Release>, f: Faults)
    requires Switching(s, tenant, id, listing, f) && !f.registry && f.mark && !f.undoAsset && !f.undoRegistry
    requires Defined(s, AgentKey(tenant, s.releases[id].agent), s.releases[id].version)
    ensures RollbackAction(s, tenant, id, listing, f)
            == Outcome(AllOn(s, AgentKey(tenant, s.releases[id].agent), s.releases[id].version), false)
  {
    var v := s.releases[id].version;
    assert Named(s.releases[id], id);
    var key := AgentKey(tenant, s.releases[id].agent);
    SwitchedBack(s, key, id, v, Fallback(listing, StableOtherThan(key, v)).0, f);
  }

  /** The compensations then restore the state the rollback started from exactly when, besides, the tenant's
      own registry default was on that version: any other pointer is overwritten for good. */
  lemma CompensationRestoresIff(s: State, tenant: TenantID, id: PackageID, listing: seq<Release>, f: Faults)
    requires Switching(s, tenant, id, listing, f) && !f.registry && f.mark && !f.undoAsset && !f.undoRegistry
    requires Defined(s, AgentKey(tenant, s.releases[id].agent), s.releases[id].version)
    ensures var key := AgentKey(tenant, s.releases[id].agent);
            var v := s.releases[id].version;
            var o := RollbackAction(s, tenant, id, listing, f);
            !o.ok && (o.state == s <==> AssetOn(s, key, v) && key in s.defaults && s.defaults[key] == v)
  {
    MarkFailureState(s, tenant, id, listing, f);
    AllOnIff(s, AgentKey(tenant, s.releases[id].agent), s.releases[id].version);
  }

  lemma AllOnIff(s: State, key: AgentKey, v: Version)
    ensures AllOn(s, key, v) == s <==> AssetOn(s, key, v) && key in s.defaults && s.defaults[key] == v
  {
    var t := AllOn(s, key, v);
    if AssetOn(s, key, v) && key in s.defaults && s.defaults[key] == v {
      assert t.assets == s.assets && t.defaults == s.defaults;
    } else {
      assert t.assets[key].active == t.assets[key].default == v && t.defaults[key] == v;
    }
  }

  // ----- what a command leaves alone ----------------------------------------

  /** The agent a command works on. */
  function Target(s: State, c: Command): AgentKey {
    match c
    case DoCanary(tenant, id, _) => AgentKey(tenant, if id in s.releases then s.releases[id].agent else "")
    case DoStable(tenant, id) => AgentKey(tenant, if id in s.releases then s.releases[id].agent else "")
    case DoRollback(tenant, id) => AgentKey(tenant, if id in s.releases then s.releases[id].agent else "")
    case DoActivate(tenant, agent, _) => AgentKey(tenant, agent)
    case DoEval(id, _) => if id in s.releases then AgentKey(s.releases[id].tenant, s.releases[id].agent)
      else AgentKey("", "")
    case DoPublish(release) => AgentKey(release.tenant, release.agent)
    case DoCreate(key) => key
    case DoPatch(key, _, _, _) => key
  }

  lemma AssetTouches(s: State, key: AgentKey, version: Version, fault: bool)
    ensures var r := EnsureAssetVersion(s, key, version, fault);
            r.Some? ==>
              && r.value.releases == s.releases && r.value.defaults == s.defaults
              && r.value.assets - {key} == s.assets - {key}
  {
  }

  lemma UnensuredTouches(s: State, key: AgentKey, half: bool)
    ensures var s' := Unensured(s, key, half);
            s'.releases == s.releases && s'.defaults == s.defaults && s'.assets - {key} == s.assets - {key}
  {
  }

  lemma DefaultTouches(s: State, key: AgentKey, version: Version, fault: bool)
    ensures var r := SetDefault(s, key, version, fault);
            r.Some? ==>
              && r.value.releases == s.releases && r.value.assets == s.assets
              && r.value.defaults - {key} == s.defaults - {key}
  {
  }

  /** Two states agree on every agent but one. */
  ghost predicate AgreeBeyond(s: State, s': State, key: AgentKey) {
    && s'.assets - {key} == s.assets - {key}
    && s'.defaults - {key} == s.defaults - {key}
    && (forall id :: id in s.releases && !s.releases[id].Of(key) ==>
          id in s'.releases && s'.releases[id] == s.releases[id])
    && (forall id :: id in s'.releases && !s'.releases[id].Of(key) ==> id in s.releases)
  }

  lemma RollbackSwitchedTouches(s: State, s1: State, key: AgentKey, id: PackageID, version: Version, fallback: Version,
                                f: Faults)
    requires id in s.releases && s.releases[id].Of(key)
    requires s1.releases == s.releases && s1.defaults == s.defaults && s1.assets - {key} == s.assets - {key}
    ensures AgreeBeyond(s, RollbackSwitched(s1, key, id, version, fallback, f).state, key)
  {
    AssetTouches(s1, key, version, f.undoAsset);
    DefaultTouches(s1, key, fallback, f.registry);
    var defaults := SetDefault(s1, key, fallback, f.registry);
    if defaults.Some? {
      var s2 := defaults.value;
      AssetTouches(s2, key, version, f.undoAsset);
      var s3 := Attempt(EnsureAssetVersion(s2, key, version, f.undoAsset), s2);
      DefaultTouches(s3, key, version, f.undoRegistry);
    }
  }

  lemma RollbackActiveTouches(s: State, key: AgentKey, id: PackageID, version: Version, fallback: Version, f: Faults)
    requires id in s.releases && s.releases[id].Of(key)
    ensures AgreeBeyond(s, RollbackActive(s, key, id, version, fallback, f).state, key)
  {
    AssetTouches(s, key, fallback, f.asset);
    UnensuredTouches(s, key, f.half);
    var assets := EnsureAssetVersion(s, key, fallback, f.asset);
    if assets.Some? { RollbackSwitchedTouches(s, assets.value, key, id, version, fallback, f); }
  }

  lemma PointAtTouches(s: State, key: AgentKey, version: Version, f: Faults)
    ensures AgreeBeyond(s, PointAt(s, key, version, f).state, key)
  {
    AssetTouches(s, key, version, f.asset);
    UnensuredTouches(s, key, f.half);
    var assets := EnsureAssetVersion(s, key, version, f.asset);
    if assets.Some? { DefaultTouches(assets.value, key, version, f.registry); }
  }

  lemma RollbackTouches(s: State, tenant: TenantID, id: PackageID, listing: seq<Release>, f: Faults)
    requires Admitted(s, tenant, id, f)
    ensures AgreeBeyond(s, RollbackAction(s, tenant, id, listing, f).state, AgentKey(tenant, s.releases[id].agent))
  {
    var current := s.releases[id];
    var key := AgentKey(tenant, current.agent);
    var fallback := Fallback(listing, StableOtherThan(key, current.version)).0;
    RollbackActiveTouches(s, key, id, current.version, fallback, f);
  }

  lemma StableTouches(s: State, tenant: TenantID, id: PackageID, f: Faults)
    requires Admitted(s, tenant, id, f)
    ensures AgreeBeyond(s, StableAction(s, tenant, id, f).state, AgentKey(tenant, s.releases[id].agent))
  {
    if MarkStable(s, id, f.mark).Some? {
      var s1 := MarkStable(s, id, f.mark).value;
      PointAtTouches(s1, AgentKey(tenant, s.releases[id].agent), s.releases[id].version, f);
    }
  }

  lemma ActivateTouches(s: State, key: AgentKey, version: Version, listing: seq<Release>, f: Faults)
    ensures AgreeBeyond(s, ActivateAction(s, key, version, listing, f).state, key)
  {
    var release := Latest(listing, WithVersion(key, version));
    if release.Some? { PointAtTouches(s, key, release.value.version, f); }
  }

  lemma CanaryTouches(s: State, tenant: TenantID, id: PackageID, percent: int, f: Faults)
    requires Admitted(s, tenant, id, f)
    ensures AgreeBeyond(s, CanaryAction(s, tenant, id, percent, f).state, AgentKey(tenant, s.releases[id].agent))
  {
  }

  lemma StatusTouches(s: State, step: Step)
    requires Possible(s, step) && (step.command.DoEval? || step.command.DoPublish?)
    ensures AgreeBeyond(s, Apply(s, step), Target(s, step.command))
  {
    var c := step.command;
    assert c.DoEval? && c.id in s.releases ==> s.releases[c.id].Of(Target(s, c));
    assert c.DoPublish? ==> c.release.Of(Target(s, c));
  }

  lemma AssetEditTouches(s: State, step: Step)
    requires step.command.DoCreate? || step.command.DoPatch?
    ensures AgreeBeyond(s, Apply(s, step), Target(s, step.command))
  {
  }

  /** Every command, failing or not, leaves the releases, asset and registry default of every
      other agent and tenant as they were. */
  lemma StepTouchesOnlyItsAgent(s: State, step: Step)
    requires Possible(s, step)
    ensures AgreeBeyond(s, Apply(s, step), Target(s, step.command))
  {
    var f := step.faults;
    match step.command
    case DoCanary(tenant, id, percent) => if Admitted(s, tenant, id, f) { CanaryTouches(s, tenant, id, percent, f); }
    case DoStable(tenant, id) => if Admitted(s, tenant, id, f) { StableTouches(s, tenant, id, f); }
    case DoRollback(tenant, id) => if Admitted(s, tenant, id, f) { RollbackTouches(s, tenant, id, step.listing, f); }
    case DoActivate(tenant, agent, version) => ActivateTouches(s, AgentKey(tenant, agent), version, step.listing, f);
    case DoCreate(key) => AssetEditTouches(s, step);
    case DoPatch(key, active, default, status) => AssetEditTouches(s, step);
    case _ => StatusTouches(s, step);
  }

  // ----- the commands outside the saga --------------------------------------

  lemma PassedEval(s: State, id: PackageID, passed: bool, fault: bool)
    requires WellFormed(s) && MarkEvalResult(s, id, passed, fault).Some?
    ensures var s' := MarkEvalResult(s, id, passed, fault).value;
            var r := s.releases[id];
            && id in s.releases && s'.assets == s.assets && s'.defaults == s.defaults
            && s'.releases == s.releases[id := r.(status := if passed && r.status != Stable then Evaluated
               else r.status)]
  {
    var r := s.releases[id];
    assert s.releases == s.releases[id := r.(status := r.status)];
  }

  lemma SamePointers(s: State, s': State)
    requires s'.assets == s.assets && s'.defaults == s.defaults
    ensures forall k :: Pointers(s', k) == Pointers(s, k)
  {
    forall k ensures Pointers(s', k) == Pointers(s, k) {
      assert DefaultVersion(s', k) == DefaultVersion(s, k);
    }
  }

  /** An evaluation result keeps the pointers safe exactly when it does not pass a canary some pointer
      names: that canary turns "evaluated" under live traffic. */
  lemma EvalKeepsSafeIff(s: State, id: PackageID, passed: bool, fault: bool, good: set<Status>)
    requires WellFormed(s) && Safe(s, good) && Stable in good && good <= RUNNABLE
             && MarkEvalResult(s, id, passed, fault).Some?
    ensures var r := s.releases[id];
            && WellFormed(MarkEvalResult(s, id, passed, fault).value)
            && (Safe(MarkEvalResult(s, id, passed, fault).value, good) <==>
                !(passed && r.status == Canary && r.version in Pointers(s, AgentKey(r.tenant, r.agent))))
  {
    PassedEval(s, id, passed, fault);
    var s' := MarkEvalResult(s, id, passed, fault).value;
    SamePointers(s, s');
    var r := s.releases[id];
    assert Named(r, id);
    var key := AgentKey(r.tenant, r.agent);
    assert r.version in Pointers(s, key) ==> Settled(s, key, r.version, good);
    if passed && r.status == Canary && r.version in Pointers(s, key) {
      assert s'.releases[id].status == Evaluated;
      assert !Settled(s', key, r.version, good);
    } else {
      StatusKeepsSafe(s, id, s'.releases[id], good);
      var s'' := s.(releases := s'.releases);
      forall k: AgentKey, v | k.tenant != "" && v in Pointers(s', k) ensures Settled(s', k, v, good) {
        assert v in Pointers(s, k) && v in Pointers(s'', k);
        assert Settled(s'', k, v, good);
      }
    }
  }

  /** Publishing keeps the pointers safe exactly when none of them names the version published. */
  lemma PublishKeepsSafeIff(s: State, release: Release, fault: bool, good: set<Status>)
    requires WellFormed(s) && Safe(s, good) && good <= RUNNABLE
    requires release.id !in s.releases && Named(release, release.id) && Publish(s, release, fault).Some?
    ensures var s' := Publish(s, release, fault).value;
            && WellFormed(s')
            && (Safe(s', good) <==> release.version !in Pointers(s, AgentKey(release.tenant, release.agent)))
  {
    var s' := Publish(s, release, fault).value;
    SamePointers(s, s');
    var key := AgentKey(release.tenant, release.agent);
    assert s'.releases[release.id].status == Published && s'.releases[release.id].Of(key);
    if release.version in Pointers(s, key) {
      assert release.version in Pointers(s', key);
      assert !Settled(s', key, release.version, good);
    } else {
      forall k: AgentKey, v | k.tenant != "" && v in Pointers(s', k) ensures Settled(s', k, v, good) {
        assert v in Pointers(s, k);
        assert Settled(s, k, v, good);
        assert k == AgentKey(k.tenant, k.agent);
      }
    }
  }

  /** What a run must not do: publish over a version some pointer names, patch a pointer to a version
      that is not settled or, where pointers may name canaries, pass the evaluation of such a canary. */
  ghost predicate Guarded(s: State, step: Step, good: set<Status>) {
    match step.command
    case DoPublish(r) => r.version !in Pointers(s, AgentKey(r.tenant, r.agent))
    case DoPatch(key, active, default, _) =>
      (active == "" || Settled(s, key, active, good)) && (default == "" || Settled(s, key, default, good))
    case DoEval(id, passed) =>
      Canary in good && passed && id in s.releases && s.releases[id].status == Canary ==>
        s.releases[id].version !in Pointers(s, AgentKey(s.releases[id].tenant, s.releases[id].agent))
    case _ => true
  }

  ghost predicate GuardedRun(s: State, steps: seq<Step>, good: set<Status>)
    decreases |steps|
  {
    steps == [] || (Guarded(s, steps[0], good) && GuardedRun(Apply(s, steps[0]), steps[1..], good))
  }

  lemma GuardedStepKeepsSafe(s: State, step: Step, good: set<Status>)
    requires WellFormed(s) && Safe(s, good) && Possible(s, step) && Guarded(s, step, good)
    requires Stable in good && good <= RUNNABLE
    ensures WellFormed(Apply(s, step)) && Safe(Apply(s, step), good)
  {
    match step.command
    case DoEval(id, passed) =>
      if MarkEvalResult(s, id, passed, step.faults.mark).Some? {
        PassedEval(s, id, passed, step.faults.mark);
        PointedIsGood(s, id, good);
        EvalKeepsSafeIff(s, id, passed, step.faults.mark, good);
      }
    case DoPublish(release) =>
      if Publish(s, release, step.faults.mark).Some? { PublishKeepsSafeIff(s, release, step.faults.mark, good); }
    case DoPatch(key, active, default, status) =>
      if PatchAsset(s, key, active, default, status, step.faults.asset).Some? {
        PatchKeepsSafeIff(s, key, active, default, status, step.faults.asset, good);
      }
    case _ => StepKeepsSafe(s, step, good);
  }

  lemma PointedIsGood(s: State, id: PackageID, good: set<Status>)
    requires WellFormed(s) && Safe(s, good) && id in s.releases
    ensures var r := s.releases[id];
            r.version in Pointers(s, AgentKey(r.tenant, r.agent)) ==> r.status in good
  {
    var r := s.releases[id];
    assert Named(r, id);
    assert r.version in Pointers(s, AgentKey(r.tenant, r.agent))
           ==> Settled(s, AgentKey(r.tenant, r.agent), r.version, good);
  }

  /** Among all modelled commands (canary, stable, rollback, activate, evaluation, publishing, creating and
      patching an asset) pointers that start on good releases stay on good ones in every guarded run. */
  lemma {:induction false} GuardedRunKeepsPointers(s: State, steps: seq<Step>, good: set<Status>)
    requires WellFormed(s) && Safe(s, good) && PossibleRun(s, steps) && GuardedRun(s, steps, good)
    requires Stable in good && good <= RUNNABLE
    ensures WellFormed(Run(s, steps)) && Safe(Run(s, steps), good)
    decreases |steps|
  {
    if steps != [] {
      GuardedStepKeepsSafe(s, steps[0], good);
      GuardedRunKeepsPointers(Apply(s, steps[0]), steps[1..], good);
    }
  }

  /** In particular on stable releases, and then evaluation results need no guard. */
  lemma RunKeepsPointersStable(s: State, steps: seq<Step>)
    requires WellFormed(s) && Safe(s, {Stable}) && PossibleRun(s, steps) && GuardedRun(s, steps, {Stable})
    ensures WellFormed(Run(s, steps)) && Safe(Run(s, steps), {Stable})
  {
    GuardedRunKeepsPointers(s, steps, {Stable});
  }

  // ----- rolled back for good -----------------------------------------------

  ghost predicate StillRolledBack(s: State, s': State, id: PackageID) {
    id in s.releases && s.releases[id].status == RolledBack ==> id in s'.releases && s'.releases[id] == s.releases[id]
  }

  lemma PointAtKeepsReleases(s: State, key: AgentKey, version: Version, f: Faults)
    ensures PointAt(s, key, version, f).state.releases == s.releases
  {
  }

  lemma RollbackKeepsRolledBack(s: State, tenant: TenantID, other: PackageID, listing: seq<Release>, f: Faults,
                                id: PackageID)
    ensures StillRolledBack(s, RollbackAction(s, tenant, other, listing, f).state, id)
  {
    if RollbackAction(s, tenant, other, listing, f).ok {
      var current := s.releases[other];
      var key := AgentKey(tenant, current.agent);
      if IsActive(s, key, current.version) {
        RollbackActiveMarksOne(s, key, other, current.version,
          Fallback(listing, StableOtherThan(key, current.version)).0, f);
      }
    } else {
      FailedRollbackKeepsReleases(s, tenant, other, listing, f);
    }
  }

  lemma RollbackActiveMarksOne(s: State, key: AgentKey, id: PackageID, version: Version, fallback: Version, f: Faults)
    ensures var o := RollbackActive(s, key, id, version, fallback, f);
            o.ok ==> id in s.releases && s.releases[id].status != RolledBack
                     && o.state.releases == s.releases[id := s.releases[id].(status := RolledBack)]
  {
  }

  lemma StatusKeepsRolledBack(s: State, step: Step, id: PackageID)
    requires Possible(s, step) && (step.command.DoCanary? || step.command.DoEval? || step.command.DoPublish?)
    ensures StillRolledBack(s, Apply(s, step), id)
  {
  }

  lemma StepKeepsRolledBack(s: State, step: Step, id: PackageID)
    requires Possible(s, step)
    ensures StillRolledBack(s, Apply(s, step), id)
  {
    var f := step.faults;
    match step.command
    case DoStable(tenant, other) =>
      if Admitted(s, tenant, other, f) && MarkStable(s, other, f.mark).Some? {
        PointAtKeepsReleases(MarkStable(s, other, f.mark).value, AgentKey(tenant, s.releases[other].agent),
          s.releases[other].version, f);
      }
    case DoRollback(tenant, other) => RollbackKeepsRolledBack(s, tenant, other, step.listing, f, id);
    case DoActivate(tenant, agent, version) => PointAtKeepsReleases(s, AgentKey(tenant, agent), version, f);
    case DoCreate(key) =>
    case DoPatch(key, active, default, status) =>
    case _ => StatusKeepsRolledBack(s, step, id);
  }

  /** No command of any kind ever revives a rolled-back release. */
  lemma {:induction false} RolledBackForGood(s: State, steps: seq<Step>, id: PackageID)
    requires PossibleRun(s, steps) && id in s.releases && s.releases[id].status == RolledBack
    ensures id in Run(s, steps).releases && Run(s, steps).releases[id] == s.releases[id]
    decreases |steps|
  {
    if steps != [] {
      StepKeepsRolledBack(s, steps[0], id);
      RolledBackForGood(Apply(s, steps[0]), steps[1..], id);
    }
  }
}
