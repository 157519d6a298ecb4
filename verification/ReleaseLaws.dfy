/** When the release commands succeed, said of the steps of a run and the fields of the state. */
module ReleaseLaws {
  import opened Options
  import opened ReleaseState
  import opened ReleaseQueries
  import opened ReleaseProtocol
  import opened ReleaseGuarantees

  // ----- what no step undoes ------------------------------------------------

  /** Releases keep their names and definitions stay known; only publishing adds any. */
  ghost predicate Continues(s: State, s': State) {
    && (forall id :: id in s.releases ==> id in s'.releases && SameVersion(s.releases[id], s'.releases[id]))
    && s.definitions <= s'.definitions
    && (forall id :: id in s'.releases && id !in s.releases ==> IsDefined(s', id))
  }

  /** The registry knows the version of the release. */
  predicate IsDefined(s: State, id: PackageID)
    requires id in s.releases
  {
    var r := s.releases[id];
    (AgentKey(r.tenant, r.agent), r.version) in s.definitions
  }

  /** Nothing but pointers changed, and at most the status of one release. */
  ghost predicate OnlyMarks(s: State, s': State, id: PackageID) {
    && s'.definitions == s.definitions && s'.evalPass == s.evalPass
    && (s'.releases == s.releases
        || (id in s.releases && s'.releases == s.releases[id := s.releases[id].(status := RolledBack)]))
  }

  lemma OnlyPoints(s: State, key: AgentKey, version: Version, fault: bool)
    ensures var a := Attempt(EnsureAssetVersion(s, key, version, fault), s);
            a.releases == s.releases && a.definitions == s.definitions && a.evalPass == s.evalPass
    ensures var d := Attempt(SetDefault(s, key, version, fault), s);
            d.releases == s.releases && d.definitions == s.definitions && d.evalPass == s.evalPass
  {
  }

  lemma PointAtOnlyPoints(s: State, key: AgentKey, version: Version, f: Faults)
    ensures var s' := PointAt(s, key, version, f).state;
            s'.releases == s.releases && s'.definitions == s.definitions && s'.evalPass == s.evalPass
  {
  }

  lemma StableContinues(s: State, tenant: TenantID, id: PackageID, f: Faults)
    ensures var s' := StableAction(s, tenant, id, f).state;
            Continues(s, s') && s'.evalPass == s.evalPass
  {
    if Admitted(s, tenant, id, f) && MarkStable(s, id, f.mark).Some? {
      PointAtOnlyPoints(MarkStable(s, id, f.mark).value, AgentKey(tenant, s.releases[id].agent),
        s.releases[id].version, f);
    }
  }

  lemma ReleaseContinues(s: State, step: Step)
    requires step.command.DoCanary? || step.command.DoEval?
    ensures Continues(s, Apply(s, step)) && (step.command.DoCanary? ==> Apply(s, step).evalPass == s.evalPass)
  {
  }

  lemma RollbackContinues(s: State, tenant: TenantID, id: PackageID, listing: seq<Release>, f: Faults)
    ensures OnlyMarks(s, RollbackAction(s, tenant, id, listing, f).state, id)
  {
    if Admitted(s, tenant, id, f) && !f.read {
      var current := s.releases[id];
      var key := AgentKey(tenant, current.agent);
      var fallback := Fallback(listing, StableOtherThan(key, current.version)).0;
      RollbackActiveContinues(s, key, id, current.version, fallback, f);
    }
  }

  lemma RollbackActiveContinues(s: State, key: AgentKey, id: PackageID, version: Version, fallback: Version, f: Faults)
    ensures OnlyMarks(s, RollbackActive(s, key, id, version, fallback, f).state, id)
  {
    var assets := EnsureAssetVersion(s, key, fallback, f.asset);
    if assets.Some? { RollbackSwitchedContinues(assets.value, key, id, version, fallback, f); }
  }

  lemma RollbackSwitchedContinues(s: State, key: AgentKey, id: PackageID, version: Version, fallback: Version,
                                  f: Faults)
    ensures OnlyMarks(s, RollbackSwitched(s, key, id, version, fallback, f).state, id)
  {
    OnlyPoints(s, key, version, f.undoAsset);
    OnlyPoints(s, key, fallback, f.registry);
    var defaults := SetDefault(s, key, fallback, f.registry);
    if defaults.Some? {
      var s2 := defaults.value;
      OnlyPoints(s2, key, version, f.undoAsset);
      OnlyPoints(Attempt(EnsureAssetVersion(s2, key, version, f.undoAsset), s2), key, version, f.undoRegistry);
    }
  }

  lemma EditContinues(s: State, step: Step)
    requires step.command.DoCreate? || step.command.DoPatch?
    ensures Continues(s, Apply(s, step)) && Apply(s, step).evalPass == s.evalPass
  {
  }

  lemma PublishContinues(s: State, release: Release, fault: bool)
    requires release.id !in s.releases
    ensures var s' := Attempt(Publish(s, release, fault), s);
            Continues(s, s') && s'.evalPass == s.evalPass
  {
  }

  lemma StepContinues(s: State, step: Step)
    requires Possible(s, step)
    ensures Continues(s, Apply(s, step))
    ensures !step.command.DoEval? ==> Apply(s, step).evalPass == s.evalPass
  {
    match step.command
    case DoStable(tenant, id) => StableContinues(s, tenant, id, step.faults);
    case DoRollback(tenant, id) => RollbackContinues(s, tenant, id, step.listing, step.faults);
    case DoActivate(tenant, agent, version) => PointAtOnlyPoints(s, AgentKey(tenant, agent), version, step.faults);
    case DoPublish(release) => PublishContinues(s, release, step.faults.mark);
    case DoCreate(_) => EditContinues(s, step);
    case DoPatch(_, _, _, _) => EditContinues(s, step);
    case _ => ReleaseContinues(s, step);
  }

  lemma {:induction false} RunLast(s: State, steps: seq<Step>, step: Step)
    ensures Run(s, steps + [step]) == Apply(Run(s, steps), step)
    ensures PossibleRun(s, steps + [step]) <==> PossibleRun(s, steps) && Possible(Run(s, steps), step)
    decreases |steps|
  {
    if steps == [] {
      assert [step][1..] == [];
    } else {
      assert (steps + [step])[1..] == steps[1..] + [step];
      RunLast(Apply(s, steps[0]), steps[1..], step);
    }
  }

  /** The state before step `i`, and that step is possible there. */
  lemma {:induction false} RunAt(s: State, steps: seq<Step>, i: nat)
    requires PossibleRun(s, steps) && i < |steps|
    ensures PossibleRun(s, steps[..i]) && Possible(Run(s, steps[..i]), steps[i])
    ensures Run(s, steps[..i + 1]) == Apply(Run(s, steps[..i]), steps[i])
    decreases |steps|
  {
    var init, last := steps[..|steps| - 1], steps[|steps| - 1];
    assert steps == init + [last];
    RunLast(s, init, last);
    if i < |init| {
      RunAt(s, init, i);
      assert steps[..i] == init[..i] && steps[..i + 1] == init[..i + 1];
    } else {
      assert steps[..i] == init && steps[..i + 1] == steps;
    }
  }

  lemma {:induction false} ReleasedStays(s: State, steps: seq<Step>, id: PackageID, i: nat, j: nat)
    requires PossibleRun(s, steps) && i <= j <= |steps| && id in Run(s, steps[..i]).releases
    ensures id in Run(s, steps[..j]).releases
    decreases j
  {
    if i < j {
      ReleasedStays(s, steps, id, i, j - 1);
      RunAt(s, steps, j - 1);
      StepContinues(Run(s, steps[..j - 1]), steps[j - 1]);
    }
  }

  /** In every run whose start has all its releases defined, so has its end. */
  lemma {:induction false} RunKeepsDefined(s: State, steps: seq<Step>)
    requires PossibleRun(s, steps) && forall id :: id in s.releases ==> IsDefined(s, id)
    ensures forall id :: id in Run(s, steps).releases ==> IsDefined(Run(s, steps), id)
    decreases |steps|
  {
    if steps != [] {
      StepContinues(s, steps[0]);
      RunKeepsDefined(Apply(s, steps[0]), steps[1..]);
    }
  }

  // ----- evaluation results -------------------------------------------------

  /** The step records that the evaluation of `id` passed. */
  predicate Passes(s: State, step: Step, id: PackageID) {
    step.command == DoEval(id, true) && !step.faults.mark && id in s.releases
      && s.releases[id].status in {Published, Canary, Evaluated, Reviewed, Stable}
  }

  /** The step records that it failed. */
  predicate Fails(s: State, step: Step, id: PackageID) {
    step.command == DoEval(id, false) && !step.faults.mark && id in s.releases
  }

  predicate HasPassed(s: State, id: PackageID) {
    id in s.evalPass && s.evalPass[id]
  }

  lemma StepVerdict(s: State, step: Step, id: PackageID)
    requires Possible(s, step)
    ensures HasPassed(Apply(s, step), id) <==> Passes(s, step, id) || (HasPassed(s, id) && !Fails(s, step, id))
  {
    if step.command.DoEval? { EvalVerdict(s, step, id); } else { StepContinues(s, step); }
  }

  lemma EvalVerdict(s: State, step: Step, id: PackageID)
    requires step.command.DoEval?
    ensures HasPassed(Apply(s, step), id) <==> Passes(s, step, id) || (HasPassed(s, id) && !Fails(s, step, id))
  {
  }

  /** Step `i` passes the evaluation and no later one fails it. */
  ghost predicate LastPass(s: State, steps: seq<Step>, id: PackageID, i: int) {
    && 0 <= i < |steps| && Passes(Run(s, steps[..i]), steps[i], id)
    && forall j :: i < j < |steps| ==> !Fails(Run(s, steps[..j]), steps[j], id)
  }

  /** After any run the last recorded evaluation result counts. */
  lemma {:induction false} LastResultCounts(s: State, steps: seq<Step>, id: PackageID)
    requires PossibleRun(s, steps) && !HasPassed(s, id)
    ensures HasPassed(Run(s, steps), id) <==> exists i :: LastPass(s, steps, id, i)
    decreases |steps|
  {
    if steps != [] {
      var init, last := steps[..|steps| - 1], steps[|steps| - 1];
      assert steps == init + [last];
      RunLast(s, init, last);
      LastResultCounts(s, init, id);
      StepVerdict(Run(s, init), last, id);
      assert forall i :: 0 <= i <= |init| ==> steps[..i] == init[..i];
      assert init[..|init|] == init;
      if Passes(Run(s, init), last, id) {
        assert LastPass(s, steps, id, |init|);
      } else if !Fails(Run(s, init), last, id) {
        forall i ensures LastPass(s, steps, id, i) <==> LastPass(s, init, id, i) {
          if LastPass(s, steps, id, i) {
            assert i != |init|;
            assert forall j :: i < j < |init| ==> !Fails(Run(s, steps[..j]), steps[j], id);
          }
        }
      } else {
        forall i ensures !LastPass(s, steps, id, i) {
          if i < |init| { assert steps[|init|] == last; }
        }
      }
    }
  }

  /** A stable command succeeds only after a step that passed the evaluation, with no failure of it recorded
      since. */
  lemma StableNeedsPass(s: State, steps: seq<Step>, tenant: TenantID, id: PackageID, f: Faults)
    requires PossibleRun(s, steps) && s.evalPass == map[]
    requires StableAction(Run(s, steps), tenant, id, f).ok
    ensures exists i :: 0 <= i < |steps| && steps[i].command == DoEval(id, true) && !steps[i].faults.mark
                        && forall j :: i < j < |steps| && steps[j].command == DoEval(id, false) ==> steps[j].faults.mark
  {
    LastResultCounts(s, steps, id);
    assert HasPassed(Run(s, steps), id);
    var i :| LastPass(s, steps, id, i);
    forall j | i < j < |steps| && steps[j].command == DoEval(id, false) ensures steps[j].faults.mark {
      ReleasedStays(s, steps, id, i, j);
      assert !Fails(Run(s, steps[..j]), steps[j], id);
    }
  }

  // ----- when a command succeeds --------------------------------------------

  /** No call fails from outside. */
  predicate Undisturbed(f: Faults) {
    !f.gate && !f.read && !f.check && !f.mark && !f.asset && !f.registry
  }

  /** The asset of the agent is there or can be made. */
  predicate Switchable(s: State, key: AgentKey) {
    key in s.assets || (key.tenant != "" && key.agent != "")
  }

  predicate KnownToRegistry(s: State, key: AgentKey, version: Version) {
    (key, version) in s.definitions || (AgentKey("", key.agent), version) in s.definitions
  }

  /** A canary command succeeds exactly on the tenant's own published, evaluated or reviewed release. */
  lemma CanarySucceedsIff(s: State, tenant: TenantID, id: PackageID, percent: int, f: Faults)
    ensures var o := CanaryAction(s, tenant, id, percent, f);
            && (o.ok <==> && !f.gate && !f.mark && id in s.releases && s.releases[id].tenant == tenant
                          && s.releases[id].status in {Published, Evaluated, Reviewed})
            && (o.ok ==> o.state.releases ==
                           s.releases[id := s.releases[id].(status := Canary, canaryPercent :=
                             if percent > 0 then percent else s.releases[id].canaryPercent)])
  {
  }

  /** A stable command succeeds exactly on the tenant's own evaluated or canary release that has passed its
      evaluation and that the registry knows, when no call fails. */
  lemma StableSucceedsIff(s: State, tenant: TenantID, id: PackageID, f: Faults)
    ensures StableAction(s, tenant, id, f).ok
            <==> && !f.gate && !f.mark && !f.asset && !f.registry && id in s.releases
                 && var r := s.releases[id];
                    && r.tenant == tenant && r.status in {Evaluated, Canary} && HasPassed(s, id)
                    && Switchable(s, AgentKey(tenant, r.agent))
                    && KnownToRegistry(s, AgentKey(tenant, r.agent), r.version)
  {
  }

  /** After any run, undisturbed: exactly the evaluated and canary releases whose last result was a pass
      become stable. */
  lemma PassedBecomesStable(s: State, steps: seq<Step>, id: PackageID, f: Faults)
    requires PossibleRun(s, steps) && s.evalPass == map[] && Undisturbed(f)
    requires forall i :: i in s.releases ==> IsDefined(s, i)
    requires var t := Run(s, steps);
             id in t.releases && t.releases[id].tenant != "" && t.releases[id].agent != ""
    ensures var t := Run(s, steps);
            StableAction(t, t.releases[id].tenant, id, f).ok
            <==> t.releases[id].status in {Evaluated, Canary} && exists i :: LastPass(s, steps, id, i)
  {
    var t := Run(s, steps);
    RunKeepsDefined(s, steps);
    LastResultCounts(s, steps, id);
    StableSucceedsIff(t, t.releases[id].tenant, id, f);
    assert IsDefined(t, id);
  }

  /** An activation succeeds exactly when a stable release of that version is there and known, and no call
      fails. */
  lemma ActivateSucceedsIff(s: State, key: AgentKey, version: Version, listing: seq<Release>, f: Faults)
    requires WellFormed(s) && Enumerates(listing, s)
    ensures ActivateAction(s, key, version, listing, f).ok
            <==> && !f.gate && !f.asset && !f.registry
                 && (exists id :: id in s.releases && s.releases[id].tenant == key.tenant
                                  && s.releases[id].agent == key.agent && s.releases[id].version == version
                                  && s.releases[id].status == Stable)
                 && Switchable(s, key) && KnownToRegistry(s, key, version)
  {
    ListedIsStored(s, listing);
    LatestIsMaximal(listing, WithVersion(key, version));
    var found := Latest(listing, WithVersion(key, version));
    forall id | id in s.releases && s.releases[id].Of(key) && s.releases[id].version == version
      ensures found == Some(s.releases[id])
    {
      assert s.releases[id] in listing && Matches(WithVersion(key, version), s.releases[id]);
      assert SameVersion(s.releases[id], found.value);
    }
  }

  /** The tenant's agent has another stable release. */
  ghost predicate HasOtherStable(s: State, r: Release, id: PackageID) {
    id in s.releases && s.releases[id].tenant == r.tenant && s.releases[id].agent == r.agent
      && s.releases[id].version != r.version && s.releases[id].status == Stable
  }

  /** A rollback succeeds exactly on the tenant's own release that is neither a draft nor rolled back and,
      if a pointer is on it, where another stable release is there to fall back to, when no call fails. */
  lemma RollbackSucceedsIff(s: State, tenant: TenantID, id: PackageID, listing: seq<Release>, f: Faults)
    requires WellFormed(s) && Enumerates(listing, s) && forall i :: i in s.releases ==> IsDefined(s, i)
    ensures RollbackAction(s, tenant, id, listing, f).ok
            <==> && !f.gate && !f.read && !f.mark && id in s.releases
                 && var r := s.releases[id];
                    && r.tenant == tenant && r.status !in {Draft, RolledBack}
                    && (r.version in Pointers(s, AgentKey(tenant, r.agent)) ==>
                          && !f.check && !f.asset && !f.registry && Switchable(s, AgentKey(tenant, r.agent))
                          && exists i :: HasOtherStable(s, r, i))
  {
    if Admitted(s, tenant, id, f) && !f.read {
      var r := s.releases[id];
      var key := AgentKey(tenant, r.agent);
      assert Named(r, id);
      IsActiveMeansPointed(s, key, r.version);
      if IsActive(s, key, r.version) {
        FallbackExistsIff(s, listing, r, key);
        var fallback := Fallback(listing, StableOtherThan(key, r.version)).0;
        RollbackActiveSucceedsIff(s, key, id, r.version, fallback, f);
      }
    }
  }

  lemma FallbackExistsIff(s: State, listing: seq<Release>, r: Release, key: AgentKey)
    requires WellFormed(s) && Enumerates(listing, s) && forall i :: i in s.releases ==> IsDefined(s, i)
    requires r.tenant == key.tenant && r.agent == key.agent
    ensures var fallback := Fallback(listing, StableOtherThan(key, r.version)).0;
            && (fallback != "" <==> exists i :: HasOtherStable(s, r, i))
            && (fallback != "" ==> Defined(s, key, fallback))
  {
    var q := StableOtherThan(key, r.version);
    ListedIsStored(s, listing);
    FallbackIsLatest(listing, key, r.version);
    if Fallback(listing, q).0 != "" {
      var found :| found in listing && Matches(q, found) && found.version == Fallback(listing, q).0;
      assert HasOtherStable(s, r, found.id) && IsDefined(s, found.id);
    }
    if i :| HasOtherStable(s, r, i) {
      assert s.releases[i] in listing && Matches(q, s.releases[i]);
    }
  }

  lemma RollbackActiveSucceedsIff(s: State, key: AgentKey, id: PackageID, version: Version, fallback: Version,
                                  f: Faults)
    requires id in s.releases
    ensures Defined(s, key, fallback) ==>
              (RollbackActive(s, key, id, version, fallback, f).ok
               <==> && !f.asset && !f.registry && !f.mark && Switchable(s, key)
                    && s.releases[id].status !in {Draft, RolledBack})
  {
  }
}
