/** Inputs on which the guarantees of `ReleaseGuarantees` that hold only under a condition fail. */
module ReleaseExamples {
  import opened Options
  import opened ReleaseState
  import opened ReleaseQueries
  import opened ReleaseProtocol
  import opened ReleaseGuarantees

  const EMPTY := State(map[], map[], map[], {}, map[])
  const KEY := AgentKey("t", "a")
  const NO_FAULTS := Faults(false, false, false, false, false, false, false, false, false)

  function Version(id: PackageID, version: Version, status: Status, at: nat): Release {
    Release(id, "t", "a", version, status, at, None, 10)
  }

  /** Nothing stored, or the releases given. */
  function Holding(releases: map<PackageID, Release>, assets: map<AgentKey, Asset>): State {
    EMPTY.(releases := releases, assets := assets)
  }

  lemma EmptyIsSafe()
    ensures WellFormed(EMPTY) && Safe(EMPTY, RUNNABLE)
  {
  }

  /** From nothing: create an asset, point it at a version still to come, publish that version. */
  const BEFORE_PUBLISH := [Step(DoCreate(KEY), NO_FAULTS, []), Step(DoPatch(KEY, "v", "", None), NO_FAULTS, [])]

  lemma PublishCanBreak()
    ensures PossibleRun(EMPTY, BEFORE_PUBLISH) && GuardedRun(EMPTY, BEFORE_PUBLISH, RUNNABLE)
    ensures var s := Run(EMPTY, BEFORE_PUBLISH);
            && WellFormed(s) && Safe(s, RUNNABLE) && Publish(s, Version("r", "v", Draft, 1), false).Some?
            && !Safe(Publish(s, Version("r", "v", Draft, 1), false).value, RUNNABLE)
  {
    var s1 := Holding(map[], map[KEY := Asset("", "", Active)]);
    var s2 := Holding(map[], map[KEY := Asset("v", "", Active)]);
    var steps := BEFORE_PUBLISH;
    assert Apply(EMPTY, steps[0]) == s1 && Apply(s1, steps[1]) == s2;
    assert steps[1..][1..] == [];
    assert Run(EMPTY, steps) == Run(s1, steps[1..]) == Run(s2, []) == s2;
    EmptyIsSafe();
    GuardedRunKeepsPointers(EMPTY, steps, RUNNABLE);
    PublishKeepsSafeIff(s2, Version("r", "v", Draft, 1), false, RUNNABLE);
  }

  /** From nothing: publish a version and create the asset; then point it at that version. */
  lemma PatchCanBreak()
    ensures var published := Version("r", "v", Published, 1);
            var s := Holding(map["r" := published], map[KEY := Asset("", "", Active)]).(definitions := {(KEY, "v")});
            && Apply(Apply(EMPTY, Step(DoPublish(published), NO_FAULTS, [])),
               Step(DoCreate(KEY), NO_FAULTS, [published])) == s
            && WellFormed(s) && Safe(s, RUNNABLE) && PatchAsset(s, KEY, "v", "", None, false).Some?
            && !Safe(PatchAsset(s, KEY, "v", "", None, false).value, RUNNABLE)
  {
    var published := Version("r", "v", Published, 1);
    var s := Holding(map["r" := published], map[KEY := Asset("", "", Active)]).(definitions := {(KEY, "v")});
    assert Safe(s, RUNNABLE);
    assert s.releases["r"].Of(KEY) && !Settled(s, KEY, "v", RUNNABLE);
    PatchKeepsSafeIff(s, KEY, "v", "", None, false, RUNNABLE);
  }

  /** From nothing: publish, make it a canary, create the asset and point it at the canary. */
  const BEFORE_EVAL := [
    Step(DoPublish(Version("r", "v", Draft, 1)), NO_FAULTS, []),
    Step(DoCanary("t", "r", 10), NO_FAULTS, [Version("r", "v", Published, 1)]),
    Step(DoCreate(KEY), NO_FAULTS, [Version("r", "v", Canary, 1)]),
    Step(DoPatch(KEY, "v", "", None), NO_FAULTS, [Version("r", "v", Canary, 1)])
  ]

  lemma EvalCanBreak()
    ensures PossibleRun(EMPTY, BEFORE_EVAL) && GuardedRun(EMPTY, BEFORE_EVAL, RUNNABLE)
    ensures var s := Run(EMPTY, BEFORE_EVAL);
            && WellFormed(s) && Safe(s, RUNNABLE) && MarkEvalResult(s, "r", true, false).Some?
            && !Safe(MarkEvalResult(s, "r", true, false).value, RUNNABLE)
  {
    var known := {(KEY, "v")};
    var s1 := Holding(map["r" := Version("r", "v", Published, 1)], map[]).(definitions := known);
    var s2 := Holding(map["r" := Version("r", "v", Canary, 1)], map[]).(definitions := known);
    var s3 := s2.(assets := map[KEY := Asset("", "", Active)]);
    var s4 := s2.(assets := map[KEY := Asset("v", "", Active)]);
    var steps := BEFORE_EVAL;
    assert Apply(EMPTY, steps[0]) == s1;
    assert Apply(s1, steps[1]) == s2;
    assert Apply(s2, steps[2]) == s3;
    assert Apply(s3, steps[3]) == s4;
    EmptyIsSafe();
    RunOfFour(EMPTY, s1, s2, s3, s4, steps, RUNNABLE);
    GuardedRunKeepsPointers(EMPTY, steps, RUNNABLE);
    assert "v" in Pointers(s4, KEY);
    EvalKeepsSafeIff(s4, "r", true, false, RUNNABLE);
  }

  lemma RunOfFour(s0: State, s1: State, s2: State, s3: State, s4: State, steps: seq<Step>, good: set<Status>)
    requires |steps| == 4
    requires Apply(s0, steps[0]) == s1 && Apply(s1, steps[1]) == s2 && Apply(s2, steps[2]) == s3
             && Apply(s3, steps[3]) == s4
    requires Possible(s0, steps[0]) && Possible(s1, steps[1]) && Possible(s2, steps[2]) && Possible(s3, steps[3])
    requires Guarded(s0, steps[0], good) && Guarded(s1, steps[1], good) && Guarded(s2, steps[2], good)
             && Guarded(s3, steps[3], good)
    ensures Run(s0, steps) == s4 && PossibleRun(s0, steps) && GuardedRun(s0, steps, good)
  {
    var a, b, c := steps[1..], steps[2..], steps[3..];
    assert a[1..] == b && b[1..] == c && c[1..] == [];
    assert Run(s3, c) == s4 && PossibleRun(s3, c) && GuardedRun(s3, c, good);
    assert Run(s2, b) == s4 && PossibleRun(s2, b) && GuardedRun(s2, b, good);
    assert Run(s1, a) == s4 && PossibleRun(s1, a) && GuardedRun(s1, a, good);
  }

  /** Two stable versions; the asset serves the newer one by default, its other pointer is on the older. */
  const SPLIT := State(
    map["o" := Version("o", "old", Stable, 1), "n" := Version("n", "new", Stable, 2)], map[],
    map[KEY := Asset("new", "old", Active)], {(KEY, "old"), (KEY, "new")}, map[KEY := "new"])

  const LISTED := [Version("o", "old", Stable, 1), Version("n", "new", Stable, 2)]

  lemma SplitIsOrdinary()
    ensures WellFormed(SPLIT) && Safe(SPLIT, {Stable}) && Enumerates(LISTED, SPLIT)
    ensures Fallback(LISTED, StableOtherThan(KEY, "new")).0 == "old"
  {
    assert LISTED[0] in LISTED && LISTED[1] in LISTED;
    var q := StableOtherThan(KEY, "new");
    assert LISTED[..1] == [LISTED[0]] && LISTED[..1][..0] == [];
    assert Fallback(LISTED[..1], q) == ("old", 1);
  }

  /** Rolling the newer version back from there: whichever later call fails, the compensation moves the
      pointer that was on the older version. */
  lemma CompensationCanLose(f: Faults)
    requires f == NO_FAULTS.(mark := true) || f == NO_FAULTS.(registry := true)
    ensures WellFormed(SPLIT) && Safe(SPLIT, {Stable}) && Enumerates(LISTED, SPLIT)
    ensures var o := RollbackAction(SPLIT, "t", "n", LISTED, f);
            !o.ok && o.state.assets == map[KEY := Asset("new", "new", Active)] != SPLIT.assets
  {
    SplitIsOrdinary();
    assert RollbackAction(SPLIT, "t", "n", LISTED, f) == RollbackActive(SPLIT, KEY, "n", "new", "old", f);
  }
}
