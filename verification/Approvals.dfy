/** Approvals and the concurrent release commands that spend them.  Each command validates its
    approval, evaluates the release policy, checks the plugin, consumes the approval and acts; the
    steps of different commands, and the calls of the approval service's other clients, interleave freely. */
module Approvals {
  import opened Options
  import opened ReleaseState
  import opened ReleasePolicy
  import opened Text

  type ApprovalID = string

  datatype ApprovalStatus = Pending | Approved | Rejected | Used

  datatype Approval = Approval(tenant: TenantID, resourceType: string, resourceID: string, action: string,
                               status: ApprovalStatus, expiresAt: Option<int>)

  /** What an approval is asked to cover. */
  datatype Scope = Scope(tenant: TenantID, resourceType: string, resourceID: string, action: string)

  /** A pending request for the scope. */
  function Asked(scope: Scope, expiresAt: Option<int>): Approval {
    Approval(scope.tenant, scope.resourceType, scope.resourceID, scope.action, Pending, expiresAt)
  }

  predicate Covers(a: Approval, scope: Scope) {
    a.tenant == scope.tenant && a.resourceType == scope.resourceType && a.resourceID == scope.resourceID
      && a.action == scope.action
  }

  /** The approval service's check: the scope matches, it is approved and not expired. */
  predicate Valid(items: map<ApprovalID, Approval>, id: ApprovalID, scope: Scope, now: int) {
    && id in items && Covers(items[id], scope) && items[id].status == Approved
    && (items[id].expiresAt.Some? ==> now <= items[id].expiresAt.value)
  }

  function Spend(items: map<ApprovalID, Approval>, id: ApprovalID): map<ApprovalID, Approval>
    requires id in items
  {
    items[id := items[id].(status := Used)]
  }

  /** The approval service, whose calls are atomic under its lock. */
  class ApprovalService {
    var items: map<ApprovalID, Approval>

    constructor ()
      ensures items == map[]
    {
      items := map[];
    }

    method Request(id: ApprovalID, scope: Scope, expiresAt: Option<int>) returns (ok: bool)
      requires id !in items
      modifies this
      ensures ok <==> scope.tenant != "" && scope.resourceType != "" && scope.resourceID != "" && scope.action != ""
      ensures items ==
              if ok then
                old(items)[id := Approval(scope.tenant, scope.resourceType, scope.resourceID, scope.action, Pending,
                                          expiresAt)]
              else old(items)
    {
      if scope.tenant == "" || scope.resourceType == "" || scope.resourceID == "" || scope.action == "" {
        return false;
      }
      items := items[id := Asked(scope, expiresAt)];
      return true;
    }

    method Resolve(id: ApprovalID, tenant: TenantID, approve: bool) returns (ok: bool)
      modifies this
      ensures ok <==> id in old(items) && old(items)[id].tenant == tenant && old(items)[id].status == Pending
      ensures items == Resolved(old(items), id, tenant, approve)
      ensures ok ==> items[id] == old(items)[id].(status := if approve then Approved else Rejected)
    {
      if id !in items || items[id].tenant != tenant || items[id].status != Pending {
        return false;
      }
      items := items[id := items[id].(status := if approve then Approved else Rejected)];
      return true;
    }

    method Validate(id: ApprovalID, scope: Scope, now: int) returns (ok: bool)
      ensures ok <==> Valid(items, id, scope, now)
      ensures ok <==>
              && id in items && items[id].status == Approved
              && (items[id].expiresAt.None? || now <= items[id].expiresAt.value)
              && items[id].tenant == scope.tenant && items[id].resourceType == scope.resourceType
              && items[id].resourceID == scope.resourceID && items[id].action == scope.action
    {
      if id !in items {
        return false;
      }
      var a := items[id];
      if a.tenant != scope.tenant || a.resourceType != scope.resourceType || a.resourceID != scope.resourceID
        || a.action != scope.action {
        return false;
      }
      if a.status != Approved {
        return false;
      }
      return a.expiresAt.None? || now <= a.expiresAt.value;
    }

    method Consume(id: ApprovalID, scope: Scope, now: int) returns (ok: bool)
      modifies this
      ensures ok <==>
              && id in old(items) && old(items)[id].status == Approved
              && (old(items)[id].expiresAt.None? || now <= old(items)[id].expiresAt.value)
              && old(items)[id].tenant == scope.tenant && old(items)[id].resourceType == scope.resourceType
              && old(items)[id].resourceID == scope.resourceID && old(items)[id].action == scope.action
      ensures items == if ok then old(items)[id := old(items)[id].(status := Used)] else old(items)
      ensures ok <==> Valid(old(items), id, scope, now)
      ensures items == if ok then Spend(old(items), id) else old(items)
    {
      ok := Validate(id, scope, now);
      if ok {
        items := items[id := items[id].(status := Used)];
      }
    }
  }

  function Resolved(items: map<ApprovalID, Approval>, id: ApprovalID, tenant: TenantID,
                    approve: bool): map<ApprovalID, Approval> {
    if id in items && items[id].tenant == tenant && items[id].status == Pending
    then items[id := items[id].(status := if approve then Approved else Rejected)]
    else items
  }

  // ----- the interleaved commands -------------------------------------------

  datatype Client = PackageRelease | PolicyRelease

  datatype Command = Command(client: Client, tenant: TenantID, approvalField: string, resourceID: string,
                             action: string)

  function ScopeOf(c: Command): Scope {
    match c.client
    case PackageRelease => Scope(c.tenant, "agent_package_version", c.resourceID, "agent.package." + c.action)
    case PolicyRelease => Scope(c.tenant, "policy_version", c.resourceID, "policy." + c.action)
  }

  function ApprovalOf(c: Command): ApprovalID {
    TrimSpace(c.approvalField)
  }

  /** What release commands ask approval for. */
  predicate ForRelease(a: Approval) {
    a.resourceType in {"agent_package_version", "policy_version"}
  }

  /** What the service's other clients ask approval for: tool calls, share policies and hook bindings. */
  predicate OtherScope(scope: Scope) {
    scope.resourceType in {"tool", "cross_group_share_policy", "runtime_hook_binding"}
  }

  /** Only canary and stable commands on packages check the plugin source. */
  predicate ChecksPlugin(c: Command) {
    c.client == PackageRelease && (c.action == "canary" || c.action == "stable")
  }

  datatype Phase =
    | Received
    | ApprovalChecked(approved: bool)
    | PolicyPassed(approved: bool)
    | PluginPassed(approved: bool)
    | Acting(approved: bool)
    | Stopped

  datatype Process = Process(command: Command, phase: Phase)

  datatype System = System(items: map<ApprovalID, Approval>, processes: map<nat, Process>, now: int)

  datatype Step =
    | Submit(p: nat, command: Command)
    | CheckApproval(p: nat)
    | EvaluatePolicy(p: nat, policy: Policy, question: Question, newID: ApprovalID)
    | CheckPlugin(p: nat, accepted: bool)
    | ConsumeApproval(p: nat)
    | ConsumeOther(id: ApprovalID, scope: Scope)
    | ResolveApproval(id: ApprovalID, tenant: TenantID, approve: bool)
    | OpenApproval(id: ApprovalID, scope: Scope, expiresAt: Option<int>)
    | Tick(now: int)

  predicate At(s: System, p: nat, phase: Phase) {
    p in s.processes && s.processes[p].phase == phase
  }

  function Move(s: System, p: nat, phase: Phase): System
    requires p in s.processes
  {
    s.(processes := s.processes[p := s.processes[p].(phase := phase)])
  }

  function Open(s: System, id: ApprovalID, scope: Scope, expiresAt: Option<int>): System {
    if id in s.items then s
    else s.(items := s.items[id := Asked(scope, expiresAt)])
  }

  /** One step; a step that is not enabled changes nothing.  Approval ids are never reused. */
  function Apply(s: System, step: Step): System {
    match step
    case Submit(p, command) =>
      if p in s.processes then s else s.(processes := s.processes[p := Process(command, Received)])
    case CheckApproval(p) =>
      if !At(s, p, Received) then s
      else
        var c := s.processes[p].command;
        if ApprovalOf(c) == "" then Move(s, p, ApprovalChecked(false))
        else if Valid(s.items, ApprovalOf(c), ScopeOf(c), s.now) then Move(s, p, ApprovalChecked(true))
        else Move(s, p, Stopped)
    case EvaluatePolicy(p, policy, question, newID) =>
      if p !in s.processes || !s.processes[p].phase.ApprovalChecked? then s
      else
        var approved := s.processes[p].phase.approved;
        var c := s.processes[p].command;
        (match Evaluate(policy, question.(action := c.action), approved)
         case Allowed => Move(s, p, PolicyPassed(approved))
         case ApprovalRequired => Open(Move(s, p, Stopped), newID, ScopeOf(c), None)
         case Denied => Move(s, p, Stopped))
    case CheckPlugin(p, accepted) =>
      if p !in s.processes || !s.processes[p].phase.PolicyPassed? then s
      else
        var approved := s.processes[p].phase.approved;
        if ChecksPlugin(s.processes[p].command) && !accepted then Move(s, p, Stopped)
          else Move(s, p, PluginPassed(approved))
    case ConsumeApproval(p) =>
      if p !in s.processes || !s.processes[p].phase.PluginPassed? then s
      else
        var c := s.processes[p].command;
        if !s.processes[p].phase.approved then Move(s, p, Acting(false))
        else if Valid(s.items, ApprovalOf(c), ScopeOf(c), s.now)
        then Move(s, p, Acting(true)).(items := Spend(s.items, ApprovalOf(c)))
        else Move(s, p, Stopped)
    case ConsumeOther(id, scope) =>
      if OtherScope(scope) && Valid(s.items, id, scope, s.now) then s.(items := Spend(s.items, id)) else s
    case ResolveApproval(id, tenant, approve) => s.(items := Resolved(s.items, id, tenant, approve))
    case OpenApproval(id, scope, expiresAt) => Open(s, id, scope, expiresAt)
    case Tick(now) => if now < s.now then s else s.(now := now)
  }

  function Run(s: System, steps: seq<Step>): System
    decreases |steps|
  {
    if steps == [] then s else Run(Apply(s, steps[0]), steps[1..])
  }

  /** Process `p` reached its act step on the strength of approval `id`. */
  predicate ActsOn(s: System, p: nat, id: ApprovalID) {
    At(s, p, Acting(true)) && ApprovalOf(s.processes[p].command) == id
  }

  ghost predicate Spent(s: System, id: ApprovalID) {
    id in s.items && s.items[id].status == Used
  }

  /** The release approvals in use are exactly those some command acts on, each by one command only and
      for the resource and action it was approved for. */
  ghost predicate SpentByActing(s: System) {
    && (forall p, id :: ActsOn(s, p, id) ==> Spent(s, id) && Covers(s.items[id], ScopeOf(s.processes[p].command)))
    && (forall p, p', id :: ActsOn(s, p, id) && ActsOn(s, p', id) ==> p == p')
    && (forall id :: Spent(s, id) && ForRelease(s.items[id]) ==> exists p :: ActsOn(s, p, id))
  }

  /** The act steps and the items are untouched, up to approvals opened or resolved. */
  ghost predicate SpendsNothing(s: System, s': System) {
    && (forall p, id :: ActsOn(s', p, id) <==> ActsOn(s, p, id))
    && (forall p :: p in s.processes ==> p in s'.processes && s'.processes[p].command == s.processes[p].command)
    && (forall id :: Spent(s', id) <==> Spent(s, id))
    && (forall id :: id in s.items ==> id in s'.items && s'.items[id] == s.items[id].(status := s'.items[id].status))
  }

  /** The same for the approvals of releases; those of other clients may have been spent. */
  ghost predicate SpendsNoRelease(s: System, s': System) {
    && (forall p, id :: ActsOn(s', p, id) <==> ActsOn(s, p, id))
    && (forall p :: p in s.processes ==> p in s'.processes && s'.processes[p].command == s.processes[p].command)
    && (forall id :: Spent(s, id) ==> Spent(s', id) && s'.items[id] == s.items[id])
    && (forall id :: Spent(s', id) && !Spent(s, id) ==> !ForRelease(s'.items[id]))
  }

  lemma MovingSpendsNothing(s: System, p: nat, phase: Phase)
    requires p in s.processes && s.processes[p].phase != Acting(true) && phase != Acting(true)
    ensures SpendsNothing(s, Move(s, p, phase))
  {
  }

  lemma OpeningSpendsNothing(s: System, id: ApprovalID, scope: Scope, expiresAt: Option<int>)
    ensures SpendsNothing(s, Open(s, id, scope, expiresAt))
  {
  }

  lemma ResolvingSpendsNothing(s: System, id: ApprovalID, tenant: TenantID, approve: bool)
    ensures SpendsNothing(s, s.(items := Resolved(s.items, id, tenant, approve)))
  {
  }

  lemma SpendsNothingTwice(s: System, s': System, s'': System)
    requires SpendsNothing(s, s') && SpendsNothing(s', s'')
    ensures SpendsNothing(s, s'')
  {
  }

  lemma EvaluatingSpendsNothing(s: System, p: nat, policy: Policy, question: Question, newID: ApprovalID)
    ensures SpendsNothing(s, Apply(s, EvaluatePolicy(p, policy, question, newID)))
  {
    if p in s.processes && s.processes[p].phase.ApprovalChecked? {
      var c := s.processes[p].command;
      MovingSpendsNothing(s, p, Stopped);
      MovingSpendsNothing(s, p, PolicyPassed(s.processes[p].phase.approved));
      OpeningSpendsNothing(Move(s, p, Stopped), newID, ScopeOf(c), None);
      SpendsNothingTwice(s, Move(s, p, Stopped), Open(Move(s, p, Stopped), newID, ScopeOf(c), None));
    }
  }

  lemma CheckingSpendsNothing(s: System, step: Step, p: nat)
    requires step == CheckApproval(p) || (step.CheckPlugin? && step.p == p)
    ensures SpendsNothing(s, Apply(s, step))
  {
    if p in s.processes && step.CheckApproval? && s.processes[p].phase.Received? {
      MovingSpendsNothing(s, p, ApprovalChecked(true));
      MovingSpendsNothing(s, p, ApprovalChecked(false));
      MovingSpendsNothing(s, p, Stopped);
    }
    if p in s.processes && step.CheckPlugin? && s.processes[p].phase.PolicyPassed? {
      MovingSpendsNothing(s, p, PluginPassed(s.processes[p].phase.approved));
      MovingSpendsNothing(s, p, Stopped);
    }
  }

  /** Only a consume call spends an approval; submitting, validating, policy evaluation, plugin checks, being
      stopped, requests, resolutions and time spend none. */
  lemma OnlyConsumeSpends(s: System, step: Step)
    requires !step.ConsumeApproval? && !step.ConsumeOther?
    ensures SpendsNothing(s, Apply(s, step))
  {
    match step
    case Submit(p, command) =>
    case CheckApproval(p) => CheckingSpendsNothing(s, step, p);
    case EvaluatePolicy(p, policy, question, newID) => EvaluatingSpendsNothing(s, p, policy, question, newID);
    case CheckPlugin(p, accepted) => CheckingSpendsNothing(s, step, p);
    case OpenApproval(id, scope, expiresAt) => OpeningSpendsNothing(s, id, scope, expiresAt);
    case ResolveApproval(id, tenant, approve) => ResolvingSpendsNothing(s, id, tenant, approve);
    case Tick(now) =>
  }

  /** The consume step either spends nothing, or takes one approval that was approved, unexpired and
      made for this resource and action, marks it used and lets this command alone act. */
  lemma ConsumeSpendsOne(s: System, p: nat)
    ensures var s' := Apply(s, ConsumeApproval(p));
            SpendsNothing(s, s') || Spends(s, p, s')
  {
    if p in s.processes && s.processes[p].phase.PluginPassed? {
      var c := s.processes[p].command;
      if !s.processes[p].phase.approved {
        MovingSpendsNothing(s, p, Acting(false));
      } else if Valid(s.items, ApprovalOf(c), ScopeOf(c), s.now) {
        assert Spends(s, p, Move(s, p, Acting(true)).(items := Spend(s.items, ApprovalOf(c))));
      } else {
        MovingSpendsNothing(s, p, Stopped);
      }
    }
  }

  ghost predicate Spends(s: System, p: nat, s': System) {
    && p in s.processes && !At(s, p, Acting(true))
    && var c := s.processes[p].command;
       && Valid(s.items, ApprovalOf(c), ScopeOf(c), s.now)
       && s' == Move(s, p, Acting(true)).(items := Spend(s.items, ApprovalOf(c)))
  }

  /** The other clients spend no approval a release could use. */
  lemma OthersSpendNoRelease(s: System, id: ApprovalID, scope: Scope)
    ensures SpendsNoRelease(s, Apply(s, ConsumeOther(id, scope)))
  {
  }

  lemma NothingSpentKeeps(s: System, s': System)
    requires SpentByActing(s) && (SpendsNothing(s, s') || SpendsNoRelease(s, s'))
    ensures SpentByActing(s')
  {
    forall p, id | ActsOn(s', p, id) ensures Spent(s', id) && Covers(s'.items[id], ScopeOf(s'.processes[p].command)) {
      assert ActsOn(s, p, id);
    }
    forall id | Spent(s', id) && ForRelease(s'.items[id]) ensures exists p :: ActsOn(s', p, id) {
      assert Spent(s, id) && ForRelease(s.items[id]);
      var p :| ActsOn(s, p, id);
      assert ActsOn(s', p, id);
    }
    forall p, p', id | ActsOn(s', p, id) && ActsOn(s', p', id) ensures p == p' {
      assert ActsOn(s, p, id) && ActsOn(s, p', id);
    }
  }

  lemma ConsumeKeeps(s: System, p: nat, s': System)
    requires SpentByActing(s) && Spends(s, p, s')
    ensures SpentByActing(s')
  {
    var spent := ApprovalOf(s.processes[p].command);
    assert !Spent(s, spent);
    forall q, id | ActsOn(s', q, id) && q != p ensures id != spent && ActsOn(s, q, id) {
      assert ActsOn(s, q, id);
    }
    assert ActsOn(s', p, spent);
    forall id | Spent(s', id) && ForRelease(s'.items[id]) ensures exists q :: ActsOn(s', q, id) {
      if id != spent {
        assert Spent(s, id) && s'.items[id] == s.items[id];
        var q :| ActsOn(s, q, id);
        assert ActsOn(s', q, id);
      }
    }
  }

  lemma StepKeeps(s: System, step: Step)
    requires SpentByActing(s)
    ensures SpentByActing(Apply(s, step))
  {
    if step.ConsumeApproval? {
      ConsumeSpendsOne(s, step.p);
      if SpendsNothing(s, Apply(s, step)) {
        NothingSpentKeeps(s, Apply(s, step));
      } else {
        ConsumeKeeps(s, step.p, Apply(s, step));
      }
    } else if step.ConsumeOther? {
      OthersSpendNoRelease(s, step.id, step.scope);
      NothingSpentKeeps(s, Apply(s, step));
    } else {
      OnlyConsumeSpends(s, step);
      NothingSpentKeeps(s, Apply(s, step));
    }
  }

  /** In every interleaving of release commands of both kinds, with approvals requested, resolved, expiring
      and consumed by other clients meanwhile, at most one command acts on an approval, it acts for the
      resource and action the approval covers, and a release approval is used up exactly when a command acts
      on it: the commands that were stopped spent none. */
  lemma {:induction false} ApprovalsAreSpentOnce(s: System, steps: seq<Step>)
    requires SpentByActing(s)
    ensures SpentByActing(Run(s, steps))
    decreases |steps|
  {
    if steps != [] {
      StepKeeps(s, steps[0]);
      ApprovalsAreSpentOnce(Apply(s, steps[0]), steps[1..]);
    }
  }

  lemma StartIsClean(items: map<ApprovalID, Approval>, now: int)
    requires forall id :: id in items && ForRelease(items[id]) ==> items[id].status != Used
    ensures SpentByActing(System(items, map[], now))
  {
  }

  /** The step is a call of any client that consumes the approval. */
  predicate Consumes(s: System, step: Step, id: ApprovalID) {
    match step
    case ConsumeApproval(p) =>
      && p in s.processes && s.processes[p].phase == PluginPassed(true)
      && ApprovalOf(s.processes[p].command) == id && Valid(s.items, id, ScopeOf(s.processes[p].command), s.now)
    case ConsumeOther(other, scope) => other == id && OtherScope(scope) && Valid(s.items, id, scope, s.now)
    case _ => false
  }

  lemma SpentStays(s: System, step: Step, id: ApprovalID)
    requires Spent(s, id) || Consumes(s, step, id)
    ensures Spent(Apply(s, step), id)
  {
  }

  lemma {:induction false} SpentForGood(s: System, steps: seq<Step>, i: nat, j: nat, id: ApprovalID)
    requires i < j <= |steps| && Consumes(Run(s, steps[..i]), steps[i], id)
    ensures Spent(Run(s, steps[..j]), id)
    decreases j
  {
    assert steps[..j] == steps[..j - 1] + [steps[j - 1]];
    RunLast(s, steps[..j - 1], steps[j - 1]);
    if i < j - 1 {
      SpentForGood(s, steps, i, j - 1, id);
    }
    SpentStays(Run(s, steps[..j - 1]), steps[j - 1], id);
  }

  /** Whatever the client, an approval is consumed by one call of a run at most. */
  lemma ConsumedOnce(s: System, steps: seq<Step>, i: nat, j: nat, id: ApprovalID)
    requires i < j < |steps| && Consumes(Run(s, steps[..i]), steps[i], id)
    ensures !Consumes(Run(s, steps[..j]), steps[j], id)
  {
    SpentForGood(s, steps, i, j, id);
  }

  ghost predicate WasResolved(steps: seq<Step>, id: ApprovalID, tenant: TenantID) {
    exists i :: 0 <= i < |steps| && steps[i] == ResolveApproval(id, tenant, true)
  }

  /** Every approval that is approved or used was approved by a step of its own tenant. */
  ghost predicate Resolutions(s: System, steps: seq<Step>) {
    forall id :: id in s.items && s.items[id].status in {Approved, Used} ==> WasResolved(steps, id, s.items[id].tenant)
  }

  /** A step makes an approval approved or used only by resolving it, or out of an approved one. */
  lemma ItemsAdvance(s: System, step: Step, id: ApprovalID)
    requires id in Apply(s, step).items && Apply(s, step).items[id].status in {Approved, Used}
    ensures id in s.items && Apply(s, step).items[id].tenant == s.items[id].tenant
    ensures s.items[id].status in {Approved, Used} || step == ResolveApproval(id, s.items[id].tenant, true)
  {
  }

  lemma {:induction false} RunResolves(s: System, steps: seq<Step>)
    requires forall id :: id in s.items ==> s.items[id].status !in {Approved, Used}
    ensures Resolutions(Run(s, steps), steps)
    decreases |steps|
  {
    if steps != [] {
      var init, last := steps[..|steps| - 1], steps[|steps| - 1];
      assert steps == init + [last];
      RunResolves(s, init);
      RunLast(s, init, last);
      var before, after := Run(s, init), Run(s, steps);
      forall id | id in after.items && after.items[id].status in {Approved, Used}
        ensures WasResolved(steps, id, after.items[id].tenant)
      {
        ItemsAdvance(before, last, id);
        if last == ResolveApproval(id, after.items[id].tenant, true) {
          assert steps[|init|] == last;
        } else {
          var i :| 0 <= i < |init| && init[i] == ResolveApproval(id, before.items[id].tenant, true);
          assert steps[i] == init[i];
        }
      }
    }
  }

  /** In every run that starts without commands and without approved or used approvals, a command that
      acts on an approval does so after someone of the approval's tenant approved it. */
  lemma ActingWasApproved(items: map<ApprovalID, Approval>, now: int, steps: seq<Step>, p: nat, id: ApprovalID)
    requires forall i :: i in items ==> items[i].status !in {Approved, Used}
    requires ActsOn(Run(System(items, map[], now), steps), p, id)
    ensures var end := Run(System(items, map[], now), steps);
            id in end.items && end.items[id].status == Used && WasResolved(steps, id, end.items[id].tenant)
  {
    StartIsClean(items, now);
    ApprovalsAreSpentOnce(System(items, map[], now), steps);
    RunResolves(System(items, map[], now), steps);
    assert Spent(Run(System(items, map[], now), steps), id);
  }

  // ----- whose approvals count ----------------------------------------------

  /** The approval is the one the command needs: of its tenant, for its kind of resource, for its resource and
      its action, approved, and not expired. */
  predicate Serves(a: Approval, c: Command, now: int) {
    && a.tenant == c.tenant && a.resourceID == c.resourceID
    && (match c.client
        case PackageRelease => a.resourceType == "agent_package_version" && a.action == "agent.package." + c.action
        case PolicyRelease => a.resourceType == "policy_version" && a.action == "policy." + c.action)
    && a.status == Approved && (a.expiresAt.Some? ==> now <= a.expiresAt.value)
  }

  /** A step makes a command act on an approval exactly when it is the consume step of a command that got past
      policy and plugin with an approval, names this one, and the approval serves it now. */
  lemma ActsOnServingApprovalIff(s: System, step: Step, p: nat, id: ApprovalID)
    ensures ActsOn(Apply(s, step), p, id) && !ActsOn(s, p, id)
            <==> && step == ConsumeApproval(p) && At(s, p, PluginPassed(true))
                 && TrimSpace(s.processes[p].command.approvalField) == id
                 && id in s.items && Serves(s.items[id], s.processes[p].command, s.now)
  {
    if step.ConsumeApproval? {
      ConsumeActsIff(s, step.p, p, id);
    } else if step.ConsumeOther? {
      OthersSpendNoRelease(s, step.id, step.scope);
    } else {
      OnlyConsumeSpends(s, step);
    }
  }

  lemma ConsumeActsIff(s: System, q: nat, p: nat, id: ApprovalID)
    ensures ActsOn(Apply(s, ConsumeApproval(q)), p, id) && !ActsOn(s, p, id)
            <==> && q == p && At(s, p, PluginPassed(true))
                 && TrimSpace(s.processes[p].command.approvalField) == id
                 && id in s.items && Serves(s.items[id], s.processes[p].command, s.now)
  {
  }

  /** It is then used up, and nothing else changes among the approvals. */
  lemma ActingUsesUp(s: System, p: nat, id: ApprovalID)
    requires At(s, p, PluginPassed(true)) && TrimSpace(s.processes[p].command.approvalField) == id
    requires id in s.items && Serves(s.items[id], s.processes[p].command, s.now)
    ensures Apply(s, ConsumeApproval(p)).items == s.items[id := s.items[id].(status := Used)]
  {
  }

  /** A received command is stopped exactly when it names an approval that does not serve it now. */
  lemma PresentedIsChecked(s: System, p: nat)
    requires At(s, p, Received)
    ensures var c := s.processes[p].command;
            var id := TrimSpace(c.approvalField);
            Apply(s, CheckApproval(p)).processes[p].phase ==
            if id == "" then ApprovalChecked(false)
            else if id in s.items && Serves(s.items[id], c, s.now) then ApprovalChecked(true)
            else Stopped
  {
  }

  /** A command sent for an approval leaves a pending request for exactly this tenant, resource and action. */
  lemma RequestIsForCommand(s: System, p: nat, policy: Policy, question: Question, newID: ApprovalID)
    requires At(s, p, ApprovalChecked(false)) && newID !in s.items
    ensures var c := s.processes[p].command;
            var s' := Apply(s, EvaluatePolicy(p, policy, question, newID));
            newID in s'.items
            ==> && At(s', p, Stopped) && s'.items[newID].status == Pending
                && Serves(s'.items[newID].(status := Approved), c, s.now)
                && s'.items == s.items[newID := s'.items[newID]]
  {
  }

  /** The plugin stops exactly canary and stable commands on packages that it does not accept. */
  lemma PluginStopsIff(s: System, p: nat, accepted: bool, approved: bool)
    requires At(s, p, PolicyPassed(approved))
    ensures var c := s.processes[p].command;
            Apply(s, CheckPlugin(p, accepted)).processes[p].phase ==
            if !accepted && c.client == PackageRelease && c.action in {"canary", "stable"} then Stopped
            else PluginPassed(approved)
  {
  }

  /** The policy's verdict moves a checked command on, or stops it. */
  lemma VerdictMoves(s: System, p: nat, policy: Policy, question: Question, newID: ApprovalID, approved: bool)
    requires At(s, p, ApprovalChecked(approved))
    ensures var c := s.processes[p].command;
            var verdict := Evaluate(policy, question.(action := c.action), approved);
            var s' := Apply(s, EvaluatePolicy(p, policy, question, newID));
            && At(s', p, if verdict == Allowed then PolicyPassed(approved) else Stopped)
            && (newID !in s.items ==> (newID in s'.items <==> verdict == ApprovalRequired))
  {
  }

  /** The consume step lets a command without approval act, and one with an approval exactly when that still
      serves it; every other it stops. */
  lemma ConsumeMoves(s: System, p: nat, approved: bool)
    requires At(s, p, PluginPassed(approved))
    ensures var c := s.processes[p].command;
            var id := TrimSpace(c.approvalField);
            var s' := Apply(s, ConsumeApproval(p));
            && At(s', p, if !approved then Acting(false)
                         else if id in s.items && Serves(s.items[id], c, s.now) then Acting(true) else Stopped)
            && (!approved ==> s'.items == s.items)
  {
  }

  /** A command starts out received, under a number of its own. */
  lemma SubmitStarts(s: System, p: nat, c: Command)
    ensures var s' := Apply(s, Submit(p, c));
            && s'.items == s.items
            && s'.processes == if p in s.processes then s.processes else s.processes[p := Process(c, Received)]
  {
  }

  /** A call of another client uses up an approved, unexpired approval of its own kind for exactly what it asks. */
  lemma OtherConsumes(s: System, id: ApprovalID, scope: Scope)
    requires scope.resourceType in {"tool", "cross_group_share_policy", "runtime_hook_binding"}
    ensures var s' := Apply(s, ConsumeOther(id, scope));
            s'.items ==
            if id in s.items && s.items[id].status == Approved
              && (s.items[id].expiresAt.Some? ==> s.now <= s.items[id].expiresAt.value)
              && s.items[id].tenant == scope.tenant && s.items[id].resourceType == scope.resourceType
              && s.items[id].resourceID == scope.resourceID && s.items[id].action == scope.action
            then s.items[id := s.items[id].(status := Used)]
            else s.items
  {
  }

  /** Requests are opened pending under new ids; resolving settles a pending request of the tenant; time only
      moves on. */
  lemma ServiceSteps(s: System, id: ApprovalID, scope: Scope, expiresAt: Option<int>, tenant: TenantID, approve: bool,
                     now: int)
    ensures Apply(s, OpenApproval(id, scope, expiresAt)).items ==
            if id in s.items then s.items
            else s.items[id := Approval(scope.tenant, scope.resourceType, scope.resourceID, scope.action, Pending,
                                        expiresAt)]
    ensures Apply(s, ResolveApproval(id, tenant, approve)).items ==
            if id in s.items && s.items[id].status == Pending && s.items[id].tenant == tenant
            then s.items[id := s.items[id].(status := if approve then Approved else Rejected)]
            else s.items
    ensures Apply(s, Tick(now)).now == if now > s.now then now else s.now
  {
  }

  // ----- acting needs a verdict ---------------------------------------------

  /** A command past validation with approval presented one; a stopped command stays stopped and an
      acting one acting. */
  lemma StoppedForGood(s: System, step: Step, p: nat)
    requires At(s, p, Stopped) || At(s, p, Acting(true)) || At(s, p, Acting(false))
    ensures p in Apply(s, step).processes && Apply(s, step).processes[p] == s.processes[p]
  {
  }

  /** This step is the policy allowing the command, as one with or without a valid approval. */
  predicate Allows(step: Step, p: nat, c: Command, approved: bool) {
    step.EvaluatePolicy? && step.p == p
      && Evaluate(step.policy, step.question.(action := c.action), approved) == Allowed
  }

  predicate Accepts(step: Step, p: nat) {
    step.CheckPlugin? && step.p == p && step.accepted
  }

  ghost predicate WasAllowed(steps: seq<Step>, p: nat, c: Command, approved: bool) {
    exists i :: 0 <= i < |steps| && Allows(steps[i], p, c, approved)
  }

  ghost predicate WasAccepted(steps: seq<Step>, p: nat, c: Command) {
    ChecksPlugin(c) ==> exists i :: 0 <= i < |steps| && Accepts(steps[i], p)
  }

  /** How far the process got, its steps justify. */
  ghost predicate Justified(s: System, steps: seq<Step>, p: nat) {
    p in s.processes ==>
      match s.processes[p].phase
      case PolicyPassed(approved) => WasAllowed(steps, p, s.processes[p].command, approved)
      case PluginPassed(approved) => WasAllowed(steps, p, s.processes[p].command, approved)
        && WasAccepted(steps, p, s.processes[p].command)
      case Acting(approved) => WasAllowed(steps, p, s.processes[p].command, approved)
        && WasAccepted(steps, p, s.processes[p].command)
      case _ => true
  }

  lemma {:induction false} RunLast(s: System, steps: seq<Step>, step: Step)
    ensures Run(s, steps + [step]) == Apply(Run(s, steps), step)
    decreases |steps|
  {
    if steps == [] {
      assert [step][1..] == [];
    } else {
      assert (steps + [step])[1..] == steps[1..] + [step];
      RunLast(Apply(s, steps[0]), steps[1..], step);
    }
  }

  lemma MoreStepsJustifyMore(steps: seq<Step>, step: Step, p: nat, c: Command, approved: bool)
    ensures WasAllowed(steps, p, c, approved) || Allows(step, p, c, approved)
            ==> WasAllowed(steps + [step], p, c, approved)
    ensures WasAccepted(steps, p, c) || Accepts(step, p) ==> WasAccepted(steps + [step], p, c)
  {
    var longer := steps + [step];
    assert longer[|steps|] == step && forall i :: 0 <= i < |steps| ==> longer[i] == steps[i];
    if WasAllowed(steps, p, c, approved) {
      var i :| 0 <= i < |steps| && Allows(steps[i], p, c, approved);
      assert Allows(longer[i], p, c, approved);
    }
    if i :| 0 <= i < |steps| && Accepts(steps[i], p) {
      assert Accepts(longer[i], p);
    }
  }

  /** What a step may do to a process: advance it on the step's own grounds, or stop it. */
  predicate Advances(was: Process, now: Process, step: Step, p: nat) {
    && now.command == was.command
    && match now.phase
       case Received => was.phase == Received
       case ApprovalChecked(_) => was.phase == now.phase || was.phase == Received
       case PolicyPassed(approved) =>
         was.phase == now.phase || (was.phase == ApprovalChecked(approved) && Allows(step, p, was.command, approved))
       case PluginPassed(approved) =>
         was.phase == now.phase
           || (was.phase == PolicyPassed(approved) && (ChecksPlugin(was.command) ==> Accepts(step, p)))
       case Acting(approved) => was.phase == now.phase || was.phase == PluginPassed(approved)
       case Stopped => true
  }

  lemma StepAdvances(s: System, step: Step, p: nat)
    ensures p in s.processes
            ==> p in Apply(s, step).processes && Advances(s.processes[p], Apply(s, step).processes[p], step, p)
    ensures p !in s.processes && p in Apply(s, step).processes ==> Apply(s, step).processes[p].phase == Received
  {
  }

  lemma StepJustifies(s: System, steps: seq<Step>, step: Step, p: nat)
    requires Justified(s, steps, p)
    ensures Justified(Apply(s, step), steps + [step], p)
  {
    StepAdvances(s, step, p);
    if p in s.processes {
      var c := s.processes[p].command;
      MoreStepsJustifyMore(steps, step, p, c, true);
      MoreStepsJustifyMore(steps, step, p, c, false);
    }
  }

  /** In every interleaving a command acts only after the policy allowed it, as a command with an
      approval if it acts on one and as a command without if not, and after its plugin was accepted where
      plugins are checked. */
  lemma {:induction false} ActsOnlyIfAllowed(s: System, steps: seq<Step>, p: nat)
    requires p !in s.processes
    ensures Justified(Run(s, steps), steps, p)
    decreases |steps|
  {
    if steps != [] {
      var init, last := steps[..|steps| - 1], steps[|steps| - 1];
      assert steps == init + [last];
      ActsOnlyIfAllowed(s, init, p);
      RunLast(s, init, last);
      StepJustifies(Run(s, init), init, last, p);
    }
  }

  /** The policy is asked for an approval only by a command that presents none: a command whose
      approval was valid is never answered with a request for another. */
  lemma ApprovedIsNotAskedAgain(s: System, p: nat, policy: Policy, question: Question, newID: ApprovalID)
    requires At(s, p, ApprovalChecked(true))
    ensures Apply(s, EvaluatePolicy(p, policy, question, newID)).items == s.items
  {
    ApprovalOnlyHelps(policy, question.(action := s.processes[p].command.action));
  }
}
