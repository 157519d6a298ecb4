/** The release policy's verdict on a release command. */
module ReleasePolicy {
  import opened ReleaseState
  import opened Text

  datatype Verdict = Allowed | ApprovalRequired | Denied

  datatype Policy = Policy(requireRollbackReason: bool, defaultCanaryPercent: int, maxCanaryPercent: int,
                           maxCanaryPercentWithoutApproval: int, requireApprovalForStable: bool,
                           requireCanaryBeforeStable: bool)

  /** `inWindow` says whether the clock is inside an allowed deployment window. */
  datatype Question = Question(action: string, status: Status, canaryPercent: int, reason: string, inWindow: bool)

  function OrDefault(value: int, default: int): int {
    if value == 0 then default else value
  }

  function Evaluate(p: Policy, q: Question, approved: bool): Verdict {
    if !q.inWindow && !approved then ApprovalRequired
    else if q.action == "canary" then
      var percent := OrDefault(q.canaryPercent, OrDefault(p.defaultCanaryPercent, 10));
      if percent <= 0 || percent > OrDefault(p.maxCanaryPercent, 100) then Denied
      else if p.maxCanaryPercentWithoutApproval > 0 && percent > p.maxCanaryPercentWithoutApproval && !approved
        then ApprovalRequired
      else Allowed
    else if q.action == "stable" then
      if p.requireCanaryBeforeStable && q.status != Canary then Denied
      else if p.requireApprovalForStable && !approved then ApprovalRequired
      else Allowed
    else if q.action == "rollback" then
      if p.requireRollbackReason && TrimSpace(q.reason) == "" then Denied else Allowed
    else Denied
  }

  /** An approval never turns a verdict against a command: with it no approval is asked for, what was
      allowed stays allowed and what was denied stays denied. */
  lemma ApprovalOnlyHelps(p: Policy, q: Question)
    ensures Evaluate(p, q, true) != ApprovalRequired
    ensures Evaluate(p, q, false) == ApprovalRequired || Evaluate(p, q, true) == Evaluate(p, q, false)
  {
  }

  /** The percentage asked for, with the defaults of the request and of the program. */
  function Percent(p: Policy, q: Question): int {
    if q.canaryPercent != 0 then q.canaryPercent else if p.defaultCanaryPercent != 0 then p.defaultCanaryPercent else 10
  }

  predicate PercentAllowed(p: Policy, q: Question) {
    1 <= Percent(p, q) <= if p.maxCanaryPercent != 0 then p.maxCanaryPercent else 100
  }

  /** What the policy forbids even with an approval. */
  predicate Forbidden(p: Policy, q: Question) {
    || (q.action == "canary" && !PercentAllowed(p, q))
    || (q.action == "stable" && p.requireCanaryBeforeStable && q.status != Canary)
    || (q.action == "rollback" && p.requireRollbackReason && TrimSpace(q.reason) == "")
    || (q.action != "canary" && q.action != "stable" && q.action != "rollback")
  }

  /** What it allows only with one. */
  predicate NeedsApproval(p: Policy, q: Question) {
    || (q.action == "canary" && 0 < p.maxCanaryPercentWithoutApproval < Percent(p, q))
    || (q.action == "stable" && p.requireApprovalForStable)
  }

  /** Outside the window only approved commands are looked at; those are denied when forbidden, and otherwise
      sent for an approval they need and lack. */
  lemma VerdictIs(p: Policy, q: Question, approved: bool)
    ensures var verdict := Evaluate(p, q, approved);
            && (verdict == ApprovalRequired
                <==> !approved && (!q.inWindow || (!Forbidden(p, q) && NeedsApproval(p, q))))
            && (verdict == Denied <==> (q.inWindow || approved) && Forbidden(p, q))
  {
  }
}
