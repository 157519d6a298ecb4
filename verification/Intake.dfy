/** Intake policies: a keyed store, and the reply picked by the best matching policy. */
module Intake {
  import opened Options
  import opened Text
  import opened Sorting

  type Key = string

  datatype Policy = Policy(tenant: string, policyID: string, name: string, status: string, priority: int,
                           agentID: string, agentVersion: string, channel: string, matchType: string, pattern: string,
                           replyText: string, replyKind: string, continueToRun: bool, version: string, createdAt: int,
                           updatedAt: int)

  datatype Request = Request(tenant: string, agentID: string, agentVersion: string, channel: string, input: string)

  /** Case folding and regular expressions, as fixed functions. */
  datatype Matcher = Matcher(equalFold: (string, string) -> bool, lower: string -> string, compiles: string -> bool,
                             regexMatches: (string, string) -> bool)

  function KeyOf(tenant: string, policyID: string): Key {
    Join2(tenant, TrimSpace(policyID))
  }

  function Normalize(p: Policy, now: int, newID: string): Policy {
    var id := FirstNonEmpty(TrimSpace(p.policyID), newID);
    p.(policyID := id,
       name := FirstNonEmpty(TrimSpace(p.name), id),
       status := FirstNonEmpty(TrimSpace(p.status), "enabled"),
       channel := TrimSpace(p.channel),
       matchType := FirstNonEmpty(TrimSpace(p.matchType), "contains"),
       pattern := TrimSpace(p.pattern),
       replyText := TrimSpace(p.replyText),
       replyKind := FirstNonEmpty(TrimSpace(p.replyKind), "acknowledgement"),
       version := FirstNonEmpty(p.version, "v1"),
       createdAt := if p.createdAt == 0 then now else p.createdAt,
       updatedAt := now)
  }

  predicate Valid(p: Policy, m: Matcher) {
    && p.status in {"draft", "enabled", "disabled"}
    && p.matchType in {"always", "exact", "prefix", "contains", "regex"}
    && (p.matchType != "always" ==> p.pattern != "")
    && (p.matchType == "regex" ==> m.compiles(p.pattern))
    && p.replyText != ""
    && p.replyKind in {"status_update", "acknowledgement", "policy_notice"}
  }

  // ----- the store ----------------------------------------------------------

  type Store = map<Key, Policy>

  function Upsert(s: Store, p: Policy, now: int, newID: string, m: Matcher): (Store, bool) {
    var normal := Normalize(p, now, newID);
    if Valid(normal, m) then (s[KeyOf(normal.tenant, normal.policyID) := normal], true) else (s, false)
  }

  function Delete(s: Store, tenant: string, policyID: string): Store {
    s - {KeyOf(tenant, TrimSpace(policyID))}
  }

  datatype Operation =
    | UpsertPolicy(policy: Policy, now: int, newID: string)
    | DeletePolicy(tenant: string, policyID: string)

  function Apply(s: Store, op: Operation, m: Matcher): Store {
    match op
    case UpsertPolicy(p, now, newID) => Upsert(s, p, now, newID, m).0
    case DeletePolicy(tenant, policyID) => Delete(s, tenant, policyID)
  }

  function Run(s: Store, ops: seq<Operation>, m: Matcher): Store
    decreases |ops|
  {
    if ops == [] then s else Run(Apply(s, ops[0], m), ops[1..], m)
  }

  /** Every policy is valid and stored under its own key. */
  ghost predicate Sound(s: Store, m: Matcher) {
    forall k :: k in s ==> Valid(s[k], m) && KeyOf(s[k].tenant, s[k].policyID) == k
  }

  lemma PutKeepsSound(s: Store, p: Policy, m: Matcher)
    requires Sound(s, m) && Valid(p, m)
    ensures Sound(s[KeyOf(p.tenant, p.policyID) := p], m)
  {
  }

  lemma ApplyKeepsSound(s: Store, op: Operation, m: Matcher)
    requires Sound(s, m)
    ensures Sound(Apply(s, op, m), m)
  {
    match op
    case UpsertPolicy(p, now, newID) =>
      if Valid(Normalize(p, now, newID), m) { PutKeepsSound(s, Normalize(p, now, newID), m); }
    case DeletePolicy(tenant, policyID) =>
  }

  lemma {:induction false} RunKeepsSound(s: Store, ops: seq<Operation>, m: Matcher)
    requires Sound(s, m)
    ensures Sound(Run(s, ops, m), m)
    decreases |ops|
  {
    if ops != [] {
      ApplyKeepsSound(s, ops[0], m);
      RunKeepsSound(Apply(s, ops[0], m), ops[1..], m);
    }
  }

  // ----- evaluation ---------------------------------------------------------

  predicate Applies(p: Policy, r: Request, m: Matcher) {
    && p.status == "enabled"
    && (p.tenant == "" || p.tenant == r.tenant)
    && (p.agentID == "" || p.agentID == r.agentID)
    && (p.agentVersion == "" || p.agentVersion == r.agentVersion)
    && (p.channel == "" || m.equalFold(p.channel, r.channel))
  }

  predicate HasPrefix(s: string, prefix: string) {
    prefix <= s
  }

  /** Whether the policy matches the input; None is the error of a policy that was never validated. */
  function MatchPolicy(p: Policy, input: string, m: Matcher): Option<bool> {
    if p.matchType == "always" then Some(true)
    else if p.matchType == "exact" then Some(m.equalFold(TrimSpace(input), TrimSpace(p.pattern)))
    else if p.matchType == "prefix" then Some(HasPrefix(m.lower(TrimSpace(input)), m.lower(p.pattern)))
    else if p.matchType == "contains" then Some(Contains(m.lower(input), m.lower(p.pattern)))
    else if p.matchType == "regex" then (if m.compiles(p.pattern) then Some(m.regexMatches(p.pattern, input)) else None)
    else None
  }

  /** Sort order: higher priority, then later update, then smaller id. */
  predicate Better(a: Policy, b: Policy) {
    if a.priority != b.priority then a.priority > b.priority
    else if a.updatedAt != b.updatedAt then a.updatedAt > b.updatedAt
    else Less(a.policyID, b.policyID)
  }

  lemma BetterIsWeakOrder()
    ensures WeakOrder(Better)
  {
    LessIsStrictTotalOrder();
  }

  /** The policies of the tenant and the shared ones, in the order `visit` in which Go ranges over
      the map. */
  function Visible(s: Store, visit: seq<Key>, tenant: string): seq<Policy>
    requires forall k :: k in visit ==> k in s
  {
    if visit == [] then []
    else Shown(s[visit[0]], tenant) + Visible(s, visit[1..], tenant)
  }

  function Shown(p: Policy, tenant: string): seq<Policy> {
    if p.tenant == tenant || p.tenant == "" then [p] else []
  }

  function List(s: Store, visit: seq<Key>, tenant: string): seq<Policy>
    requires forall k :: k in visit ==> k in s
  {
    Sort(Visible(s, visit, tenant), Better)
  }

  datatype Result = Failed | Replied(policy: Option<Policy>)

  function FirstReply(policies: seq<Policy>, r: Request, m: Matcher): Result {
    if policies == [] then Replied(None)
    else if !Applies(policies[0], r, m) then FirstReply(policies[1..], r, m)
    else
      match MatchPolicy(policies[0], r.input, m)
      case None => Failed
      case Some(matched) => if matched then Replied(Some(policies[0])) else FirstReply(policies[1..], r, m)
  }

  function Evaluate(s: Store, visit: seq<Key>, r: Request, m: Matcher): Result
    requires forall k :: k in visit ==> k in s
  {
    FirstReply(Sort(List(s, visit, r.tenant), Better), r, m)
  }

  /** `visit` goes through the keys of the store once each. */
  ghost predicate Visits(visit: seq<Key>, s: Store) {
    NoRepeats(visit) && forall k :: k in visit <==> k in s
  }

  /** The policy applies to the request and matches its input. */
  predicate Fits(p: Policy, r: Request, m: Matcher) {
    Applies(p, r, m) && MatchPolicy(p, r.input, m) == Some(true)
  }

  predicate ShownAt(s: Store, visit: seq<Key>, p: Policy, tenant: string)
    requires forall k :: k in visit ==> k in s
  {
    (p.tenant == tenant || p.tenant == "") && exists k :: k in visit && s[k] == p
  }

  lemma {:induction false} VisibleHolds(s: Store, visit: seq<Key>, tenant: string)
    requires forall k :: k in visit ==> k in s
    ensures forall p :: p in Visible(s, visit, tenant) <==> ShownAt(s, visit, p, tenant)
  {
    if visit != [] {
      VisibleHolds(s, visit[1..], tenant);
      forall p ensures p in Visible(s, visit, tenant) <==> ShownAt(s, visit, p, tenant) {
        assert visit == [visit[0]] + visit[1..];
        if k :| k in visit && s[k] == p && (p.tenant == tenant || p.tenant == "") {
          if k != visit[0] { assert k in visit[1..]; }
        }
      }
    }
  }

  /** Evaluation works on the sorted visible policies: sorting them again changes nothing. */
  lemma EvaluateSortsOnce(s: Store, visit: seq<Key>, r: Request, m: Matcher)
    requires forall k :: k in visit ==> k in s
    ensures Evaluate(s, visit, r, m) == FirstReply(List(s, visit, r.tenant), r, m)
    ensures Sorted(List(s, visit, r.tenant), Better)
    ensures forall p :: p in List(s, visit, r.tenant) <==> p in Visible(s, visit, r.tenant)
  {
    BetterIsWeakOrder();
    SortSorted(Visible(s, visit, r.tenant), Better);
    SortElements(Visible(s, visit, r.tenant), Better);
    SortOfSorted(List(s, visit, r.tenant), Better);
  }

  lemma ValidMatches(p: Policy, input: string, m: Matcher)
    requires Valid(p, m)
    ensures MatchPolicy(p, input, m).Some?
  {
  }

  ghost predicate IsFirst(policies: seq<Policy>, r: Request, m: Matcher, i: int) {
    0 <= i < |policies| && Fits(policies[i], r, m) && forall j :: 0 <= j < i ==> !Fits(policies[j], r, m)
  }

  lemma {:induction false} FirstReplyIsFirst(policies: seq<Policy>, r: Request, m: Matcher)
    requires forall i :: 0 <= i < |policies| ==> Valid(policies[i], m)
    ensures FirstReply(policies, r, m).Replied?
    ensures FirstReply(policies, r, m).policy.None? <==> forall i :: 0 <= i < |policies| ==> !Fits(policies[i], r, m)
    ensures FirstReply(policies, r, m).policy.Some? ==>
              exists i :: IsFirst(policies, r, m, i) && policies[i] == FirstReply(policies, r, m).policy.value
  {
    if policies != [] {
      ValidMatches(policies[0], r.input, m);
      if Fits(policies[0], r, m) {
        assert IsFirst(policies, r, m, 0);
      } else {
        var rest := policies[1..];
        FirstReplyIsFirst(rest, r, m);
        var reply := FirstReply(rest, r, m);
        assert FirstReply(policies, r, m) == reply;
        assert forall i :: 0 < i < |policies| ==> policies[i] == rest[i - 1];
        if reply.policy.Some? {
          var i :| IsFirst(rest, r, m, i) && rest[i] == reply.policy.value;
          assert IsFirst(policies, r, m, i + 1);
        }
      }
    }
  }

  lemma FirstReplyIsBest(policies: seq<Policy>, r: Request, m: Matcher)
    requires Sorted(policies, Better) && forall p :: p in policies ==> Valid(p, m)
    ensures var reply := FirstReply(policies, r, m);
            && reply.Replied?
            && (reply.policy.None? <==> forall p :: p in policies ==> !Fits(p, r, m))
            && (reply.policy.Some? ==> reply.policy.value in policies && Fits(reply.policy.value, r, m)
                                       && forall p :: p in policies && Fits(p, r, m) ==> !Better(p, reply.policy.value))
  {
    FirstReplyIsFirst(policies, r, m);
    BetterIsWeakOrder();
    var reply := FirstReply(policies, r, m);
    if reply.policy.Some? {
      var i :| IsFirst(policies, r, m, i) && policies[i] == reply.policy.value;
      forall p | p in policies && Fits(p, r, m) ensures !Better(p, policies[i]) {
        var j :| 0 <= j < |policies| && policies[j] == p;
      }
    }
  }

  /** A best answer: it fits and nothing that fits is better. */
  ghost predicate IsBest(s: Store, k: Key, r: Request, m: Matcher) {
    k in s && Fits(s[k], r, m) && forall j :: j in s && Fits(s[j], r, m) ==> !Better(s[j], s[k])
  }

  /** The list holds stored policies only, among them every one that fits. */
  lemma ListHolds(s: Store, visit: seq<Key>, r: Request, m: Matcher)
    requires Visits(visit, s)
    ensures forall p :: p in List(s, visit, r.tenant) ==> exists k :: k in s && s[k] == p
    ensures forall k :: k in s && Fits(s[k], r, m) ==> s[k] in List(s, visit, r.tenant)
  {
    EvaluateSortsOnce(s, visit, r, m);
    VisibleHolds(s, visit, r.tenant);
    forall k | k in s && Fits(s[k], r, m) ensures s[k] in List(s, visit, r.tenant) {
      assert k in visit && s[k] in Visible(s, visit, r.tenant);
    }
    forall p | p in List(s, visit, r.tenant) ensures exists k :: k in s && s[k] == p {
      var k :| k in visit && s[k] == p;
      assert k in s;
    }
  }

  /** In a sound store evaluation never fails; it answers exactly when some policy fits, and then with
      one that no fitting policy beats on priority, update time and id. */
  lemma EvaluateIsBest(s: Store, visit: seq<Key>, r: Request, m: Matcher)
    requires Sound(s, m) && Visits(visit, s)
    ensures var result := Evaluate(s, visit, r, m);
            && result.Replied?
            && (result.policy.None? <==> forall k :: k in s ==> !Fits(s[k], r, m))
            && (result.policy.Some? ==> exists k :: IsBest(s, k, r, m) && s[k] == result.policy.value)
  {
    var list := List(s, visit, r.tenant);
    EvaluateSortsOnce(s, visit, r, m);
    ListHolds(s, visit, r, m);
    FirstReplyIsBest(list, r, m);
    var result := Evaluate(s, visit, r, m);
    if result.policy.Some? {
      var k :| k in s && s[k] == result.policy.value;
      assert IsBest(s, k, r, m);
    }
  }

  /** In every store reached through upserts and deletes. */
  lemma ReachedStoresEvaluate(ops: seq<Operation>, visit: seq<Key>, r: Request, m: Matcher)
    requires Visits(visit, Run(map[], ops, m))
    ensures var s := Run(map[], ops, m);
            var result := Evaluate(s, visit, r, m);
            && Sound(s, m) && result.Replied?
            && (result.policy.Some? ==> exists k :: IsBest(s, k, r, m) && s[k] == result.policy.value)
            && (result.policy.None? <==> forall k :: k in s ==> !Fits(s[k], r, m))
  {
    RunKeepsSound(map[], ops, m);
    EvaluateIsBest(Run(map[], ops, m), visit, r, m);
  }

  // ----- which policy answers, said of policies and requests ----------------

  /** The policy is enabled, for the tenant and agent asked, and its pattern is found in the input as its kind
      of match says. */
  predicate Answers(p: Policy, r: Request, m: Matcher) {
    && p.status == "enabled" && (p.tenant == "" || p.tenant == r.tenant)
    && (p.agentID == "" || p.agentID == r.agentID) && (p.agentVersion == "" || p.agentVersion == r.agentVersion)
    && (p.channel == "" || m.equalFold(p.channel, r.channel))
    && (|| p.matchType == "always"
        || (p.matchType == "exact" && m.equalFold(TrimSpace(r.input), TrimSpace(p.pattern)))
        || (p.matchType == "prefix" && m.lower(p.pattern) <= m.lower(TrimSpace(r.input)))
        || (p.matchType == "contains" && Contains(m.lower(r.input), m.lower(p.pattern)))
        || (p.matchType == "regex" && m.compiles(p.pattern) && m.regexMatches(p.pattern, r.input)))
  }

  lemma AnswersIff(p: Policy, r: Request, m: Matcher)
    ensures Fits(p, r, m) <==> Answers(p, r, m)
  {
  }

  /** No lower priority; of one priority not updated before; of one time no greater id. */
  predicate RanksAtLeast(p: Policy, q: Policy) {
    p.priority > q.priority
    || (p.priority == q.priority
        && (p.updatedAt > q.updatedAt
           || (p.updatedAt == q.updatedAt && (p.policyID == q.policyID || Less(p.policyID, q.policyID)))))
  }

  ghost predicate RanksFirst(s: Store, k: Key, r: Request, m: Matcher) {
    k in s && Answers(s[k], r, m) && forall j :: j in s && Answers(s[j], r, m) ==> RanksAtLeast(s[k], s[j])
  }

  /** In every reached store a request is answered exactly when some stored policy answers it, and then by one
      that none ranks before: by priority, then the later update, then the smaller id. */
  lemma RankedFirstAnswers(ops: seq<Operation>, visit: seq<Key>, r: Request, m: Matcher)
    requires Visits(visit, Run(map[], ops, m))
    ensures var s := Run(map[], ops, m);
            var result := Evaluate(s, visit, r, m);
            && result.Replied?
            && (result.policy.None? <==> forall k :: k in s ==> !Answers(s[k], r, m))
            && (result.policy.Some? ==> exists k :: RanksFirst(s, k, r, m) && s[k] == result.policy.value)
  {
    var s := Run(map[], ops, m);
    ReachedStoresEvaluate(ops, visit, r, m);
    var result := Evaluate(s, visit, r, m);
    forall k | k in s ensures Fits(s[k], r, m) <==> Answers(s[k], r, m) {
      AnswersIff(s[k], r, m);
    }
    if result.policy.Some? {
      var k :| IsBest(s, k, r, m) && s[k] == result.policy.value;
      BestRanksFirst(s, k, r, m);
    }
  }

  lemma BestRanksFirst(s: Store, k: Key, r: Request, m: Matcher)
    requires IsBest(s, k, r, m)
    ensures RanksFirst(s, k, r, m)
  {
    AnswersIff(s[k], r, m);
    LessIsStrictTotalOrder();
    forall j | j in s && Answers(s[j], r, m) ensures RanksAtLeast(s[k], s[j]) {
      AnswersIff(s[j], r, m);
    }
  }

  /** What is stored of a policy: trimmed, with defaults for what is blank. */
  predicate StoredAs(p: Policy, now: int, newID: string, stored: Policy) {
    && stored.tenant == p.tenant && stored.priority == p.priority && stored.agentID == p.agentID
    && stored.agentVersion == p.agentVersion && stored.continueToRun == p.continueToRun
    && stored.policyID == (if TrimSpace(p.policyID) == "" then newID else TrimSpace(p.policyID))
    && stored.name == (if TrimSpace(p.name) == "" then stored.policyID else TrimSpace(p.name))
    && stored.status == (if TrimSpace(p.status) == "" then "enabled" else TrimSpace(p.status))
    && stored.matchType == (if TrimSpace(p.matchType) == "" then "contains" else TrimSpace(p.matchType))
    && stored.replyKind == (if TrimSpace(p.replyKind) == "" then "acknowledgement" else TrimSpace(p.replyKind))
    && stored.channel == TrimSpace(p.channel) && stored.pattern == TrimSpace(p.pattern)
    && stored.replyText == TrimSpace(p.replyText) && stored.version == (if p.version == "" then "v1" else p.version)
    && stored.createdAt == (if p.createdAt == 0 then now else p.createdAt) && stored.updatedAt == now
  }

  /** A policy is accepted exactly when its status, kind of match and kind of reply are known, it has a reply,
      and a pattern if it needs one, which compiles if it is an expression. */
  predicate Acceptable(p: Policy, m: Matcher) {
    && (p.status == "draft" || p.status == "enabled" || p.status == "disabled")
    && (p.matchType == "always"
        || (p.pattern != "" && (p.matchType == "exact" || p.matchType == "prefix" || p.matchType == "contains"
                               || (p.matchType == "regex" && m.compiles(p.pattern)))))
    && p.replyText != ""
    && (p.replyKind == "status_update" || p.replyKind == "acknowledgement" || p.replyKind == "policy_notice")
  }

  lemma StoredAsNormal(p: Policy, now: int, newID: string, stored: Policy)
    requires StoredAs(p, now, newID, stored)
    ensures stored == Normalize(p, now, newID)
  {
  }

  lemma AcceptableIff(p: Policy, m: Matcher)
    ensures Valid(p, m) <==> Acceptable(p, m)
  {
  }

  lemma UpsertStores(s: Store, p: Policy, now: int, newID: string, m: Matcher, stored: Policy)
    requires StoredAs(p, now, newID, stored)
    ensures Upsert(s, p, now, newID, m)
            == if Acceptable(stored, m) then (s[stored.tenant + "\0" + TrimSpace(stored.policyID) := stored], true)
               else (s, false)
  {
    StoredAsNormal(p, now, newID, stored);
    AcceptableIff(stored, m);
    UpsertPuts(s, p, now, newID, m);
  }

  lemma UpsertPuts(s: Store, p: Policy, now: int, newID: string, m: Matcher)
    ensures var normal := Normalize(p, now, newID);
            Upsert(s, p, now, newID, m)
            == if Valid(normal, m) then (s[normal.tenant + "\0" + TrimSpace(normal.policyID) := normal], true)
               else (s, false)
  {
  }

  // ----- map order ----------------------------------------------------------

  predicate SameRank(a: Policy, b: Policy) {
    a.priority == b.priority && a.updatedAt == b.updatedAt && a.policyID == b.policyID
  }

  /** Two different stored policies are both best: they tie on priority, update time and id. */
  ghost predicate Ambiguous(s: Store, r: Request, m: Matcher) {
    exists k, k' :: k != k' && IsBest(s, k, r, m) && IsBest(s, k', r, m)
  }

  lemma BestTie(s: Store, k: Key, k': Key, r: Request, m: Matcher)
    requires IsBest(s, k, r, m) && IsBest(s, k', r, m)
    ensures SameRank(s[k], s[k'])
  {
    LessIsStrictTotalOrder();
  }

  /** A tie is always between the tenant's own policy and a shared one with the same id. */
  lemma TieIsOwnAgainstShared(s: Store, k: Key, k': Key, r: Request, m: Matcher)
    requires Sound(s, m) && k != k' && IsBest(s, k, r, m) && IsBest(s, k', r, m)
    ensures s[k].policyID == s[k'].policyID && {s[k].tenant, s[k'].tenant} == {"", r.tenant} && r.tenant != ""
  {
    BestTie(s, k, k', r, m);
    assert s[k].tenant != s[k'].tenant;
  }

  lemma {:induction false} FirstReplyOfFront(p: Policy, rest: seq<Policy>, r: Request, m: Matcher)
    requires Fits(p, r, m) && forall q :: q in rest && Fits(q, r, m) ==> !Better(q, p)
    requires forall q :: q in rest ==> Valid(q, m)
    ensures FirstReply(Insert(p, rest, Better), r, m) == Replied(Some(p))
  {
    if rest != [] && Better(rest[0], p) {
      ValidMatches(rest[0], r.input, m);
      assert !Fits(rest[0], r, m);
      FirstReplyOfFront(p, rest[1..], r, m);
    }
  }

  lemma VisibleAreStored(s: Store, visit: seq<Key>, tenant: string, p: Policy)
    requires (forall k :: k in visit ==> k in s) && p in Visible(s, visit, tenant)
    ensures exists k :: k in s && s[k] == p
  {
    VisibleHolds(s, visit, tenant);
  }

  /** Among tied best policies the one the map order visits first wins. */
  lemma FirstVisitedWins(s: Store, k: Key, visit: seq<Key>, r: Request, m: Matcher)
    requires Sound(s, m) && Visits(visit, s) && visit != [] && visit[0] == k && IsBest(s, k, r, m)
    ensures Evaluate(s, visit, r, m) == Replied(Some(s[k]))
  {
    var others := Visible(s, visit[1..], r.tenant);
    SortElements(others, Better);
    forall q | q in Sort(others, Better) ensures Valid(q, m) && (Fits(q, r, m) ==> !Better(q, s[k])) {
      VisibleAreStored(s, visit[1..], r.tenant, q);
    }
    FirstReplyOfFront(s[k], Sort(others, Better), r, m);
    var all := Visible(s, visit, r.tenant);
    assert all == [s[k]] + others;
    assert all[0] == s[k] && all[1..] == others;
    EvaluateSortsOnce(s, visit, r, m);
  }

  lemma VisitFirst(s: Store, k: Key) returns (visit: seq<Key>)
    requires k in s
    ensures Visits(visit, s) && visit != [] && visit[0] == k
  {
    var rest := Enumerate(s.Keys - {k});
    visit := [k] + rest;
  }

  lemma AmbiguousMeansTwoAnswers(s: Store, r: Request, m: Matcher) returns (visit: seq<Key>, visit': seq<Key>)
    requires Sound(s, m) && Ambiguous(s, r, m)
    ensures Visits(visit, s) && Visits(visit', s) && Evaluate(s, visit, r, m) != Evaluate(s, visit', r, m)
  {
    var k, k' :| k != k' && IsBest(s, k, r, m) && IsBest(s, k', r, m);
    visit := VisitFirst(s, k);
    visit' := VisitFirst(s, k');
    FirstVisitedWins(s, k, visit, r, m);
    FirstVisitedWins(s, k', visit', r, m);
    assert s[k] != s[k'];
  }

  /** The answer is independent of the map's iteration order exactly when no two different stored
      policies tie as best. */
  lemma OrderMattersIff(s: Store, r: Request, m: Matcher)
    requires Sound(s, m)
    ensures (forall visit, visit' :: Visits(visit, s) && Visits(visit', s) ==>
               Evaluate(s, visit, r, m) == Evaluate(s, visit', r, m))
            <==> !Ambiguous(s, r, m)
  {
    if Ambiguous(s, r, m) {
      var visit, visit' := AmbiguousMeansTwoAnswers(s, r, m);
    } else {
      forall visit, visit' | Visits(visit, s) && Visits(visit', s)
        ensures Evaluate(s, visit, r, m) == Evaluate(s, visit', r, m)
      {
        SameBest(s, visit, s, visit', r, m);
      }
    }
  }

  /** A policy that answers everything; of the shared tenant or one of its own. */
  function AnswersAll(tenant: string): Policy {
    Policy(tenant, "p", "p", "enabled", 0, "", "", "", "always", "", "reply", "acknowledgement", false, "v1", 1, 1)
  }

  lemma AnswersAllIsStored(s: Store, tenant: string, m: Matcher)
    ensures Upsert(s, AnswersAll(tenant), 1, "", m) == (s[Join2(tenant, "p") := AnswersAll(tenant)], true)
  {
    Trimmed("p");
    Trimmed("enabled");
    Trimmed("always");
    Trimmed("reply");
    Trimmed("acknowledgement");
    assert Normalize(AnswersAll(tenant), 1, "") == AnswersAll(tenant);
  }

  /** A shared and an own policy of one id, written at the same time. */
  const TIED_WRITES := [UpsertPolicy(AnswersAll(""), 1, ""), UpsertPolicy(AnswersAll("t"), 1, "")]

  function TiedStore(): Store {
    map[Join2("", "p") := AnswersAll(""), Join2("t", "p") := AnswersAll("t")]
  }

  lemma RunOne(s: Store, s': Store, ops: seq<Operation>, m: Matcher)
    requires ops != [] && Apply(s, ops[0], m) == s'
    ensures Run(s, ops, m) == Run(s', ops[1..], m)
  {
  }

  lemma TiedWritesRun(m: Matcher)
    ensures Run(map[], TIED_WRITES, m) == TiedStore()
  {
    var s1: Store := map[Join2("", "p") := AnswersAll("")];
    AnswersAllIsStored(map[], "", m);
    AnswersAllIsStored(s1, "t", m);
    RunOne(map[], s1, TIED_WRITES, m);
    RunOne(s1, TiedStore(), TIED_WRITES[1..], m);
    assert TIED_WRITES[1..][1..] == [];
  }

  lemma TiedStoreIsAmbiguous(r: Request, m: Matcher)
    requires r.tenant == "t"
    ensures Ambiguous(TiedStore(), r, m)
  {
    var s, own, shared := TiedStore(), Join2("t", "p"), Join2("", "p");
    assert |own| != |shared|;
    LessIsStrictTotalOrder();
    assert IsBest(s, own, r, m) && IsBest(s, shared, r, m);
  }

  /** From the empty store, two such writes leave a request with two answers. */
  lemma OrderCanMatter(r: Request, m: Matcher) returns (visit: seq<Key>, visit': seq<Key>)
    requires r.tenant == "t"
    ensures var s := Run(map[], TIED_WRITES, m);
            Visits(visit, s) && Visits(visit', s) && Evaluate(s, visit, r, m) != Evaluate(s, visit', r, m)
  {
    TiedWritesRun(m);
    RunKeepsSound(map[], TIED_WRITES, m);
    TiedStoreIsAmbiguous(r, m);
    visit, visit' := AmbiguousMeansTwoAnswers(TiedStore(), r, m);
  }

  /** Two stores with the same fitting policies, none of them tied as best, answer alike: draft and
      disabled policies and those of other tenants do not matter. */
  lemma SameBest(s: Store, visit: seq<Key>, s': Store, visit': seq<Key>, r: Request, m: Matcher)
    requires Sound(s, m) && Sound(s', m) && Visits(visit, s) && Visits(visit', s') && !Ambiguous(s, r, m)
    requires forall k :: (k in s && Fits(s[k], r, m)) || (k in s' && Fits(s'[k], r, m)) ==>
               k in s && k in s' && s[k] == s'[k]
    ensures Evaluate(s, visit, r, m) == Evaluate(s', visit', r, m)
  {
    EvaluateIsBest(s, visit, r, m);
    EvaluateIsBest(s', visit', r, m);
    var a, b := Evaluate(s, visit, r, m).policy, Evaluate(s', visit', r, m).policy;
    if a.Some? && b.Some? {
      var k :| IsBest(s, k, r, m) && s[k] == a.value;
      var k' :| IsBest(s', k', r, m) && s'[k'] == b.value;
      assert IsBest(s, k', r, m);
    }
  }

  predicate Irrelevant(p: Policy, r: Request) {
    p.status != "enabled" || (p.tenant != "" && p.tenant != r.tenant)
  }

  /** Adding, changing or removing a policy that is not enabled or belongs to another tenant leaves the
      answer as it was. */
  lemma IrrelevantPoliciesDoNotMatter(s: Store, visit: seq<Key>, s': Store, visit': seq<Key>, k: Key, r: Request,
                                      m: Matcher)
    requires Sound(s, m) && Sound(s', m) && Visits(visit, s) && Visits(visit', s') && !Ambiguous(s, r, m)
    requires s - {k} == s' - {k}
    requires k in s ==> Irrelevant(s[k], r)
    requires k in s' ==> Irrelevant(s'[k], r)
    ensures Evaluate(s, visit, r, m) == Evaluate(s', visit', r, m)
  {
    forall j | (j in s && Fits(s[j], r, m)) || (j in s' && Fits(s'[j], r, m))
      ensures j in s && j in s' && s[j] == s'[j]
    {
      assert j != k;
      assert j in s <==> j in s - {k};
      assert j in s' <==> j in s' - {k};
      assert j in s - {k} ==> (s - {k})[j] == s[j] && (s' - {k})[j] == s'[j];
    }
    SameBest(s, visit, s', visit', r, m);
  }

  ghost predicate EvaluatedIn(s: Store, visit: seq<Key>, r: Request, m: Matcher, result: Result) {
    Visits(visit, s) && result == Evaluate(s, visit, r, m)
  }

  // ----- the service --------------------------------------------------------

  class Service {
    const matcher: Matcher
    var policies: Store

    constructor (matcher: Matcher)
      ensures policies == map[] && this.matcher == matcher
    {
      this.matcher := matcher;
      policies := map[];
    }

    method UpsertPolicy(policy: Policy, now: int, newID: string) returns (ok: bool)
      modifies this
      ensures (policies, ok) == Upsert(old(policies), policy, now, newID, matcher)
    {
      var normal := Normalize(policy, now, newID);
      if !Valid(normal, matcher) {
        return false;
      }
      policies := policies[KeyOf(normal.tenant, normal.policyID) := normal];
      return true;
    }

    method DeletePolicy(tenant: string, policyID: string) returns (found: Option<Policy>)
      modifies this
      ensures policies == old(policies) - {tenant + "\0" + TrimSpace(policyID)}
      ensures policies == Delete(old(policies), tenant, policyID)
      ensures var key := KeyOf(tenant, TrimSpace(policyID));
              found == if key in old(policies) then Some(old(policies)[key]) else None
    {
      var key := KeyOf(tenant, TrimSpace(policyID));
      TrimSpaceIdempotent(policyID);
      if key !in policies {
        return None;
      }
      found := Some(policies[key]);
      policies := policies - {key};
    }

    /** The answer is the one for the order in which the map happened to be visited. */
    method EvaluateRequest(r: Request) returns (result: Result)
      ensures exists visit :: EvaluatedIn(policies, visit, r, matcher, result)
    {
      var listed: seq<Policy> := [];
      ghost var visit: seq<Key> := [];
      var todo := policies.Keys;
      while todo != {}
        invariant todo <= policies.Keys && NoRepeats(visit) && forall k :: k in visit <==> k in policies && k !in todo
        invariant listed == Visible(policies, visit, r.tenant)
        decreases todo
      {
        var k :| k in todo;
        AppendNoRepeats(visit, k);
        VisibleOfLast(policies, visit, k, r.tenant);
        if policies[k].tenant == r.tenant || policies[k].tenant == "" {
          listed := listed + [policies[k]];
        }
        visit := visit + [k];
        todo := todo - {k};
      }
      var sorted := Sort(Sort(listed, Better), Better);
      assert EvaluatedIn(policies, visit, r, matcher, FirstReply(sorted, r, matcher));
      for i := 0 to |sorted|
        invariant FirstReply(sorted, r, matcher) == FirstReply(sorted[i..], r, matcher)
      {
        var policy := sorted[i];
        assert sorted[i..][1..] == sorted[i + 1..];
        if Applies(policy, r, matcher) {
          var matched := MatchPolicy(policy, r.input, matcher);
          if matched.None? {
            return Failed;
          }
          if matched.value {
            return Replied(Some(policy));
          }
        }
      }
      return Replied(None);
    }
  }

  lemma {:induction false} VisibleOfLast(s: Store, visit: seq<Key>, k: Key, tenant: string)
    requires k in s && forall j :: j in visit ==> j in s
    ensures Visible(s, visit + [k], tenant) == Visible(s, visit, tenant) + Shown(s[k], tenant)
  {
    var longer := visit + [k];
    assert forall j :: j in longer ==> j in s;
    if visit == [] {
      assert longer == [k] && longer[1..] == [];
    } else {
      var first, rest := Shown(s[visit[0]], tenant), Visible(s, visit[1..], tenant);
      assert longer[1..] == visit[1..] + [k] && longer[0] == visit[0];
      VisibleOfLast(s, visit[1..], k, tenant);
      assert first + (rest + Shown(s[k], tenant)) == (first + rest) + Shown(s[k], tenant);
    }
  }
}
