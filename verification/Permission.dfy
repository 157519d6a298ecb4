/** The in-memory permission service: a sorted policy list, and decisions by first match. */
module Permission {
  import opened Options
  import opened Text
  import opened Sorting

  /** A group permission policy.  Times are instants, 0 standing for Go's zero time. */
  datatype Policy = Policy(tenant: string, group: string, subjectType: string, subjectID: string, actions: seq<string>,
                           scopes: seq<string>, requiresApproval: bool, reason: string, createdAt: int, updatedAt: int)

  datatype PolicyKey = PolicyKey(tenant: string, group: string, subjectType: string, subjectID: string)

  function KeyOf(p: Policy): PolicyKey {
    PolicyKey(p.tenant, p.group, p.subjectType, p.subjectID)
  }

  predicate KeyLess(a: PolicyKey, b: PolicyKey) {
    if a.tenant != b.tenant then Less(a.tenant, b.tenant)
    else if a.group != b.group then Less(a.group, b.group)
    else if a.subjectType != b.subjectType then Less(a.subjectType, b.subjectType)
    else Less(a.subjectID, b.subjectID)
  }

  predicate Before(a: Policy, b: Policy) {
    KeyLess(KeyOf(a), KeyOf(b))
  }

  lemma KeyLessIsStrictTotalOrder()
    ensures forall a, b :: KeyLess(a, b) ==> !KeyLess(b, a)
    ensures forall a, b :: a != b ==> KeyLess(a, b) || KeyLess(b, a)
    ensures forall a, b, c :: KeyLess(a, b) && KeyLess(b, c) ==> KeyLess(a, c)
  {
    LessIsStrictTotalOrder();
    forall a, b | KeyLess(a, b) ensures !KeyLess(b, a) {
      KeyLessAsymmetric(a, b);
    }
  }

  lemma KeyLessAsymmetric(a: PolicyKey, b: PolicyKey)
    requires KeyLess(a, b)
    ensures !KeyLess(b, a)
  {
    LessIsStrictTotalOrder();
  }

  lemma BeforeIsWeakOrder()
    ensures WeakOrder(Before)
  {
    KeyLessIsStrictTotalOrder();
    forall a, b, c | Before(a, b) && !Before(c, b) ensures Before(a, c) {
      if KeyOf(b) != KeyOf(c) { assert KeyLess(KeyOf(b), KeyOf(c)); }
    }
  }

  // ----- the list -----------------------------------------------------------

  function Stamp(p: Policy, now: int): Policy {
    p.(createdAt := if p.createdAt == 0 then now else p.createdAt, updatedAt := now)
  }

  /** The index of the first policy with the key, or the length of the list. */
  function IndexOf(list: seq<Policy>, key: PolicyKey): (i: nat)
    ensures i <= |list|
    ensures i < |list| ==> KeyOf(list[i]) == key
    ensures forall j :: 0 <= j < i ==> KeyOf(list[j]) != key
  {
    if list == [] then 0 else if KeyOf(list[0]) == key then 0 else 1 + IndexOf(list[1..], key)
  }

  function Upsert(list: seq<Policy>, p: Policy, now: int): seq<Policy> {
    var i := IndexOf(list, KeyOf(p));
    if i < |list| then list[i := Stamp(p, now)] else Sort(list + [Stamp(p, now)], Before)
  }

  ghost predicate StrictlySorted(list: seq<Policy>) {
    forall i, j :: 0 <= i < j < |list| ==> Before(list[i], list[j])
  }

  /** The list is strictly sorted by key and holds exactly the policies of the map. */
  ghost predicate Holds(list: seq<Policy>, m: map<PolicyKey, Policy>) {
    && StrictlySorted(list)
    && (forall p :: p in list ==> KeyOf(p) in m && m[KeyOf(p)] == p)
    && (forall k :: k in m ==> m[k] in list && KeyOf(m[k]) == k)
  }

  lemma DistinctKeysAreTieless(list: seq<Policy>)
    requires forall i, j :: 0 <= i < j < |list| ==> KeyOf(list[i]) != KeyOf(list[j])
    ensures Tieless(list, Before) && NoRepeats(list)
  {
    KeyLessIsStrictTotalOrder();
    forall a, b | a in list && b in list && a != b ensures Before(a, b) || Before(b, a) {
      var i :| 0 <= i < |list| && list[i] == a;
      var j :| 0 <= j < |list| && list[j] == b;
    }
  }

  lemma StrictlySortedIsClean(list: seq<Policy>)
    requires StrictlySorted(list)
    ensures Sorted(list, Before) && Tieless(list, Before) && NoRepeats(list)
    ensures forall i, j :: 0 <= i < |list| && 0 <= j < |list| && KeyOf(list[i]) == KeyOf(list[j]) ==> i == j
  {
    KeyLessIsStrictTotalOrder();
    assert forall i, j :: 0 <= i < j < |list| ==> Before(list[i], list[j]) && KeyOf(list[i]) != KeyOf(list[j]);
    DistinctKeysAreTieless(list);
  }

  /** One upsert keeps the list sorted and writes exactly its own key. */
  lemma UpsertHolds(list: seq<Policy>, m: map<PolicyKey, Policy>, p: Policy, now: int)
    requires Holds(list, m)
    ensures Holds(Upsert(list, p, now), m[KeyOf(p) := Stamp(p, now)])
  {
    var key, stamped := KeyOf(p), Stamp(p, now);
    assert KeyOf(stamped) == key;
    StrictlySortedIsClean(list);
    if IndexOf(list, key) < |list| {
      ReplaceHolds(list, m, IndexOf(list, key), stamped);
    } else {
      InsertHolds(list, m, stamped);
    }
  }

  lemma ReplaceHolds(list: seq<Policy>, m: map<PolicyKey, Policy>, i: nat, p: Policy)
    requires Holds(list, m) && i < |list| && KeyOf(list[i]) == KeyOf(p)
    ensures Holds(list[i := p], m[KeyOf(p) := p])
  {
    StrictlySortedIsClean(list);
    var list', m' := list[i := p], m[KeyOf(p) := p];
    forall q | q in list' ensures KeyOf(q) in m' && m'[KeyOf(q)] == q {
      var j :| 0 <= j < |list'| && list'[j] == q;
      assert j != i ==> list[j] in list && KeyOf(list[j]) != KeyOf(p);
    }
    forall k | k in m' ensures m'[k] in list' && KeyOf(m'[k]) == k {
      if k == KeyOf(p) {
        assert list'[i] == p;
      } else {
        var j :| 0 <= j < |list| && list[j] == m[k];
        assert list'[j] == m[k];
      }
    }
  }

  lemma InsertHolds(list: seq<Policy>, m: map<PolicyKey, Policy>, p: Policy)
    requires Holds(list, m) && forall i :: 0 <= i < |list| ==> KeyOf(list[i]) != KeyOf(p)
    ensures Holds(Sort(list + [p], Before), m[KeyOf(p) := p])
  {
    assert forall q :: q in list ==> KeyOf(q) != KeyOf(p);
    StrictlySortedIsClean(list);
    var longer := list + [p];
    BeforeIsWeakOrder();
    DistinctKeysAreTieless(longer);
    SortStrict(longer, Before);
    SortElements(longer, Before);
    HoldsWithOneMore(Sort(longer, Before), list, m, p);
  }

  lemma HoldsWithOneMore(sorted: seq<Policy>, list: seq<Policy>, m: map<PolicyKey, Policy>, p: Policy)
    requires Holds(list, m) && StrictlySorted(sorted) && KeyOf(p) !in m
    requires forall q :: q in sorted <==> q in list + [p]
    ensures Holds(sorted, m[KeyOf(p) := p])
  {
    var m' := m[KeyOf(p) := p];
    forall q | q in sorted ensures KeyOf(q) in m' && m'[KeyOf(q)] == q {
      assert q in list || q == p;
    }
    forall k | k in m' ensures m'[k] in sorted && KeyOf(m'[k]) == k {
      assert m'[k] in list + [p];
    }
  }

  // ----- histories ----------------------------------------------------------

  datatype Write = Write(policy: Policy, now: int)

  function Run(list: seq<Policy>, writes: seq<Write>): seq<Policy>
    decreases |writes|
  {
    if writes == [] then list else Run(Upsert(list, writes[0].policy, writes[0].now), writes[1..])
  }

  /** The last policy written under each key. */
  function LastWrites(m: map<PolicyKey, Policy>, writes: seq<Write>): map<PolicyKey, Policy>
    decreases |writes|
  {
    if writes == [] then m
    else LastWrites(m[KeyOf(writes[0].policy) := Stamp(writes[0].policy, writes[0].now)], writes[1..])
  }

  /** After any sequence of upserts the list is strictly sorted by tenant, group, subject type and
      subject id and holds exactly the last policy written per key. */
  lemma {:induction false} RunHoldsLastWrites(list: seq<Policy>, m: map<PolicyKey, Policy>, writes: seq<Write>)
    requires Holds(list, m)
    ensures Holds(Run(list, writes), LastWrites(m, writes))
    decreases |writes|
  {
    if writes != [] {
      var w := writes[0];
      UpsertHolds(list, m, w.policy, w.now);
      RunHoldsLastWrites(Upsert(list, w.policy, w.now), m[KeyOf(w.policy) := Stamp(w.policy, w.now)], writes[1..]);
    }
  }

  /** The map determines the list. */
  lemma HoldsUnique(a: seq<Policy>, b: seq<Policy>, m: map<PolicyKey, Policy>)
    requires Holds(a, m) && Holds(b, m)
    ensures a == b
  {
    StrictlySortedIsClean(a);
    StrictlySortedIsClean(b);
    forall p ensures p in a <==> p in b {
      if p in a { assert m[KeyOf(p)] in b; }
      if p in b { assert m[KeyOf(p)] in a; }
    }
    SameSetSameMultiset(a, b);
    SortedUnique(a, b, Before);
  }

  /** A policy without its timestamps. */
  function Erase(p: Policy): Policy {
    p.(createdAt := 0, updatedAt := 0)
  }

  function EraseAll(list: seq<Policy>): (r: seq<Policy>)
    ensures |r| == |list| && forall i :: 0 <= i < |list| ==> r[i] == Erase(list[i])
  {
    if list == [] then [] else [Erase(list[0])] + EraseAll(list[1..])
  }

  function EraseMap(m: map<PolicyKey, Policy>): map<PolicyKey, Policy> {
    map k | k in m :: Erase(m[k])
  }

  lemma EraseSorted(list: seq<Policy>)
    requires StrictlySorted(list)
    ensures StrictlySorted(EraseAll(list))
  {
    var erased := EraseAll(list);
    forall i, j | 0 <= i < j < |erased| ensures Before(erased[i], erased[j]) {
      assert Before(list[i], list[j]);
    }
  }

  lemma EraseHolds(list: seq<Policy>, m: map<PolicyKey, Policy>)
    requires Holds(list, m)
    ensures Holds(EraseAll(list), EraseMap(m))
  {
    var erased := EraseAll(list);
    EraseSorted(list);
    forall q | q in erased ensures KeyOf(q) in EraseMap(m) && EraseMap(m)[KeyOf(q)] == q {
      var i :| 0 <= i < |erased| && erased[i] == q;
      assert list[i] in list && KeyOf(q) == KeyOf(list[i]);
    }
    forall k | k in m ensures Erase(m[k]) in erased && KeyOf(Erase(m[k])) == k {
      var i :| 0 <= i < |list| && list[i] == m[k];
      assert erased[i] == Erase(m[k]);
    }
  }

  // ----- decisions ----------------------------------------------------------

  datatype Member = Member(memberID: string, externalUserID: string, roles: seq<string>)

  datatype Input = Input(tenant: string, group: string, actorID: string, member: Option<Member>, roles: seq<string>,
                         action: string, resourceType: string, resourceID: string, resourceScope: string)

  datatype Verdict = Allowed | Denied | ApprovalRequired

  datatype Decision = Decision(verdict: Verdict, reason: string, reasonCode: string, applied: seq<string>)

  const ADMIN_ROLES := {"owner", "admin", "group_admin", "agent_admin"}
  const CROSS_GROUP_SEARCH := "cross_group.search"

  function Unique(values: seq<string>): seq<string> {
    Sort(Distinct(values), Less)
  }

  method UniqueStrings(values: seq<string>) returns (out: seq<string>)
    ensures out == Unique(values)
  {
    var seen: set<string> := {};
    var distinct: seq<string> := [];
    for i := 0 to |values|
      invariant distinct == Distinct(values[..i])
      invariant forall s :: s in seen <==> s in distinct
    {
      assert values[..i + 1][..i] == values[..i];
      var value := values[i];
      if value != "" && value !in seen {
        seen := seen + {value};
        distinct := distinct + [value];
      }
    }
    assert values[..|values|] == values;
    out := Sort(distinct, Less);
  }

  lemma LessSorts(s: seq<string>)
    ensures WeakOrder(Less) && Tieless(s, Less)
  {
    LessIsStrictTotalOrder();
    forall a: string, b: string, c: string | Less(a, b) && !Less(c, b) ensures Less(a, c) {
      assert b == c || Less(b, c);
    }
  }

  lemma UniqueHolds(values: seq<string>)
    ensures forall s :: s in Unique(values) <==> s in values && s != ""
  {
    DistinctHolds(values);
    SortElements(Distinct(values), Less);
  }

  /** De-duplicated and sorted values depend only on which non-empty values there are. */
  lemma UniqueIsASet(a: seq<string>, b: seq<string>)
    requires forall s :: s != "" ==> (s in a <==> s in b)
    ensures Unique(a) == Unique(b)
  {
    DistinctHolds(a);
    DistinctHolds(b);
    LessSorts(Distinct(a));
    SameSetSameMultiset(Distinct(a), Distinct(b));
    SortForgetsOrder(Distinct(a), Distinct(b), Less);
  }

  function Roles(input: Input): seq<string> {
    if input.member.Some? then Unique(Unique(input.roles) + input.member.value.roles) else Unique(input.roles)
  }

  /** The non-empty roles of the actor, its own and its membership's. */
  predicate HasRole(input: Input, role: string) {
    role != "" && (role in input.roles || (input.member.Some? && role in input.member.value.roles))
  }

  lemma RolesAreThoseHeld(input: Input)
    ensures forall r :: r in Roles(input) <==> HasRole(input, r)
  {
    UniqueHolds(input.roles);
    if input.member.Some? {
      UniqueHolds(Unique(input.roles) + input.member.value.roles);
    }
  }

  function FirstAdmin(roles: seq<string>): Option<string> {
    if roles == [] then None else if roles[0] in ADMIN_ROLES then Some(roles[0]) else FirstAdmin(roles[1..])
  }

  predicate ScopeMatches(scopes: seq<string>, input: Input) {
    || scopes == []
    || exists i | 0 <= i < |scopes| ::
         scopes[i] in {"*", input.resourceScope, input.resourceID, input.resourceType, input.group}
  }

  /** The policy is about this tenant, group, action and resource, whoever asks. */
  predicate IsAbout(p: Policy, input: Input) {
    && (p.tenant == "" || p.tenant == input.tenant)
    && (p.group == "" || p.group == input.group)
    && ("*" in p.actions || input.action in p.actions)
    && ScopeMatches(p.scopes, input)
  }

  predicate Matches(input: Input, roles: seq<string>, p: Policy) {
    && IsAbout(p, input)
    && if p.subjectType == "user" then
         p.subjectID == input.actorID
         || (input.member.Some? && p.subjectID in {input.member.value.memberID, input.member.value.externalUserID})
       else if p.subjectType == "role" then p.subjectID in roles
       else p.subjectType == "agent" && p.subjectID == input.actorID
  }

  function FirstMatch(list: seq<Policy>, input: Input, roles: seq<string>): Option<Policy> {
    if list == [] then None
    else if Matches(input, roles, list[0]) then Some(list[0])
    else FirstMatch(list[1..], input, roles)
  }

  function ByPolicy(p: Policy): Decision {
    var id := p.subjectType + ":" + p.subjectID;
    if p.requiresApproval
    then Decision(ApprovalRequired, FirstNonEmpty(p.reason, "policy requires approval"), "approval_required", [id])
    else Decision(Allowed, FirstNonEmpty(p.reason, "policy allows action"), "policy_allowed", [id])
  }

  /** The decision, its check time left out. */
  function Decide(list: seq<Policy>, input: Input): Decision {
    var roles := Roles(input);
    var admin := FirstAdmin(roles);
    var match_ := FirstMatch(list, input, roles);
    if input.action == "" then Decision(Denied, "missing action", "missing_action", [])
    else if input.action != CROSS_GROUP_SEARCH && admin.Some? then
      Decision(Allowed, "admin role allows action", "admin_role", ["role:" + admin.value])
    else if match_.Some? then ByPolicy(match_.value)
    else Decision(Denied, "no matching permission policy", "no_matching_policy", [])
  }

  predicate AdminApplies(input: Input) {
    input.action != CROSS_GROUP_SEARCH && exists role | role in ADMIN_ROLES :: HasRole(input, role)
  }

  /** `Matches` asks of the role list only which roles are in it. */
  predicate Grants(input: Input, p: Policy) {
    Matches(input, Roles(input), p)
  }

  lemma {:induction false} FirstAdminExists(roles: seq<string>)
    ensures FirstAdmin(roles).Some? <==> exists role :: role in roles && role in ADMIN_ROLES
  {
    if roles != [] { FirstAdminExists(roles[1..]); }
  }

  lemma {:induction false} FirstMatchIsFirst(list: seq<Policy>, input: Input, roles: seq<string>)
    ensures var first := FirstMatch(list, input, roles);
            && (first.None? <==> forall i :: 0 <= i < |list| ==> !Matches(input, roles, list[i]))
            && (first.Some? <==> exists i :: IsFirst(list, input, roles, i))
            && (forall i :: IsFirst(list, input, roles, i) ==> first == Some(list[i]))
  {
    if list != [] {
      FirstMatchIsFirst(list[1..], input, roles);
      if Matches(input, roles, list[0]) {
        assert IsFirst(list, input, roles, 0);
      } else {
        forall i | IsFirst(list, input, roles, i) ensures i > 0 && IsFirst(list[1..], input, roles, i - 1) {
        }
        forall i | IsFirst(list[1..], input, roles, i) ensures IsFirst(list, input, roles, i + 1) {
        }
      }
    }
  }

  ghost predicate IsFirst(list: seq<Policy>, input: Input, roles: seq<string>, i: int) {
    0 <= i < |list| && Matches(input, roles, list[i]) && forall j :: 0 <= j < i ==> !Matches(input, roles, list[j])
  }

  /** The decision is: allowed to an admin, unless the action needs an explicit policy; else what the
      first granting policy in sorted order says; else denied.  No order or repetition of roles matters. */
  lemma DecideIsExact(list: seq<Policy>, input: Input)
    requires input.action != ""
    ensures var d := Decide(list, input);
            && (AdminApplies(input) ==> d.verdict == Allowed && d.reasonCode == "admin_role")
            && (!AdminApplies(input) ==>
                  && (d.verdict == Denied <==> forall i :: 0 <= i < |list| ==> !Grants(input, list[i]))
                  && (forall i :: IsFirst(list, input, Roles(input), i) ==> d == ByPolicy(list[i]))
                  && (d.verdict != Denied ==> exists i :: IsFirst(list, input, Roles(input), i)))
  {
    RolesAreThoseHeld(input);
    FirstAdminExists(Roles(input));
    FirstMatchIsFirst(list, input, Roles(input));
  }

  /** The policy lets the actor act: it is for the tenant and group or for all, names the action or all, is for
      every resource or names this one, its kind, its scope or the group, and is for this user by any of its
      ids, for a role it has, or for this agent. */
  predicate Lets(p: Policy, input: Input) {
    && (p.tenant == "" || p.tenant == input.tenant) && (p.group == "" || p.group == input.group)
    && (exists a :: a in p.actions && (a == "*" || a == input.action))
    && (p.scopes == [] || exists scope :: scope in p.scopes && Opens(scope, input))
    && (|| (p.subjectType == "user"
            && (p.subjectID == input.actorID
               || (input.member.Some? && (p.subjectID == input.member.value.memberID
                                         || p.subjectID == input.member.value.externalUserID))))
        || (p.subjectType == "role" && HasRole(input, p.subjectID))
        || (p.subjectType == "agent" && p.subjectID == input.actorID))
  }

  predicate Opens(scope: string, input: Input) {
    || scope == "*" || scope == input.resourceScope || scope == input.resourceID || scope == input.resourceType
    || scope == input.group
  }

  lemma OpensIff(scopes: seq<string>, input: Input)
    ensures ScopeMatches(scopes, input) <==> scopes == [] || exists scope :: scope in scopes && Opens(scope, input)
  {
    if ScopeMatches(scopes, input) && scopes != [] {
      var i :| 0 <= i < |scopes|
        && scopes[i] in {"*", input.resourceScope, input.resourceID, input.resourceType, input.group};
      assert scopes[i] in scopes && Opens(scopes[i], input);
    }
  }

  lemma LetsIff(input: Input, p: Policy)
    ensures Grants(input, p) <==> Lets(p, input)
  {
    RolesAreThoseHeld(input);
    OpensIff(p.scopes, input);
  }

  /** An administrator is allowed in the name of one of its administrator's roles. */
  lemma AdminIsNamed(list: seq<Policy>, input: Input) returns (role: string)
    requires input.action != "" && input.action != "cross_group.search" && IsAdmin(input)
    ensures HasRole(input, role) && role in {"owner", "admin", "group_admin", "agent_admin"}
    ensures Decide(list, input) == Decision(Allowed, "admin role allows action", "admin_role", ["role:" + role])
  {
    RolesAreThoseHeld(input);
    FirstAdminExists(Roles(input));
    FirstAdminIsHeld(Roles(input));
    role := FirstAdmin(Roles(input)).value;
  }

  ghost predicate FirstToLet(list: seq<Policy>, input: Input, i: int) {
    0 <= i < |list| && Lets(list[i], input) && forall j :: 0 <= j < i ==> !Lets(list[j], input)
  }

  /** The decision is what the policy says. */
  predicate SaysOf(d: Decision, p: Policy) {
    && d.applied == [p.subjectType + ":" + p.subjectID]
    && if p.requiresApproval then
         d.verdict == ApprovalRequired && d.reasonCode == "approval_required"
         && d.reason == (if p.reason == "" then "policy requires approval" else p.reason)
       else
         d.verdict == Allowed && d.reasonCode == "policy_allowed"
         && d.reason == (if p.reason == "" then "policy allows action" else p.reason)
  }

  lemma {:induction false} FirstAdminIsHeld(roles: seq<string>)
    ensures FirstAdmin(roles).Some? ==> FirstAdmin(roles).value in roles && FirstAdmin(roles).value in ADMIN_ROLES
  {
    if roles != [] { FirstAdminIsHeld(roles[1..]); }
  }

  predicate IsAdmin(input: Input) {
    || HasRole(input, "owner") || HasRole(input, "admin") || HasRole(input, "group_admin")
    || HasRole(input, "agent_admin")
  }

  /** An actor without action is denied; an administrator is allowed everything but searching other groups;
      else the first policy that lets the actor act decides: allowed, or after approval if it says so. */
  lemma DecidedByFields(list: seq<Policy>, input: Input)
    ensures var d := Decide(list, input);
            if input.action == "" then d.verdict == Denied && d.reasonCode == "missing_action"
            else if input.action != "cross_group.search" && IsAdmin(input) then
              d.verdict == Allowed && d.reasonCode == "admin_role"
            else if exists i :: FirstToLet(list, input, i) then
              exists i :: FirstToLet(list, input, i) && SaysOf(d, list[i])
            else d.verdict == Denied && d.reasonCode == "no_matching_policy" && d.applied == []
  {
    if input.action != "" {
      DecideIsExact(list, input);
      FirstMatchIsFirst(list, input, Roles(input));
      forall p ensures Grants(input, p) <==> Lets(p, input) { LetsIff(input, p); }
      forall i ensures IsFirst(list, input, Roles(input), i) <==> FirstToLet(list, input, i) {
        FirstIsFirstToLet(list, input, i);
      }
      assert AdminApplies(input) <==> input.action != "cross_group.search" && IsAdmin(input);
    }
  }

  lemma FirstIsFirstToLet(list: seq<Policy>, input: Input, i: int)
    requires forall p :: Grants(input, p) <==> Lets(p, input)
    ensures IsFirst(list, input, Roles(input), i) <==> FirstToLet(list, input, i)
  {
    if 0 <= i < |list| {
      assert forall j :: 0 <= j <= i ==> (Matches(input, Roles(input), list[j]) <==> Lets(list[j], input));
    }
  }

  /** Policies are tried by tenant, then group, then kind of subject, then subject. */
  lemma TriedInOrder(a: Policy, b: Policy)
    ensures Before(a, b) <==>
            || Less(a.tenant, b.tenant)
            || (a.tenant == b.tenant
                && (|| Less(a.group, b.group)
                    || (a.group == b.group
                        && (|| Less(a.subjectType, b.subjectType)
                            || (a.subjectType == b.subjectType && Less(a.subjectID, b.subjectID))))))
  {
    LessIrreflexive(a.tenant);
    LessIrreflexive(a.group);
    LessIrreflexive(a.subjectType);
  }

  /** The two policies are for the same subject of the same group and tenant. */
  predicate SameSubject(a: Policy, b: Policy) {
    a.tenant == b.tenant && a.group == b.group && a.subjectType == b.subjectType && a.subjectID == b.subjectID
  }

  /** An upsert stores the policy with its times in place of the one for the same subject, and keeps the others. */
  lemma UpsertReplaces(list: seq<Policy>, m: map<PolicyKey, Policy>, p: Policy, now: int)
    requires Holds(list, m)
    ensures forall q :: q in Upsert(list, p, now) <==>
              || q == p.(createdAt := if p.createdAt != 0 then p.createdAt else now, updatedAt := now)
              || (q in list && !SameSubject(q, p))
  {
    UpsertHolds(list, m, p, now);
    HeldExactly(list, m);
    HeldExactly(Upsert(list, p, now), m[KeyOf(p) := Stamp(p, now)]);
    assert forall q :: SameSubject(q, p) <==> KeyOf(q) == KeyOf(p);
  }

  lemma HeldExactly(list: seq<Policy>, m: map<PolicyKey, Policy>)
    requires Holds(list, m)
    ensures forall q :: q in list <==> KeyOf(q) in m && m[KeyOf(q)] == q
  {
  }

  lemma RoleOrderIsForgotten(list: seq<Policy>, input: Input, roles: seq<string>)
    requires forall r :: r != "" ==> (r in roles <==> r in input.roles)
    ensures Decide(list, input.(roles := roles)) == Decide(list, input)
  {
    UniqueIsASet(roles, input.roles);
    assert Roles(input.(roles := roles)) == Roles(input);
    FirstMatchByRoles(list, input.(roles := roles), input, Roles(input));
  }

  lemma {:induction false} FirstMatchByRoles(list: seq<Policy>, a: Input, b: Input, roles: seq<string>)
    requires a.(roles := b.roles) == b
    ensures FirstMatch(list, a, roles) == FirstMatch(list, b, roles)
  {
    if list != [] {
      assert Matches(a, roles, list[0]) == Matches(b, roles, list[0]);
      FirstMatchByRoles(list[1..], a, b, roles);
    }
  }

  /** Giving an actor more roles never turns a decision that is not a denial into one. */
  lemma MoreRolesNeverDeny(list: seq<Policy>, input: Input, roles: seq<string>)
    requires forall r :: r in input.roles ==> r in roles
    requires Decide(list, input).verdict != Denied
    ensures Decide(list, input.(roles := roles)).verdict != Denied
  {
    var more := input.(roles := roles);
    RolesAreThoseHeld(input);
    RolesAreThoseHeld(more);
    DecideIsExact(list, input);
    DecideIsExact(list, more);
    if !AdminApplies(more) {
      assert !AdminApplies(input);
      var i :| 0 <= i < |list| && Grants(input, list[i]);
      assert Grants(more, list[i]);
    }
  }

  /** The policy is for a role the actor does not have yet and is given. */
  predicate ForNewRole(input: Input, roles: seq<string>, p: Policy) {
    IsAbout(p, input) && p.subjectType == "role" && p.subjectID in roles && p.subjectID != ""
      && !HasRole(input, p.subjectID)
  }

  lemma NewRolesGrant(input: Input, roles: seq<string>, p: Policy)
    requires forall r :: r in input.roles ==> r in roles
    ensures Grants(input.(roles := roles), p) <==> Grants(input, p) || ForNewRole(input, roles, p)
  {
    RolesAreThoseHeld(input);
    RolesAreThoseHeld(input.(roles := roles));
    assert IsAbout(p, input.(roles := roles)) == IsAbout(p, input);
  }

  /** The first policy for one of the new roles asks for approval and comes before all that granted so far. */
  ghost predicate NewRoleComesFirst(list: seq<Policy>, input: Input, roles: seq<string>, j: int) {
    && 0 <= j < |list| && ForNewRole(input, roles, list[j]) && list[j].requiresApproval
    && forall i :: 0 <= i < j ==> !Grants(input, list[i]) && !ForNewRole(input, roles, list[i])
  }

  /** More roles turn an allowed action into one that needs approval exactly when none of them is an
      administrator's and the first policy for a new one asks for approval before any other policy grants;
      for an administrator they never do. */
  lemma MoreRolesNeedApprovalIff(list: seq<Policy>, input: Input, roles: seq<string>)
    requires forall r :: r in input.roles ==> r in roles
    requires Decide(list, input).verdict == Allowed
    ensures var more := input.(roles := roles);
            Decide(list, more).verdict == ApprovalRequired
            <==> !AdminApplies(more) && exists j :: NewRoleComesFirst(list, input, roles, j)
  {
    var more := input.(roles := roles);
    RolesAreThoseHeld(input);
    RolesAreThoseHeld(more);
    DecideIsExact(list, input);
    DecideIsExact(list, more);
    assert AdminApplies(input) ==> AdminApplies(more);
    if !AdminApplies(more) {
      FirstOfMore(list, input, roles);
    }
  }

  lemma FirstOfMore(list: seq<Policy>, input: Input, roles: seq<string>)
    requires forall r :: r in input.roles ==> r in roles
    requires !AdminApplies(input) && !AdminApplies(input.(roles := roles))
    requires Decide(list, input).verdict == Allowed
    ensures Decide(list, input.(roles := roles)).verdict == ApprovalRequired
            <==> exists j :: NewRoleComesFirst(list, input, roles, j)
  {
    var more := input.(roles := roles);
    DecideIsExact(list, input);
    DecideIsExact(list, more);
    forall p ensures Grants(more, p) <==> Grants(input, p) || ForNewRole(input, roles, p) {
      NewRolesGrant(input, roles, p);
    }
    if j :| NewRoleComesFirst(list, input, roles, j) {
      assert IsFirst(list, more, Roles(more), j);
    } else if Decide(list, more).verdict == ApprovalRequired {
      var j :| IsFirst(list, more, Roles(more), j);
      assert forall i :: 0 <= i < j ==> !Grants(more, list[i]);
      assert Grants(input, list[j]) ==> IsFirst(list, input, Roles(input), j);
      assert NewRoleComesFirst(list, input, roles, j);
    }
  }

  const TWO_ROLES := [ForRole("a", true), ForRole("b", false)]

  lemma ReaderIsNoAdmin(roles: seq<string>)
    requires forall r :: r in roles ==> r == "a" || r == "b"
    ensures !AdminApplies(Reader(roles))
  {
    forall role | role in ADMIN_ROLES ensures !HasRole(Reader(roles), role) {
    }
  }

  lemma ReaderMatches(roles: seq<string>, role: string, requiresApproval: bool)
    requires role != ""
    ensures Matches(Reader(roles), Roles(Reader(roles)), ForRole(role, requiresApproval)) <==> role in roles
  {
    RolesAreThoseHeld(Reader(roles));
  }

  lemma ReaderDecision(roles: seq<string>)
    requires "b" in roles && forall r :: r in roles ==> r == "a" || r == "b"
    ensures Decide(TWO_ROLES, Reader(roles)).verdict == if "a" in roles then ApprovalRequired else Allowed
  {
    var input := Reader(roles);
    RolesAreThoseHeld(input);
    ReaderIsNoAdmin(roles);
    ReaderMatches(roles, "a", true);
    ReaderMatches(roles, "b", false);
    DecideIsExact(TWO_ROLES, input);
    assert IsFirst(TWO_ROLES, input, Roles(input), if "a" in roles then 0 else 1);
  }

  /** But it may turn "allowed" into "approval required": a policy for the new role can come first. */
  lemma MoreRolesMayNeedApproval()
    ensures StrictlySorted(TWO_ROLES)
    ensures Decide(TWO_ROLES, Reader(["b"])).verdict == Allowed
    ensures Decide(TWO_ROLES, Reader(["b", "a"])).verdict == ApprovalRequired
  {
    assert Less("a", "b");
    assert "a" !in ["b"];
    ReaderDecision(["b"]);
    ReaderDecision(["b", "a"]);
  }

  function ForRole(role: string, requiresApproval: bool): Policy {
    Policy("t", "g", "role", role, ["*"], [], requiresApproval, "", 1, 1)
  }

  function Reader(roles: seq<string>): Input {
    Input("t", "g", "x", None, roles, "memory.read", "", "", "")
  }

  lemma {:induction false} EraseKeepsFirstMatch(list: seq<Policy>, input: Input, roles: seq<string>)
    ensures FirstMatch(EraseAll(list), input, roles)
         == (var first := FirstMatch(list, input, roles); if first.Some? then Some(Erase(first.value)) else None)
  {
    if list != [] {
      assert EraseAll(list)[1..] == EraseAll(list[1..]);
      assert Matches(input, roles, Erase(list[0])) == Matches(input, roles, list[0]);
      EraseKeepsFirstMatch(list[1..], input, roles);
    }
  }

  lemma EraseKeepsDecision(list: seq<Policy>, input: Input)
    ensures Decide(EraseAll(list), input) == Decide(list, input)
  {
    EraseKeepsFirstMatch(list, input, Roles(input));
  }

  /** Two histories whose last writes agree up to timestamps leave the same list up to timestamps, and
      decide every request alike. */
  lemma DecisionsForgetHistory(writes: seq<Write>, writes': seq<Write>, input: Input)
    requires EraseMap(LastWrites(map[], writes)) == EraseMap(LastWrites(map[], writes'))
    ensures EraseAll(Run([], writes)) == EraseAll(Run([], writes'))
    ensures Decide(Run([], writes), input) == Decide(Run([], writes'), input)
  {
    var a, b := Run([], writes), Run([], writes');
    assert a == Run([], writes) && b == Run([], writes');
    RunHoldsLastWrites([], map[], writes);
    RunHoldsLastWrites([], map[], writes');
    EraseHolds(a, LastWrites(map[], writes));
    EraseHolds(b, LastWrites(map[], writes'));
    HoldsUnique(EraseAll(a), EraseAll(b), EraseMap(LastWrites(map[], writes)));
    EraseKeepsDecision(a, input);
    EraseKeepsDecision(b, input);
  }

  // ----- the service --------------------------------------------------------

  class InMemoryService {
    var policies: seq<Policy>

    constructor ()
      ensures policies == []
    {
      policies := [];
    }

    method UpsertPolicy(policy: Policy, now: int)
      modifies this
      ensures policies == Upsert(old(policies), policy, now)
    {
      var stamped := policy.(updatedAt := now);
      if stamped.createdAt == 0 {
        stamped := stamped.(createdAt := now);
      }
      for i := 0 to |policies|
        invariant policies == old(policies)
        invariant forall j :: 0 <= j < i ==> KeyOf(policies[j]) != KeyOf(policy)
      {
        if KeyOf(policies[i]) == KeyOf(policy) {
          policies := policies[i := stamped];
          return;
        }
      }
      policies := Sort(policies + [stamped], Before);
    }

    method Evaluate(input: Input) returns (d: Decision)
      ensures d == Decide(policies, input)
    {
      if input.action == "" {
        return Decision(Denied, "missing action", "missing_action", []);
      }
      var roles := UniqueStrings(input.roles);
      if input.member.Some? {
        roles := UniqueStrings(roles + input.member.value.roles);
      }
      if input.action != CROSS_GROUP_SEARCH {
        for i := 0 to |roles|
          invariant FirstAdmin(roles) == FirstAdmin(roles[i..])
        {
          if roles[i] in ADMIN_ROLES {
            return Decision(Allowed, "admin role allows action", "admin_role", ["role:" + roles[i]]);
          }
          assert roles[i..][1..] == roles[i + 1..];
        }
      }
      for i := 0 to |policies|
        invariant FirstMatch(policies, input, roles) == FirstMatch(policies[i..], input, roles)
      {
        if Matches(input, roles, policies[i]) {
          return ByPolicy(policies[i]);
        }
        assert policies[i..][1..] == policies[i + 1..];
      }
      return Decision(Denied, "no matching permission policy", "no_matching_policy", []);
    }
  }
}
