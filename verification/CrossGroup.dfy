/** Searching another group's knowledge: the share policies that allow it, the bases they open, and the
    redaction of what is found. */
module CrossGroup {
  import opened Options
  import opened Sorting
  import opened Text
  import Knowledge
  import Scoring
  import Snippet

  const ENABLED := "enabled"
  const SUMMARY_ONLY := "summary_only"
  const MASK_EMAILS := "mask_emails"
  const MASK_NUMBERS := "mask_numbers"
  const STRICT := "strict"
  const SHOWN_RUNES := 180

  /** Who may read (`target`) which bases of whom (`source`); an empty list means all of them. */
  datatype Policy = Policy(id: string, tenant: string, source: string, target: string, bases: seq<string>,
                           redaction: string, status: string, updated: int)

  datatype Query = Query(tenant: string, requester: string, source: string, text: string, limit: int)

  /** The regular-expression masks. */
  datatype Masks = Masks(emails: string -> string, numbers: string -> string)

  type Store = map<string, Policy>

  // ----- the policies -------------------------------------------------------

  function Normal(p: Policy, now: int, newID: string): Policy {
    p.(id := FirstNonEmpty(p.id, newID), redaction := FirstNonEmpty(p.redaction, SUMMARY_ONLY),
       status := FirstNonEmpty(p.status, ENABLED), updated := now)
  }

  function Upsert(s: Store, p: Policy, now: int, newID: string): Option<Store> {
    if p.tenant == "" || p.source == "" || p.target == "" then None
    else Some(s[Normal(p, now, newID).id := Normal(p, now, newID)])
  }

  datatype Write = Write(policy: Policy, now: int, newID: string)

  function Run(s: Store, writes: seq<Write>): Store {
    if writes == [] then s
    else
      var before, w := Run(s, writes[..|writes| - 1]), writes[|writes| - 1];
      Upsert(before, w.policy, w.now, w.newID).GetOr(before)
  }

  predicate Sound(s: Store) {
    forall k :: k in s ==> s[k].id == k && s[k].tenant != "" && s[k].source != "" && s[k].target != ""
  }

  lemma {:induction false} RunKeepsSound(s: Store, writes: seq<Write>)
    requires Sound(s)
    ensures Sound(Run(s, writes))
  {
    if writes != [] { RunKeepsSound(s, writes[..|writes| - 1]); }
  }

  ghost predicate Visits(visit: seq<string>, s: Store) {
    NoRepeats(visit) && forall k :: k in visit <==> k in s
  }

  predicate Between(p: Policy, tenant: string, source: string, target: string) {
    p.tenant == tenant && (source != "" ==> p.source == source) && (target != "" ==> p.target == target)
  }

  /** Most recently updated first, then by id. */
  predicate Newer(a: Policy, b: Policy) {
    if a.updated == b.updated then Less(a.id, b.id) else a.updated > b.updated
  }

  function Picked(s: Store, visit: seq<string>, tenant: string, source: string, target: string): seq<Policy>
    requires forall k :: k in visit ==> k in s
  {
    if visit == [] then []
    else
      var last := s[visit[|visit| - 1]];
      Picked(s, visit[..|visit| - 1], tenant, source, target) + if Between(last, tenant, source, target) then [last]
        else []
  }

  function List(s: Store, visit: seq<string>, tenant: string, source: string, target: string): seq<Policy>
    requires forall k :: k in visit ==> k in s
  {
    Sort(Picked(s, visit, tenant, source, target), Newer)
  }

  function Enabled(ps: seq<Policy>): seq<Policy> {
    if ps == [] then []
    else Enabled(ps[..|ps| - 1]) + if ps[|ps| - 1].status == ENABLED then [ps[|ps| - 1]] else []
  }

  function Matching(s: Store, visit: seq<string>, q: Query): seq<Policy>
    requires forall k :: k in visit ==> k in s
  {
    Enabled(List(s, visit, q.tenant, q.source, q.requester))
  }

  predicate Matches(p: Policy, q: Query) {
    Between(p, q.tenant, q.source, q.requester) && p.status == ENABLED
  }

  lemma {:induction false} PickedAre(s: Store, visit: seq<string>, tenant: string, source: string, target: string)
    requires forall k :: k in visit ==> k in s
    ensures forall p :: p in Picked(s, visit, tenant, source, target)
                   <==> exists k :: k in visit && s[k] == p && Between(p, tenant, source, target)
  {
    if visit != [] {
      var init, last := visit[..|visit| - 1], visit[|visit| - 1];
      assert visit == init + [last];
      PickedAre(s, init, tenant, source, target);
      forall p ensures p in Picked(s, visit, tenant, source, target)
                  <==> exists k :: k in visit && s[k] == p && Between(p, tenant, source, target)
      {
        assert last in visit && forall k :: k in visit <==> k in init || k == last;
      }
    }
  }

  lemma {:induction false} EnabledAre(ps: seq<Policy>)
    ensures forall p :: p in Enabled(ps) <==> p in ps && p.status == ENABLED
  {
    if ps != [] {
      EnabledAre(ps[..|ps| - 1]);
      assert ps == ps[..|ps| - 1] + [ps[|ps| - 1]];
    }
  }

  /** The matching policies are exactly the enabled ones between the two groups. */
  lemma MatchingAre(s: Store, visit: seq<string>, q: Query)
    requires Sound(s) && Visits(visit, s)
    ensures forall p :: p in Matching(s, visit, q) <==> p.id in s && s[p.id] == p && Matches(p, q)
  {
    var picked := Picked(s, visit, q.tenant, q.source, q.requester);
    PickedAre(s, visit, q.tenant, q.source, q.requester);
    SortElements(picked, Newer);
    EnabledAre(List(s, visit, q.tenant, q.source, q.requester));
    forall p ensures p in Matching(s, visit, q) <==> p.id in s && s[p.id] == p && Matches(p, q) {
      if p.id in s && s[p.id] == p && Matches(p, q) {
        assert p.id in visit;
      }
      if p in Matching(s, visit, q) {
        var k :| k in visit && s[k] == p && Between(p, q.tenant, q.source, q.requester);
        assert k in s;
      }
    }
  }

  lemma {:induction false} PickedDoNotRepeat(s: Store, visit: seq<string>, tenant: string, source: string,
                                             target: string)
    requires Sound(s) && NoRepeats(visit) && forall k :: k in visit ==> k in s
    ensures NoRepeats(Picked(s, visit, tenant, source, target))
  {
    if visit != [] {
      var init, last := visit[..|visit| - 1], visit[|visit| - 1];
      PickedDoNotRepeat(s, init, tenant, source, target);
      PickedAre(s, init, tenant, source, target);
      forall k | k in init ensures s[k].id != s[last].id {
        var i :| 0 <= i < |init| && init[i] == k;
        assert visit[i] != visit[|visit| - 1];
      }
    }
  }

  /** The list of policies does not depend on the order in which the map is visited. */
  lemma MatchingForgetsOrder(s: Store, visit: seq<string>, visit': seq<string>, q: Query)
    requires Sound(s) && Visits(visit, s) && Visits(visit', s)
    ensures Matching(s, visit, q) == Matching(s, visit', q)
  {
    var a, b := Picked(s, visit, q.tenant, q.source, q.requester), Picked(s, visit', q.tenant, q.source, q.requester);
    PickedDoNotRepeat(s, visit, q.tenant, q.source, q.requester);
    PickedDoNotRepeat(s, visit', q.tenant, q.source, q.requester);
    PickedAre(s, visit, q.tenant, q.source, q.requester);
    PickedAre(s, visit', q.tenant, q.source, q.requester);
    assert forall p :: p in a <==> p in b;
    SameSetSameMultiset(a, b);
    LessIsStrictTotalOrder();
    assert Tieless(a, Newer);
    SortForgetsOrder(a, b, Newer);
  }

  // ----- the bases they open ------------------------------------------------

  function Concat(ps: seq<Policy>): seq<string> {
    if ps == [] then [] else Concat(ps[..|ps| - 1]) + ps[|ps| - 1].bases
  }

  predicate OpensAll(p: Policy) { p.bases == [] }

  /** The ids handed to the knowledge search; an empty list there means no restriction. */
  function AllowedBases(ps: seq<Policy>): seq<string> {
    if exists p :: p in ps && OpensAll(p) then [] else Sort(Distinct(Concat(ps)), Less)
  }

  predicate Admits(filter: seq<string>, base: string) {
    filter == [] || base in filter
  }

  predicate Allows(p: Policy, base: string) {
    OpensAll(p) || base in p.bases
  }

  /** Every policy lists bases, but no list holds an id. */
  predicate AllBlank(ps: seq<Policy>) {
    forall p :: p in ps ==> !OpensAll(p) && forall id :: id in p.bases ==> id == ""
  }

  lemma {:induction false} ConcatHolds(ps: seq<Policy>)
    ensures forall id :: id in Concat(ps) <==> exists p :: p in ps && id in p.bases
  {
    if ps != [] {
      var init, last := ps[..|ps| - 1], ps[|ps| - 1];
      assert ps == init + [last];
      ConcatHolds(init);
      forall id ensures id in Concat(ps) <==> exists p :: p in ps && id in p.bases {
        assert last in ps && forall p :: p in ps <==> p in init || p == last;
      }
    }
  }

  lemma AllowedBasesHold(ps: seq<Policy>)
    requires forall p :: p in ps ==> !OpensAll(p)
    ensures forall id :: id in AllowedBases(ps) <==> id != "" && exists p :: p in ps && id in p.bases
  {
    ConcatHolds(ps);
    DistinctHolds(Concat(ps));
    SortElements(Distinct(Concat(ps)), Less);
    assert AllowedBases(ps) == Sort(Distinct(Concat(ps)), Less);
  }

  /** What the filter lets through beyond blank lists, some policy allows. */
  lemma FilterIsSound(ps: seq<Policy>, base: string)
    requires ps != [] && !AllBlank(ps) && Admits(AllowedBases(ps), base)
    ensures exists p :: p in ps && Allows(p, base)
  {
    if p :| p in ps && OpensAll(p) {
      assert Allows(p, base);
    } else {
      AllowedBasesHold(ps);
      if AllowedBases(ps) != [] {
        var p :| p in ps && base in p.bases;
        assert Allows(p, base);
      } else {
        forall p | p in ps ensures forall id :: id in p.bases ==> id == "" {
          forall id | id in p.bases ensures id == "" {
            assert id !in AllowedBases(ps);
          }
        }
        assert AllBlank(ps);
      }
    }
  }

  /** The filter admits exactly the bases some policy allows, unless every list is made of blank ids:
      then it admits every base and no policy allows any. */
  lemma FilterIsExactIff(ps: seq<Policy>)
    requires ps != []
    ensures (forall base :: base != "" ==> (Admits(AllowedBases(ps), base) <==> exists p :: p in ps && Allows(p, base)))
       <==> !AllBlank(ps)
  {
    if AllBlank(ps) {
      AllowedBasesHold(ps);
      EmptyOrInhabited(AllowedBases(ps));
      assert Admits(AllowedBases(ps), "kb") && !exists p :: p in ps && Allows(p, "kb");
    } else {
      forall base | base != "" ensures Admits(AllowedBases(ps), base) <==> exists p :: p in ps && Allows(p, base) {
        if Admits(AllowedBases(ps), base) {
          FilterIsSound(ps, base);
        }
        if p :| p in ps && Allows(p, base) {
          if !exists o :: o in ps && OpensAll(o) {
            AllowedBasesHold(ps);
          }
        }
      }
    }
  }

  /** One policy listing a blank id opens every base of the source group. */
  lemma BlankListOpensEverything(p: Policy, base: string)
    requires p.bases == [""] && base != ""
    ensures Admits(AllowedBases([p]), base) && !Allows(p, base)
  {
    assert Concat([p]) == [""] && Distinct([""]) == [];
  }

  // ----- redaction ----------------------------------------------------------

  function Priority(redaction: string): nat {
    if redaction == SUMMARY_ONLY then 1
    else if redaction == MASK_EMAILS || redaction == MASK_NUMBERS then 2
    else if redaction == STRICT then 3
    else 0
  }

  function Strongest(ps: seq<Policy>): string {
    if ps == [] then SUMMARY_ONLY
    else
      var best, last := Strongest(ps[..|ps| - 1]), ps[|ps| - 1].redaction;
      if Priority(last) > Priority(best) then last else best
  }

  function Truncate(value: string, maxRunes: nat): string {
    if maxRunes == 0 || |value| <= maxRunes then value else value[..maxRunes]
  }

  function Redact(r: Knowledge.Result, redaction: string, masks: Masks): Knowledge.Result {
    var marked := r.(redacted := true, redaction := redaction);
    if redaction == STRICT then marked.(title := "redacted", snippet := "[redacted shared knowledge]", uri := "")
    else if redaction == MASK_EMAILS then
      marked.(title := masks.emails(r.title), snippet := Truncate(masks.emails(r.snippet), SHOWN_RUNES))
    else if redaction == MASK_NUMBERS then
      marked.(title := masks.numbers(r.title), snippet := Truncate(masks.numbers(r.snippet), SHOWN_RUNES))
    else marked.(snippet := Truncate(r.snippet, SHOWN_RUNES), uri := "")
  }

  /** The first of the policies whose redaction has the highest priority decides; only a list with
      nothing above summaries falls back to them. */
  lemma {:induction false} StrongestIsFirstMaximal(ps: seq<Policy>)
    ensures forall p :: p in ps ==> Priority(p.redaction) <= Priority(Strongest(ps))
    ensures || (Strongest(ps) == SUMMARY_ONLY)
            || exists i :: 0 <= i < |ps| && ps[i].redaction == Strongest(ps)
                        && forall j :: 0 <= j < i ==> Priority(ps[j].redaction) < Priority(Strongest(ps))
  {
    if ps != [] {
      var init, last := ps[..|ps| - 1], ps[|ps| - 1];
      assert ps == init + [last];
      StrongestIsFirstMaximal(init);
      if Strongest(ps) == Strongest(init) && Strongest(init) != SUMMARY_ONLY {
        var i :| 0 <= i < |init| && init[i].redaction == Strongest(init)
              && forall j :: 0 <= j < i ==> Priority(init[j].redaction) < Priority(Strongest(init));
        assert ps[i].redaction == Strongest(ps);
        assert forall j :: 0 <= j < i ==> ps[j] == init[j];
      } else if Strongest(ps) != SUMMARY_ONLY {
        assert ps[|init|].redaction == Strongest(ps);
        forall j | 0 <= j < |init| ensures Priority(ps[j].redaction) < Priority(Strongest(ps)) {
          assert init[j] in init;
        }
      }
    }
  }

  predicate IsMask(redaction: string) { redaction == "mask_emails" || redaction == "mask_numbers" }

  /** `m` is the first policy of the list that asks for a mask. */
  ghost predicate FirstMask(ps: seq<Policy>, m: Policy) {
    IsMask(m.redaction)
      && exists i :: 0 <= i < |ps| && ps[i] == m && forall j :: 0 <= j < i ==> !IsMask(ps[j].redaction)
  }

  /** By name: strict if any policy is strict; else the mask of the first policy that asks for one; else
      summaries. */
  lemma {:induction false} SummaryAtLeast(ps: seq<Policy>)
    ensures Priority(Strongest(ps)) >= 1
  {
    if ps != [] { SummaryAtLeast(ps[..|ps| - 1]); }
  }

  lemma StrongestByName(ps: seq<Policy>)
    ensures if exists p :: p in ps && p.redaction == "strict" then Strongest(ps) == "strict"
            else if exists p :: p in ps && IsMask(p.redaction) then
              exists m :: FirstMask(ps, m) && Strongest(ps) == m.redaction
            else Strongest(ps) == "summary_only"
  {
    var best := Strongest(ps);
    StrongestIsFirstMaximal(ps);
    SummaryAtLeast(ps);
    if best != "summary_only" {
      var i :| 0 <= i < |ps| && ps[i].redaction == best
            && forall j :: 0 <= j < i ==> Priority(ps[j].redaction) < Priority(best);
      assert ps[i] in ps && (best == "strict" || IsMask(best));
      assert IsMask(best) ==> FirstMask(ps, ps[i]);
    }
  }

  /** One more policy never weakens the redaction. */
  lemma MorePoliciesRedactMore(ps: seq<Policy>, qs: seq<Policy>)
    requires forall p :: p in ps ==> p in qs
    ensures Priority(Strongest(ps)) <= Priority(Strongest(qs))
  {
    StrongestIsFirstMaximal(ps);
    StrongestIsFirstMaximal(qs);
    SummaryAtLeast(qs);
    if Strongest(ps) != SUMMARY_ONLY {
      var i :| 0 <= i < |ps| && ps[i].redaction == Strongest(ps);
      assert ps[i] in qs;
    }
  }

  // ----- the search ---------------------------------------------------------

  function RedactAll(results: seq<Knowledge.Result>, redaction: string, masks: Masks): seq<Knowledge.Result> {
    seq(|results|, i requires 0 <= i < |results| => Redact(results[i], redaction, masks))
  }

  function KnowledgeQuery(ps: seq<Policy>, q: Query): Knowledge.Query {
    Knowledge.Query(q.tenant, q.requester, q.source, q.text, AllowedBases(ps), q.limit, true, "")
  }

  predicate Blank(q: Query) {
    q.tenant == "" || q.requester == "" || q.source == "" || q.text == ""
  }

  function Redacted(answer: Knowledge.Answer, ps: seq<Policy>, masks: Masks): Knowledge.Answer {
    if answer.Found? then Knowledge.Found(RedactAll(answer.results, Strongest(ps), masks)) else answer
  }

  /** `permitted` is this service's permission check, `mayRead` the knowledge service's own. */
  function Search(ps: seq<Policy>, bases: Knowledge.Bases, docs: seq<Knowledge.Document>, q: Query, permitted: bool,
                  mayRead: bool, lower: char -> char, masks: Masks): Knowledge.Answer {
    if Blank(q) then Knowledge.Invalid
    else if !permitted then Knowledge.Refused
    else if ps == [] then Knowledge.Refused
    else Redacted(Knowledge.Search(bases, docs, KnowledgeQuery(ps, q), mayRead, lower), ps, masks)
  }

  /** The document is one that policy `p` shares with the requester. */
  predicate Shares(p: Policy, d: Knowledge.Document, q: Query) {
    && p.tenant == q.tenant && p.source == q.source && p.target == q.requester && p.status == ENABLED
    && Allows(p, d.base)
  }

  /** The document may be shown to a requester from another group. */
  predicate Readable(base: Knowledge.Base, d: Knowledge.Document, q: Query) {
    && d.tenant == q.tenant && Knowledge.GroupOf(base, d) == q.source
    && base.status != Knowledge.DISABLED && (d.indexStatus == "" || d.indexStatus == Knowledge.READY)
    && (q.source == q.requester || base.owner == q.requester
       || Knowledge.VisibilityOf(base, d) in {"tenant", "shared", "shared_groups"})
  }

  function Masked(value: string, redaction: string, masks: Masks): string {
    if redaction == MASK_EMAILS then masks.emails(value)
    else if redaction == MASK_NUMBERS then masks.numbers(value)
    else value
  }

  /** Result `r` says about document `d` only what its redaction lets through: nothing of its text under
      the strict one, otherwise the masked title and the start of the masked snippet. */
  predicate Presents(r: Knowledge.Result, d: Knowledge.Document, snippet: string, masks: Masks) {
    && r.document == d.id && r.base == d.base && r.group == d.group
    && r.redacted && |r.snippet| <= SHOWN_RUNES
    && (r.redaction == STRICT ==> r.title == "redacted" && r.snippet == "[redacted shared knowledge]")
    && (r.redaction != STRICT
       ==> r.title == Masked(d.title, r.redaction, masks) && r.snippet <= Masked(snippet, r.redaction, masks))
    && (r.uri == "" || (r.uri == d.uri && r.redaction in {MASK_EMAILS, MASK_NUMBERS}))
  }

  function SnippetOf(d: Knowledge.Document, q: Query, lower: char -> char): string {
    Snippet.Excerpt(d.content, q.text, Knowledge.SNIPPET_RUNES, lower)
  }

  lemma RedactedPresents(found: Knowledge.Result, d: Knowledge.Document, redaction: string, masks: Masks)
    requires found.document == d.id && found.base == d.base && found.group == d.group && found.uri == d.uri
             && found.title == d.title
    ensures Presents(Redact(found, redaction, masks), d, found.snippet, masks)
  {
    assert |"[redacted shared knowledge]"| <= SHOWN_RUNES;
  }

  lemma SharedComesFromFound(ps: seq<Policy>, bases: Knowledge.Bases, docs: seq<Knowledge.Document>, q: Query,
                             lower: char -> char, masks: Masks, r: Knowledge.Result)
    returns (found: Knowledge.Result)
    requires Search(ps, bases, docs, q, true, true, lower, masks).Found?
             && r in Search(ps, bases, docs, q, true, true, lower, masks).results
    ensures ps != [] && Knowledge.Search(bases, docs, KnowledgeQuery(ps, q), true, lower).Found?
    ensures found in Knowledge.Search(bases, docs, KnowledgeQuery(ps, q), true, lower).results
    ensures r == Redact(found, Strongest(ps), masks)
  {
    var answer := Knowledge.Search(bases, docs, KnowledgeQuery(ps, q), true, lower);
    assert Search(ps, bases, docs, q, true, true, lower, masks)
           == Knowledge.Found(RedactAll(answer.results, Strongest(ps), masks));
    var i :| 0 <= i < |answer.results| && r == RedactAll(answer.results, Strongest(ps), masks)[i];
    found := answer.results[i];
  }

  lemma FoundIsEarned(bases: Knowledge.Bases, docs: seq<Knowledge.Document>, kq: Knowledge.Query, lower: char -> char,
                      found: Knowledge.Result)
    returns (d: Knowledge.Document)
    requires Knowledge.Search(bases, docs, kq, true, lower).Found?
             && found in Knowledge.Search(bases, docs, kq, true, lower).results
    ensures d in docs && Knowledge.Eligible(bases, d, kq)
    ensures found.document == d.id && found.base == d.base && found.group == d.group && found.uri == d.uri
            && found.title == d.title
    ensures found.snippet == Snippet.Excerpt(d.content, kq.text, Knowledge.SNIPPET_RUNES, lower)
  {
    Knowledge.SearchIsTopK(bases, docs, kq, lower);
    d :| Knowledge.Earns(bases, docs, d, kq, lower, found);
  }

  lemma ResultsAreShared(ps: seq<Policy>, bases: Knowledge.Bases, docs: seq<Knowledge.Document>, q: Query,
                         lower: char -> char, masks: Masks, r: Knowledge.Result)
    requires Search(ps, bases, docs, q, true, true, lower, masks).Found?
             && r in Search(ps, bases, docs, q, true, true, lower, masks).results
    requires !AllBlank(ps)
    ensures r.redaction == Strongest(ps)
    ensures exists d :: d in docs && d.base in bases && Presents(r, d, SnippetOf(d, q, lower), masks) &&
              Readable(bases[d.base], d, q)
                     && exists p :: p in ps && Allows(p, d.base)
  {
    var found := SharedComesFromFound(ps, bases, docs, q, lower, masks, r);
    var d := FoundIsEarned(bases, docs, KnowledgeQuery(ps, q), lower, found);
    RedactedPresents(found, d, Strongest(ps), masks);
    FilterIsSound(ps, d.base);
    SearchHasSource(ps, bases, docs, q, lower, masks);
    assert Presents(r, d, SnippetOf(d, q, lower), masks) && Readable(bases[d.base], d, q);
  }

  lemma SearchHasSource(ps: seq<Policy>, bases: Knowledge.Bases, docs: seq<Knowledge.Document>, q: Query,
                        lower: char -> char, masks: Masks)
    requires Search(ps, bases, docs, q, true, true, lower, masks).Found?
    ensures q.source != ""
  {
  }

  /** Result `r` presents a stored, ready document of the tenant and the source group, readable by the
      requester, which an enabled policy between the two groups shares; and it is redacted at the highest
      priority any such policy asks for. */
  ghost predicate SharedAndRedacted(r: Knowledge.Result, s: Store, k: Knowledge.State, q: Query, lower: char -> char,
                                    masks: Masks) {
    && r.document in k.documents && r.group == q.source
    && (var d := k.documents[r.document];
        && d.base in k.bases && Presents(r, d, SnippetOf(d, q, lower), masks) && Readable(k.bases[d.base], d, q)
        && exists id :: id in s && Shares(s[id], d, q))
    && (forall id :: id in s && Matches(s[id], q) ==> Priority(s[id].redaction) <= Priority(r.redaction))
    && (r.redaction == SUMMARY_ONLY || exists id :: id in s && Matches(s[id], q) && s[id].redaction == r.redaction)
  }

  lemma ResultIsSharedAndRedacted(s: Store, visit: seq<string>, k: Knowledge.State, listed: seq<string>, q: Query,
                                  lower: char -> char, masks: Masks, r: Knowledge.Result)
    requires Sound(s) && Visits(visit, s) && Knowledge.Sound(k) && Knowledge.Visits(listed, k.documents)
    requires !AllBlank(Matching(s, visit, q))
    requires var answer := Search(Matching(s, visit, q), k.bases, Knowledge.Listed(k.documents, listed), q, true,
             true, lower, masks);
             answer.Found? && r in answer.results
    ensures SharedAndRedacted(r, s, k, q, lower, masks)
  {
    var ps, docs := Matching(s, visit, q), Knowledge.Listed(k.documents, listed);
    ResultsAreShared(ps, k.bases, docs, q, lower, masks, r);
    var d :| d in docs && d.base in k.bases && Presents(r, d, SnippetOf(d, q, lower), masks)
      && Readable(k.bases[d.base], d, q)
             && exists p :: p in ps && Allows(p, d.base);
    Knowledge.ListedIsStored(k, listed);
    MatchingAre(s, visit, q);
    var p :| p in ps && Allows(p, d.base);
    assert Shares(s[p.id], d, q);
    StrongestIsFirstMaximal(ps);
    forall id | id in s && Matches(s[id], q) ensures Priority(s[id].redaction) <= Priority(r.redaction) {
      assert s[id] in ps;
    }
    if r.redaction != SUMMARY_ONLY {
      var i :| 0 <= i < |ps| && ps[i].redaction == r.redaction;
      assert ps[i] in ps;
    }
  }

  /** Only a search that passes both permission checks finds anything. */
  lemma FoundIsPermitted(ps: seq<Policy>, bases: Knowledge.Bases, docs: seq<Knowledge.Document>, q: Query,
                         permitted: bool, mayRead: bool, lower: char -> char, masks: Masks)
    requires Search(ps, bases, docs, q, permitted, mayRead, lower, masks).Found?
    ensures permitted && mayRead
  {
  }

  /** Every result of every search through the two services, in all stores their operations can reach
      and whatever the permission checks say. */
  lemma EveryResultIsSharedAndRedacted(writes: seq<Write>, commands: seq<Knowledge.Command>, visit: seq<string>,
                                       listed: seq<string>, q: Query, permitted: bool, mayRead: bool,
                                       lower: char -> char, masks: Masks)
    requires Visits(visit, Run(map[], writes))
    requires Knowledge.Visits(listed, Knowledge.Run(Knowledge.EMPTY, commands, lower).documents)
    ensures var s, k := Run(map[], writes), Knowledge.Run(Knowledge.EMPTY, commands, lower);
            var ps := Matching(s, visit, q);
            var answer := Search(ps, k.bases, Knowledge.Listed(k.documents, listed), q, permitted, mayRead, lower,
              masks);
            (answer.Found? && !AllBlank(ps) ==>
               forall r :: r in answer.results ==> SharedAndRedacted(r, s, k, q, lower, masks))
  {
    var s, k := Run(map[], writes), Knowledge.Run(Knowledge.EMPTY, commands, lower);
    RunKeepsSound(map[], writes);
    Knowledge.RunKeepsSound(Knowledge.EMPTY, commands, lower);
    var ps, docs := Matching(s, visit, q), Knowledge.Listed(k.documents, listed);
    var answer := Search(ps, k.bases, docs, q, permitted, mayRead, lower, masks);
    if answer.Found? && !AllBlank(ps) {
      FoundIsPermitted(ps, k.bases, docs, q, permitted, mayRead, lower, masks);
      forall r | r in answer.results ensures SharedAndRedacted(r, s, k, q, lower, masks) {
        ResultIsSharedAndRedacted(s, visit, k, listed, q, lower, masks, r);
      }
    }
  }

  // ----- what is shown, said of policies and documents ----------------------

  /** The policy is enabled and lets the requester read the source. */
  predicate Grants(p: Policy, q: Query) {
    p.tenant == q.tenant && p.source == q.source && p.target == q.requester && p.status == "enabled"
  }

  /** Of the policies that grant and mask it is the one updated last, by id among those updated together. */
  ghost predicate LatestMask(s: Store, q: Query, id: string) {
    && id in s && Grants(s[id], q) && IsMask(s[id].redaction)
    && forall i :: i in s && Grants(s[i], q) && IsMask(s[i].redaction) && i != id ==>
         s[i].updated < s[id].updated || (s[i].updated == s[id].updated && Less(id, i))
  }

  /** Which redaction the stored policies ask for. */
  ghost predicate AskedFor(s: Store, q: Query, redaction: string) {
    if exists id :: id in s && Grants(s[id], q) && s[id].redaction == "strict" then redaction == "strict"
    else if exists id :: id in s && Grants(s[id], q) && IsMask(s[id].redaction) then
      exists id :: LatestMask(s, q, id) && redaction == s[id].redaction
    else redaction == "summary_only"
  }

  function First180(text: string): string { if |text| <= 180 then text else text[..180] }

  /** What a redaction leaves of a document. */
  predicate ShowsOnly(r: Knowledge.Result, d: Knowledge.Document, snippet: string, masks: Masks) {
    && r.document == d.id && r.base == d.base && r.group == d.group && r.redacted
    && if r.redaction == "strict" then
         r.title == "redacted" && r.snippet == "[redacted shared knowledge]" && r.uri == ""
       else if r.redaction == "mask_emails" then
         r.title == masks.emails(d.title) && r.snippet == First180(masks.emails(snippet)) && r.uri == d.uri
       else if r.redaction == "mask_numbers" then
         r.title == masks.numbers(d.title) && r.snippet == First180(masks.numbers(snippet)) && r.uri == d.uri
       else r.title == d.title && r.snippet == First180(snippet) && r.uri == ""
  }

  lemma RedactShowsOnly(found: Knowledge.Result, d: Knowledge.Document, redaction: string, masks: Masks)
    requires found.document == d.id && found.base == d.base && found.group == d.group && found.uri == d.uri
             && found.title == d.title
    ensures ShowsOnly(Redact(found, redaction, masks), d, found.snippet, masks)
    ensures Redact(found, redaction, masks).redaction == redaction
  {
  }

  /** In the list, what is updated later comes first, and what is updated together goes by id. */
  lemma MatchingByTime(s: Store, visit: seq<string>, q: Query, i: int, j: int)
    requires Sound(s) && Visits(visit, s) && 0 <= i < j < |Matching(s, visit, q)|
    ensures var ps := Matching(s, visit, q);
            ps[i].updated > ps[j].updated || (ps[i].updated == ps[j].updated && !Less(ps[j].id, ps[i].id))
  {
    var picked := Picked(s, visit, q.tenant, q.source, q.requester);
    LessIsStrictTotalOrder();
    SortSorted(picked, Newer);
    EnabledKeepsSorted(List(s, visit, q.tenant, q.source, q.requester));
  }

  lemma {:induction false} EnabledKeepsSorted(ps: seq<Policy>)
    requires Sorted(ps, Newer)
    ensures Sorted(Enabled(ps), Newer)
  {
    if ps != [] {
      var init, last := ps[..|ps| - 1], ps[|ps| - 1];
      EnabledKeepsSorted(init);
      EnabledAre(init);
      forall p | p in init ensures !Newer(last, p) {
        var i :| 0 <= i < |init| && init[i] == p;
        assert ps[i] == p;
      }
    }
  }

  /** The redaction that decides is the one the stored policies ask for. */
  lemma StrongestIsAskedFor(s: Store, visit: seq<string>, q: Query)
    requires Sound(s) && Visits(visit, s) && !Blank(q)
    ensures AskedFor(s, q, Strongest(Matching(s, visit, q)))
  {
    var ps := Matching(s, visit, q);
    MatchingAre(s, visit, q);
    StrongestByName(ps);
    forall id | id in s && Grants(s[id], q) ensures s[id] in ps {
      assert s[id].id == id && Matches(s[id], q);
    }
    forall p | p in ps ensures p.id in s && s[p.id] == p && Grants(p, q) {
      assert Matches(p, q);
    }
    if m :| FirstMask(ps, m) && Strongest(ps) == m.redaction {
      FirstMaskIsLatest(s, visit, q, m);
    }
  }

  lemma FirstMaskIsLatest(s: Store, visit: seq<string>, q: Query, m: Policy)
    requires Sound(s) && Visits(visit, s) && !Blank(q) && FirstMask(Matching(s, visit, q), m)
    ensures LatestMask(s, q, m.id) && s[m.id] == m
  {
    var ps := Matching(s, visit, q);
    MatchingAre(s, visit, q);
    LessIsStrictTotalOrder();
    var at :| 0 <= at < |ps| && ps[at] == m && forall j :: 0 <= j < at ==> !IsMask(ps[j].redaction);
    assert m in ps && Matches(m, q);
    forall i | i in s && Grants(s[i], q) && IsMask(s[i].redaction) && i != m.id
      ensures s[i].updated < m.updated || (s[i].updated == m.updated && Less(m.id, i))
    {
      assert s[i].id == i && Matches(s[i], q) && s[i] in ps;
      var j :| 0 <= j < |ps| && ps[j] == s[i];
      MatchingByTime(s, visit, q, at, j);
    }
  }

  /** Every result of a search shows, of a stored document, only what the redaction leaves that the stored
      policies ask for. */
  lemma ResultsShowOnly(s: Store, visit: seq<string>, k: Knowledge.State, listed: seq<string>, q: Query,
                        permitted: bool, mayRead: bool, lower: char -> char, masks: Masks, r: Knowledge.Result)
    requires Sound(s) && Visits(visit, s) && Knowledge.Sound(k) && Knowledge.Visits(listed, k.documents)
    requires var answer := Search(Matching(s, visit, q), k.bases, Knowledge.Listed(k.documents, listed), q, permitted,
             mayRead, lower, masks);
             answer.Found? && r in answer.results
    ensures AskedFor(s, q, r.redaction)
    ensures r.document in k.documents
            && var d := k.documents[r.document];
               ShowsOnly(r, d, Snippet.Excerpt(d.content, q.text, 220, lower), masks)
  {
    var ps, docs := Matching(s, visit, q), Knowledge.Listed(k.documents, listed);
    FoundIsPermitted(ps, k.bases, docs, q, permitted, mayRead, lower, masks);
    var found := SharedComesFromFound(ps, k.bases, docs, q, lower, masks, r);
    var d := FoundIsEarned(k.bases, docs, KnowledgeQuery(ps, q), lower, found);
    RedactShowsOnly(found, d, Strongest(ps), masks);
    Knowledge.ListedIsStored(k, listed);
    StrongestIsAskedFor(s, visit, q);
  }

  /** The document is of the source group, may be read by the requester, and a policy allows its base. */
  ghost predicate IsOpen(ps: seq<Policy>, bases: Knowledge.Bases, d: Knowledge.Document, q: Query) {
    && d.base != "" && (exists p :: p in ps && Allows(p, d.base))
    && Knowledge.MayBeFound(bases, d, Knowledge.Query(q.tenant, q.requester, q.source, q.text, [], q.limit, true, ""))
  }

  /** The mode in which the shared documents are searched. */
  function SharedMode(ps: seq<Policy>, bases: Knowledge.Bases, docs: seq<Knowledge.Document>, q: Query,
                      lower: char -> char): string {
    var kq := KnowledgeQuery(ps, q);
    Knowledge.ModeOf(bases, Knowledge.Candidates(bases, docs, kq), kq, lower)
  }

  lemma OpenIsFound(ps: seq<Policy>, bases: Knowledge.Bases, docs: seq<Knowledge.Document>, q: Query,
                    lower: char -> char, d: Knowledge.Document)
    returns (r: Knowledge.Result)
    requires ps != [] && !AllBlank(ps) && d in docs && IsOpen(ps, bases, d, q)
    requires Scoring.Score(Scoring.Terms(q.text, lower), SharedMode(ps, bases, docs, q, lower), d.title, d.content,
             lower) > 0
    ensures r.document == d.id && Knowledge.Finds(bases, docs, d, KnowledgeQuery(ps, q), lower, r)
  {
    var mode := SharedMode(ps, bases, docs, q, lower);
    FilterIsExactIff(ps);
    assert Admits(AllowedBases(ps), d.base);
    var score := Scoring.Score(Scoring.Terms(q.text, lower), mode, d.title, d.content, lower);
    r := Knowledge.HitFor(bases[d.base], q.text, mode, d, score, lower);
  }

  /** What is open and scores is shown, unless as many results as asked for score as much. */
  lemma OpenIsShown(ps: seq<Policy>, bases: Knowledge.Bases, docs: seq<Knowledge.Document>, q: Query,
                    lower: char -> char, masks: Masks, d: Knowledge.Document)
    requires Search(ps, bases, docs, q, true, true, lower, masks).Found? && !AllBlank(ps)
    requires d in docs && IsOpen(ps, bases, d, q)
    requires Scoring.Score(Scoring.Terms(q.text, lower), SharedMode(ps, bases, docs, q, lower), d.title, d.content,
             lower) > 0
    ensures var results := Search(ps, bases, docs, q, true, true, lower, masks).results;
            || |results| == (if 1 <= q.limit <= 10 then q.limit else 10)
            || exists r :: r in results && r.document == d.id
  {
    var r := OpenIsFound(ps, bases, docs, q, lower, d);
    var kq := KnowledgeQuery(ps, q);
    Knowledge.SearchShowsBest(bases, docs, kq, lower);
    var found := Knowledge.Search(bases, docs, kq, true, lower).results;
    assert Search(ps, bases, docs, q, true, true, lower, masks).results == RedactAll(found, Strongest(ps), masks);
    if r in found {
      FoundStaysIn(found, Strongest(ps), masks, r);
    }
  }

  lemma FoundStaysIn(found: seq<Knowledge.Result>, redaction: string, masks: Masks, r: Knowledge.Result)
    requires r in found
    ensures exists s :: s in RedactAll(found, redaction, masks) && s.document == r.document
  {
    var i :| 0 <= i < |found| && found[i] == r;
    var shown := RedactAll(found, redaction, masks);
    assert shown[i] in shown && shown[i].document == r.document;
  }

  /** A search that leaves something out is invalid; one that is not permitted, or that no policy grants, is
      refused, and so is one the knowledge service does not permit. */
  lemma SearchAnswers(ps: seq<Policy>, bases: Knowledge.Bases, docs: seq<Knowledge.Document>, q: Query,
                      permitted: bool, mayRead: bool, lower: char -> char, masks: Masks)
    ensures var answer := Search(ps, bases, docs, q, permitted, mayRead, lower, masks);
            var complete := q.tenant != "" && q.requester != "" && q.source != "" && q.text != "";
            && (answer.Found? <==> complete && permitted && ps != [] && TrimSpace(q.text) != "" && mayRead)
            && (answer == Knowledge.Invalid
                <==> !complete || (permitted && ps != [] && TrimSpace(q.text) == ""))
  {
  }

  /** The answer does not depend on the order in which either service visits its map, as long as the
      search mode does not. */
  lemma SearchForgetsOrder(s: Store, visit: seq<string>, visit': seq<string>, k: Knowledge.State, listed: seq<string>,
                           listed': seq<string>, q: Query, permitted: bool, mayRead: bool, lower: char -> char,
                           masks: Masks)
    requires Sound(s) && Visits(visit, s) && Visits(visit', s)
    requires Knowledge.Sound(k) && Knowledge.Visits(listed, k.documents) && Knowledge.Visits(listed', k.documents)
    requires var kq := KnowledgeQuery(Matching(s, visit, q), q);
             Knowledge.ModeOf(k.bases, Knowledge.Candidates(k.bases, Knowledge.Listed(k.documents, listed), kq), kq,
               lower)
             == Knowledge.ModeOf(k.bases, Knowledge.Candidates(k.bases, Knowledge.Listed(k.documents, listed'), kq),
               kq, lower)
    ensures Search(Matching(s, visit, q), k.bases, Knowledge.Listed(k.documents, listed), q, permitted, mayRead,
            lower, masks)
            == Search(Matching(s, visit', q), k.bases, Knowledge.Listed(k.documents, listed'), q, permitted, mayRead,
              lower, masks)
  {
    MatchingForgetsOrder(s, visit, visit', q);
    Knowledge.ListedIsStored(k, listed);
    Knowledge.ListedIsStored(k, listed');
    Knowledge.SearchForgetsOrder(k.bases, Knowledge.Listed(k.documents, listed), Knowledge.Listed(k.documents, listed'),
                                 KnowledgeQuery(Matching(s, visit, q), q), mayRead, lower);
  }

  // ----- the service --------------------------------------------------------

  lemma DistinctNext(ids: seq<string>, id: string)
    ensures Distinct(ids + [id]) == Distinct(ids) + if id == "" || id in Distinct(ids) then [] else [id]
  {
    assert (ids + [id])[..|ids|] == ids;
  }

  /** The inner loop of the union: one policy's ids. */
  method AddBases(ids: seq<string>, out: seq<string>, seen: set<string>, ghost before: seq<string>)
    returns (out': seq<string>, seen': set<string>)
    requires out == Distinct(before) && forall id :: id in seen <==> id in out
    ensures out' == Distinct(before + ids) && forall id :: id in seen' <==> id in out'
  {
    out', seen' := out, seen;
    assert before + ids[..0] == before;
    for j := 0 to |ids|
      invariant out' == Distinct(before + ids[..j])
      invariant forall id :: id in seen' <==> id in out'
    {
      assert before + ids[..j + 1] == (before + ids[..j]) + [ids[j]];
      DistinctNext(before + ids[..j], ids[j]);
      if ids[j] == "" {
        continue;
      }
      if ids[j] in seen' {
        continue;
      }
      seen' := seen' + {ids[j]};
      out' := out' + [ids[j]];
    }
    assert ids[..|ids|] == ids;
  }

  method UnionOfBases(ps: seq<Policy>) returns (out: seq<string>)
    ensures out == AllowedBases(ps)
  {
    var seen: set<string> := {};
    out := [];
    for i := 0 to |ps|
      invariant out == Distinct(Concat(ps[..i]))
      invariant forall id :: id in seen <==> id in out
      invariant forall p :: p in ps[..i] ==> !OpensAll(p)
    {
      assert ps[..i + 1] == ps[..i] + [ps[i]] && ps[..i + 1][..i] == ps[..i];
      if |ps[i].bases| == 0 {
        assert ps[i] in ps && OpensAll(ps[i]);
        return [];
      }
      out, seen := AddBases(ps[i].bases, out, seen, Concat(ps[..i]));
    }
    assert ps[..|ps|] == ps;
    out := Sort(out, Less);
  }

  method StrongestRedaction(ps: seq<Policy>) returns (best: string)
    ensures best == Strongest(ps)
  {
    best := SUMMARY_ONLY;
    for i := 0 to |ps|
      invariant best == Strongest(ps[..i])
    {
      assert ps[..i + 1][..i] == ps[..i];
      if Priority(ps[i].redaction) > Priority(best) {
        best := ps[i].redaction;
      }
    }
    assert ps[..|ps|] == ps;
  }

  method RedactResults(results: seq<Knowledge.Result>, redaction: string,
                       masks: Masks) returns (out: seq<Knowledge.Result>)
    ensures out == RedactAll(results, redaction, masks)
  {
    out := [];
    for i := 0 to |results|
      invariant |out| == i && forall j :: 0 <= j < i ==> out[j] == Redact(results[j], redaction, masks)
    {
      out := out + [Redact(results[i], redaction, masks)];
    }
  }

  lemma PickedNext(s: Store, visit: seq<string>, k: string, tenant: string, source: string, target: string)
    requires k in s && forall j :: j in visit ==> j in s
    ensures Picked(s, visit + [k], tenant, source, target)
            == Picked(s, visit, tenant, source, target) + if Between(s[k], tenant, source, target) then [s[k]] else []
  {
    assert (visit + [k])[..|visit|] == visit;
  }

  method OnlyEnabled(ps: seq<Policy>) returns (out: seq<Policy>)
    ensures out == Enabled(ps)
  {
    out := [];
    for i := 0 to |ps|
      invariant out == Enabled(ps[..i])
    {
      assert ps[..i + 1][..i] == ps[..i];
      if ps[i].status != ENABLED {
        continue;
      }
      out := out + [ps[i]];
    }
    assert ps[..|ps|] == ps;
  }

  ghost predicate ListedIn(s: Store, visit: seq<string>, tenant: string, source: string, target: string,
                           ps: seq<Policy>) {
    Visits(visit, s) && ps == List(s, visit, tenant, source, target)
  }

  ghost predicate MatchedIn(s: Store, visit: seq<string>, q: Query, ps: seq<Policy>) {
    Visits(visit, s) && ps == Matching(s, visit, q)
  }

  ghost predicate SearchedIn(s: Store, visit: seq<string>, k: Knowledge.State, listed: seq<string>, q: Query,
                             permitted: bool, mayRead: bool, lower: char -> char, masks: Masks,
                             answer: Knowledge.Answer)
  {
    && Visits(visit, s) && Knowledge.Visits(listed, k.documents)
    && answer == Search(Matching(s, visit, q), k.bases, Knowledge.Listed(k.documents, listed), q, permitted, mayRead,
       lower, masks)
  }

  ghost predicate Answered(s: Store, k: Knowledge.State, q: Query, permitted: bool, mayRead: bool, lower: char -> char,
                           masks: Masks, answer: Knowledge.Answer)
  {
    exists visit, listed :: SearchedIn(s, visit, k, listed, q, permitted, mayRead, lower, masks, answer)
  }

  lemma AnsweredEarly(s: Store, k: Knowledge.State, q: Query, permitted: bool, mayRead: bool, lower: char -> char,
                      masks: Masks)
    requires Blank(q) || !permitted
    ensures Answered(s, k, q, permitted, mayRead, lower, masks, if Blank(q) then Knowledge.Invalid
            else Knowledge.Refused)
  {
    var visit := Enumerate(s.Keys);
    var listed := Enumerate(k.documents.Keys);
    assert SearchedIn(s, visit, k, listed, q, permitted, mayRead, lower, masks, if Blank(q) then Knowledge.Invalid
           else Knowledge.Refused);
  }

  lemma AnsweredWithoutPolicy(s: Store, visit: seq<string>, k: Knowledge.State, q: Query, mayRead: bool,
                              lower: char -> char, masks: Masks)
    requires !Blank(q) && MatchedIn(s, visit, q, [])
    ensures Answered(s, k, q, true, mayRead, lower, masks, Knowledge.Refused)
  {
    var listed := Enumerate(k.documents.Keys);
    assert SearchedIn(s, visit, k, listed, q, true, mayRead, lower, masks, Knowledge.Refused);
  }

  lemma AnsweredByKnowledge(s: Store, visit: seq<string>, k: Knowledge.State, listed: seq<string>, q: Query,
                            mayRead: bool, lower: char -> char, masks: Masks, ps: seq<Policy>, found: Knowledge.Answer)
    requires !Blank(q) && ps != [] && MatchedIn(s, visit, q, ps)
    requires Knowledge.SearchedIn(k, listed, KnowledgeQuery(ps, q), mayRead, lower, found)
    ensures Answered(s, k, q, true, mayRead, lower, masks, Redacted(found, ps, masks))
  {
    assert SearchedIn(s, visit, k, listed, q, true, mayRead, lower, masks, Redacted(found, ps, masks));
  }

  class Service {
    const knowledge: Knowledge.InMemoryService
    const masks: Masks
    var policies: Store

    constructor (knowledge: Knowledge.InMemoryService, masks: Masks)
      ensures policies == map[] && this.knowledge == knowledge && this.masks == masks
    {
      this.knowledge := knowledge;
      this.masks := masks;
      policies := map[];
    }

    method UpsertSharePolicy(policy: Policy, now: int, newID: string) returns (ok: bool)
      modifies this
      ensures ok <==> policy.tenant != "" && policy.source != "" && policy.target != ""
      ensures var id := if policy.id == "" then newID else policy.id;
              policies ==
              if ok then old(policies)[id := policy.(
                id := id, redaction := if policy.redaction == "" then "summary_only" else policy.redaction,
                status := if policy.status == "" then "enabled" else policy.status, updated := now)]
              else old(policies)
      ensures policies == Upsert(old(policies), policy, now, newID).GetOr(old(policies))
      ensures ok <==> Upsert(old(policies), policy, now, newID).Some?
    {
      if policy.tenant == "" || policy.source == "" || policy.target == "" {
        return false;
      }
      var stored := policy;
      if stored.id == "" {
        stored := stored.(id := newID);
      }
      if stored.redaction == "" {
        stored := stored.(redaction := SUMMARY_ONLY);
      }
      if stored.status == "" {
        stored := stored.(status := ENABLED);
      }
      stored := stored.(updated := now);
      policies := policies[stored.id := stored];
      return true;
    }

    /** The policies between two groups, for the order in which the map happened to be visited. */
    method ListSharePolicies(tenant: string, source: string, target: string) returns (out: seq<Policy>)
      ensures exists visit :: ListedIn(policies, visit, tenant, source, target, out)
    {
      out := [];
      ghost var visit: seq<string> := [];
      var todo := policies.Keys;
      while todo != {}
        invariant todo <= policies.Keys && NoRepeats(visit) && forall k :: k in visit <==> k in policies && k !in todo
        invariant out == Picked(policies, visit, tenant, source, target)
        decreases todo
      {
        var k :| k in todo;
        AppendNoRepeats(visit, k);
        PickedNext(policies, visit, k, tenant, source, target);
        if Between(policies[k], tenant, source, target) {
          out := out + [policies[k]];
        }
        visit := visit + [k];
        todo := todo - {k};
      }
      out := Sort(out, Newer);
      assert ListedIn(policies, visit, tenant, source, target, out);
    }

    method MatchingPolicies(q: Query) returns (out: seq<Policy>)
      ensures exists visit :: MatchedIn(policies, visit, q, out)
    {
      var listed := ListSharePolicies(q.tenant, q.source, q.requester);
      ghost var visit :| ListedIn(policies, visit, q.tenant, q.source, q.requester, listed);
      out := OnlyEnabled(listed);
      assert MatchedIn(policies, visit, q, out);
    }

    /** The answer is the one for the orders in which the two maps happened to be visited. */
    method SearchShared(q: Query, permitted: bool, mayRead: bool) returns (answer: Knowledge.Answer)
      ensures Answered(policies, knowledge.View(), q, permitted, mayRead, knowledge.lower, masks, answer)
    {
      ghost var k := knowledge.View();
      if Blank(q) {
        AnsweredEarly(policies, k, q, permitted, mayRead, knowledge.lower, masks);
        return Knowledge.Invalid;
      }
      if !permitted {
        AnsweredEarly(policies, k, q, permitted, mayRead, knowledge.lower, masks);
        return Knowledge.Refused;
      }
      var ps := MatchingPolicies(q);
      ghost var visit :| MatchedIn(policies, visit, q, ps);
      if |ps| == 0 {
        AnsweredWithoutPolicy(policies, visit, k, q, mayRead, knowledge.lower, masks);
        return Knowledge.Refused;
      }
      var allowed := UnionOfBases(ps);
      var found := knowledge.SearchDocuments(Knowledge.Query(q.tenant, q.requester, q.source, q.text, allowed,
        q.limit, true, ""), mayRead);
      ghost var listed :| Knowledge.SearchedIn(k, listed, KnowledgeQuery(ps, q), mayRead, knowledge.lower, found);
      AnsweredByKnowledge(policies, visit, k, listed, q, mayRead, knowledge.lower, masks, ps, found);
      if !found.Found? {
        return found;
      }
      var redaction := StrongestRedaction(ps);
      var results := RedactResults(found.results, redaction, masks);
      return Knowledge.Found(results);
    }
  }
}
